/** The nearest-n query over the trie. Orders are stated against a ranking `d` of identifiers, which
    the query instantiates with the XOR distance to its target. */
module Nearest {
  import opened Common
  import opened NodeIds
  import opened Contacts
  import opened Bins
  import opened Zones
  import Capacity

  type Rank = NodeId -> nat

  function DistanceTo(target: NodeId): Rank { id => Dist(target, id) }

  function Insert(s: seq<Contact>, c: Contact, d: Rank): seq<Contact>
  {
    if s == [] || d(s[|s| - 1].id) <= d(c.id) then s + [c]
    else Insert(s[..|s| - 1], c, d) + [s[|s| - 1]]
  }

  /** A stable sort by rank. */
  function SortByRank(s: seq<Contact>, d: Rank): seq<Contact>
  {
    if s == [] then [] else Insert(SortByRank(s[..|s| - 1], d), s[|s| - 1], d)
  }

  /** `RoutingTable::get_closest` on a trie: scan everything, sort, truncate. */
  function GetClosest(z: Zone, target: NodeId, n: nat): seq<Contact>
  {
    Truncate(SortByRank(Walk(z, target, USIZE_MAX, []), DistanceTo(target)), n)
  }

  // ---- sorting ---------------------------------------------------------------------------------

  ghost predicate Separating(d: Rank)
  {
    forall a, b :: d(a) == d(b) ==> a == b
  }

  ghost predicate DistinctRanks(s: seq<Contact>, d: Rank)
  {
    forall i, j :: 0 <= i < j < |s| ==> d(s[i].id) != d(s[j].id)
  }

  lemma UniqueRanks(s: seq<Contact>, d: Rank)
    requires Separating(d) && UniqueIds(s)
    ensures DistinctRanks(s, d)
  {
  }

  ghost predicate Ascending(s: seq<Contact>, d: Rank)
  {
    forall i, j :: 0 <= i < j < |s| ==> d(s[i].id) < d(s[j].id)
  }

  lemma {:induction false} InsertSpec(s: seq<Contact>, c: Contact, d: Rank)
    requires Ascending(s, d) && forall i :: 0 <= i < |s| ==> d(s[i].id) != d(c.id)
    ensures Ascending(Insert(s, c, d), d)
    ensures multiset(Insert(s, c, d)) == multiset(s) + multiset{c}
  {
    if s != [] {
      var n := |s| - 1;
      assert s == s[..n] + [s[n]];
      if d(s[n].id) > d(c.id) {
        InsertSpec(s[..n], c, d);
        var t := Insert(s[..n], c, d);
        forall i | 0 <= i < |t| ensures d(t[i].id) < d(s[n].id) {
          assert t[i] in multiset(t);
          assert t[i] in s[..n] || t[i] == c;
        }
        AscendingSnoc(t, s[n], d);
      } else {
        AscendingSnoc(s, c, d);
      }
    }
  }

  lemma AscendingSnoc(s: seq<Contact>, c: Contact, d: Rank)
    requires Ascending(s, d) && (s != [] ==> d(s[|s| - 1].id) < d(c.id))
    ensures Ascending(s + [c], d)
  {
  }

  /** Distinct identifiers sort into one strictly ascending order. */
  lemma {:induction false} SortSpec(s: seq<Contact>, d: Rank)
    requires DistinctRanks(s, d)
    ensures Ascending(SortByRank(s, d), d)
    ensures multiset(SortByRank(s, d)) == multiset(s)
  {
    if s != [] {
      var n := |s| - 1;
      SortSpec(s[..n], d);
      var t := SortByRank(s[..n], d);
      assert s == s[..n] + [s[n]];
      forall i | 0 <= i < |t| ensures d(t[i].id) != d(s[n].id) {
        assert t[i] in multiset(t);
        assert t[i] in s[..n];
      }
      InsertSpec(t, s[n], d);
    }
  }

  // ---- the query's meaning ------------------------------------------------------------------------

  /** Contacts of `m` that `cs` leaves out are strictly farther than everything in `cs`. */
  ghost predicate SkipsOnlyFarther(cs: seq<Contact>, m: map<NodeId, Contact>, d: Rank)
  {
    forall id, i :: id in m && id !in BinIds(cs) && 0 <= i < |cs| ==> d(cs[i].id) < d(id)
  }

  ghost predicate DrawnFrom(cs: seq<Contact>, m: map<NodeId, Contact>)
  {
    forall i :: 0 <= i < |cs| ==> cs[i].id in m && m[cs[i].id] == cs[i]
  }

  /** `r` is the list of the `n` contacts of `m` ranked lowest, lowest first. */
  ghost predicate IsNearest(r: seq<Contact>, m: map<NodeId, Contact>, d: Rank, n: nat)
  {
    Ascending(r, d) && DrawnFrom(r, m) && |r| == Min(n, |m|) && SkipsOnlyFarther(r, m, d)
  }

  lemma AscendingUnique(s: seq<Contact>, d: Rank)
    requires Ascending(s, d)
    ensures UniqueIds(s) && |BinIds(s)| == |s|
  {
    forall i, j | 0 <= i < j < |s| ensures s[i].id != s[j].id {
      assert d(s[i].id) < d(s[j].id);
    }
    BinIdsCard(s);
  }

  lemma SubsetOfEqualSize<T>(a: set<T>, b: set<T>)
    requires a <= b && |a| >= |b|
    ensures a == b
  {
    assert |b - a| == |b| - |a|;
  }

  lemma DrawnIds(cs: seq<Contact>, m: map<NodeId, Contact>)
    requires DrawnFrom(cs, m)
    ensures BinIds(cs) <= m.Keys
  {
    forall c | c in cs ensures c.id in m { }
  }

  /** There is only one answer to a nearest-n query. */
  lemma NearestIsUnique(r: seq<Contact>, s: seq<Contact>, m: map<NodeId, Contact>, d: Rank, n: nat)
    requires IsNearest(r, m, d, n) && IsNearest(s, m, d, n)
    ensures r == s
  {
    NearestIncluded(r, s, m, d, n);
    NearestIncluded(s, r, m, d, n);
    AscendingDetermined(r, s, m, d);
  }

  lemma NearestIncluded(r: seq<Contact>, s: seq<Contact>, m: map<NodeId, Contact>, d: Rank, n: nat)
    requires IsNearest(r, m, d, n) && IsNearest(s, m, d, n)
    ensures BinIds(r) <= BinIds(s)
  {
    AscendingUnique(r, d);
    AscendingUnique(s, d);
    DrawnIds(r, m);
    DrawnIds(s, m);
    if BinIds(s) <= BinIds(r) {
      SubsetOfEqualSize(BinIds(s), BinIds(r));
    } else {
      var y :| y in s && y.id !in BinIds(r);
      forall x | x in r ensures x.id in BinIds(s) { CrossedIds(r, s, m, d, x, y); }
    }
  }

  lemma CrossedIds(r: seq<Contact>, s: seq<Contact>, m: map<NodeId, Contact>, d: Rank, x: Contact, y: Contact)
    requires SkipsOnlyFarther(r, m, d) && SkipsOnlyFarther(s, m, d) && DrawnFrom(r, m) && DrawnFrom(s, m)
    requires x in r && y in s && y.id !in BinIds(r)
    ensures x.id in BinIds(s)
  {
    var i :| 0 <= i < |r| && r[i] == x;
    var j :| 0 <= j < |s| && s[j] == y;
    assert d(r[i].id) < d(y.id);
  }

  lemma {:induction false} AscendingDetermined(r: seq<Contact>, s: seq<Contact>, m: map<NodeId, Contact>, d: Rank)
    requires Ascending(r, d) && Ascending(s, d) && DrawnFrom(r, m) && DrawnFrom(s, m)
    requires BinIds(r) == BinIds(s)
    ensures r == s
  {
    AscendingUnique(r, d);
    AscendingUnique(s, d);
    if r != [] {
      var n := |r| - 1;
      SameLast(r, s, d);
      WithoutLast(r);
      WithoutLast(s);
      AscendingDetermined(r[..n], s[..n], m, d);
      assert r == r[..n] + [r[n]] && s == s[..n] + [s[n]];
    }
  }

  lemma SameLast(r: seq<Contact>, s: seq<Contact>, d: Rank)
    requires Ascending(r, d) && Ascending(s, d) && |r| == |s| > 0 && BinIds(r) == BinIds(s)
    ensures r[|r| - 1].id == s[|s| - 1].id
  {
    var n := |r| - 1;
    assert r[n] in r && s[n] in s;
    assert s[n].id in BinIds(r) && r[n].id in BinIds(s);
    var i := Position(r, s[n].id);
    var j := Position(s, r[n].id);
    PositionInIds(r, s[n].id);
    PositionInIds(s, r[n].id);
    assert r[i].id == s[n].id && s[j].id == r[n].id;
  }

  lemma WithoutLast(s: seq<Contact>)
    requires UniqueIds(s) && s != []
    ensures BinIds(s[..|s| - 1]) == BinIds(s) - {s[|s| - 1].id}
  {
    var n := |s| - 1;
    assert s == s[..n] + [s[n]];
    BinIdsSnoc(s[..n], s[n]);
  }

  lemma SameElements(a: seq<Contact>, b: seq<Contact>)
    requires multiset(a) == multiset(b)
    ensures |a| == |b| && BinIds(a) == BinIds(b)
    ensures forall c :: c in a <==> c in b
  {
    assert forall c :: c in a <==> c in multiset(a);
    assert forall c :: c in b <==> c in multiset(b);
    assert |a| == |multiset(a)| && |b| == |multiset(b)|;
  }

  lemma TruncatedMember(s: seq<Contact>, n: nat, j: nat)
    requires j < |Truncate(s, n)|
    ensures s[j].id in BinIds(Truncate(s, n))
  {
    assert Truncate(s, n)[j] == s[j];
  }

  lemma TruncateSkips(sorted: seq<Contact>, m: map<NodeId, Contact>, d: Rank, n: nat)
    requires Ascending(sorted, d) && DrawnFrom(sorted, m) && SkipsOnlyFarther(sorted, m, d)
    ensures SkipsOnlyFarther(Truncate(sorted, n), m, d)
  {
    var r := Truncate(sorted, n);
    forall id, i | id in m && id !in BinIds(r) && 0 <= i < |r| ensures d(r[i].id) < d(id) {
      if id in BinIds(sorted) {
        var j := Position(sorted, id);
        PositionInIds(sorted, id);
        if j < |r| { TruncatedMember(sorted, n, j); }
      }
    }
  }

  /** Sorting and truncating any selection that skips only farther contacts answers the query. */
  lemma SelectionSuffices(cs: seq<Contact>, m: map<NodeId, Contact>, d: Rank, n: nat)
    requires UniqueIds(cs) && DistinctRanks(cs, d) && DrawnFrom(cs, m) && SkipsOnlyFarther(cs, m, d)
    requires |cs| >= Min(n, |m|)
    ensures IsNearest(Truncate(SortByRank(cs, d), n), m, d, n)
  {
    hide UniqueIds, DistinctRanks, SkipsOnlyFarther;
    var sorted := SortByRank(cs, d);
    SortSpec(cs, d);
    ReorderedSelection(cs, sorted, m, d);
    DrawnSize(cs, m);
    TruncateSkips(sorted, m, d, n);
  }

  lemma DrawnSize(cs: seq<Contact>, m: map<NodeId, Contact>)
    requires UniqueIds(cs) && DrawnFrom(cs, m)
    ensures |cs| <= |m|
  {
    BinIdsCard(cs);
    DrawnIds(cs, m);
    SubsetCard(BinIds(cs), m.Keys);
  }

  lemma ReorderedSelection(cs: seq<Contact>, sorted: seq<Contact>, m: map<NodeId, Contact>, d: Rank)
    requires DrawnFrom(cs, m) && SkipsOnlyFarther(cs, m, d) && multiset(cs) == multiset(sorted)
    ensures DrawnFrom(sorted, m) && SkipsOnlyFarther(sorted, m, d) && |sorted| == |cs|
  {
    SameElements(cs, sorted);
    forall i | 0 <= i < |sorted| ensures sorted[i] in cs { assert sorted[i] in sorted; }
  }

  // ---- the early-stopping walk --------------------------------------------------------------------

  /** `p` and `q` part after `prefix`, and `p` stays with `target` there. */
  ghost predicate PartsAfter(p: NodeId, q: NodeId, target: NodeId, prefix: seq<bool>, b: bool)
  {
    prefix + [b] <= IdBits(p) && prefix + [!b] <= IdBits(q) && Bit(target, |prefix|) == b
  }

  /** The ranking agrees with the trie: the half that follows `target` ranks below the other half. */
  ghost predicate RanksHalves(d: Rank, target: NodeId)
  {
    forall p, q, prefix, b :: PartsAfter(p, q, target, prefix, b) ==> d(p) < d(q)
  }

  /** What one walk adds to its accumulator. */
  ghost predicate WalkAdds(news: seq<Contact>, m: map<NodeId, Contact>, d: Rank, have: nat, n: nat)
  {
    && UniqueIds(news) && DrawnFrom(news, m) && SkipsOnlyFarther(news, m, d)
    && have + |news| >= Min(n, have + |m|)
  }

  ghost predicate IsUnion(near: map<NodeId, Contact>, far: map<NodeId, Contact>, m: map<NodeId, Contact>)
  {
    && near.Keys !! far.Keys
    && m.Keys == near.Keys + far.Keys
    && |m| == |near| + |far|
    && (forall id :: id in near ==> m[id] == near[id])
    && (forall id :: id in far ==> m[id] == far[id])
  }

  ghost predicate AllNearer(near: map<NodeId, Contact>, far: map<NodeId, Contact>, d: Rank)
  {
    forall p, q :: p in near && q in far ==> d(p) < d(q)
  }

  lemma HalvesRanked(near: map<NodeId, Contact>, far: map<NodeId, Contact>, prefix: seq<bool>, b: bool,
                     target: NodeId, d: Rank)
    requires forall id :: id in near ==> prefix + [b] <= IdBits(id)
    requires forall id :: id in far ==> prefix + [!b] <= IdBits(id)
    requires Bit(target, |prefix|) == b && RanksHalves(d, target)
    ensures AllNearer(near, far, d)
  {
    forall p, q | p in near && q in far ensures d(p) < d(q) {
      assert PartsAfter(p, q, target, prefix, b);
    }
  }

  lemma UnionKeys(a: map<NodeId, Contact>, b: map<NodeId, Contact>)
    requires a.Keys !! b.Keys
    ensures (a + b).Keys == a.Keys + b.Keys
    ensures forall id :: id in a ==> (a + b)[id] == a[id]
    ensures forall id :: id in b ==> (a + b)[id] == b[id]
  {
    forall id | id in a ensures (a + b)[id] == a[id] { assert id in a.Keys; }
  }

  lemma UnionOf(a: map<NodeId, Contact>, b: map<NodeId, Contact>)
    requires a.Keys !! b.Keys
    ensures IsUnion(a, b, a + b) && IsUnion(b, a, a + b)
  {
    DisjointUnionSize(a, b);
    UnionKeys(a, b);
  }

  lemma BranchHalves(z: Zone, prefix: seq<bool>, target: NodeId, d: Rank)
    requires ZoneOk(z, prefix) && z.Branch? && RanksHalves(d, target)
    ensures var (near, far, b) := (NearChild(z, target), FarChild(z, target), Bit(target, z.depth));
            && ZoneOk(near, prefix + [b]) && ZoneOk(far, prefix + [!b])
            && IsUnion(Index(near), Index(far), Index(z)) && AllNearer(Index(near), Index(far), d)
  {
    BranchSides(z, prefix);
    UnionOf(Index(z.left), Index(z.right));
    var b := Bit(target, z.depth);
    HalvesRanked(Index(NearChild(z, target)), Index(FarChild(z, target)), prefix, b, target, d);
  }

  lemma NearOnly(news: seq<Contact>, near: map<NodeId, Contact>, far: map<NodeId, Contact>, m: map<NodeId, Contact>,
                 d: Rank, have: nat, n: nat)
    requires WalkAdds(news, near, d, have, n) && have + |news| >= n
    requires IsUnion(near, far, m) && AllNearer(near, far, d)
    ensures WalkAdds(news, m, d, have, n)
  {
  }

  lemma IdsAppend(a: seq<Contact>, b: seq<Contact>)
    ensures BinIds(a + b) == BinIds(a) + BinIds(b)
  {
    assert forall c :: c in a + b <==> c in a || c in b;
  }

  lemma AppendDrawn(a: seq<Contact>, b: seq<Contact>, near: map<NodeId, Contact>, far: map<NodeId, Contact>,
                    m: map<NodeId, Contact>)
    requires UniqueIds(a) && UniqueIds(b) && DrawnFrom(a, near) && DrawnFrom(b, far) && IsUnion(near, far, m)
    ensures UniqueIds(a + b) && DrawnFrom(a + b, m)
  {
    var news := a + b;
    forall i, j | 0 <= i < j < |news| ensures news[i].id != news[j].id {
      if i < |a| <= j { assert news[i].id in near && news[j].id in far; }
    }
  }

  lemma WholeNearThenFar(nearNews: seq<Contact>, farNews: seq<Contact>, near: map<NodeId, Contact>,
                         far: map<NodeId, Contact>, m: map<NodeId, Contact>, d: Rank, have: nat, n: nat)
    requires WalkAdds(nearNews, near, d, have, n) && have + |nearNews| < n
    requires WalkAdds(farNews, far, d, have + |nearNews|, n)
    requires IsUnion(near, far, m) && AllNearer(near, far, d)
    ensures WalkAdds(nearNews + farNews, m, d, have, n)
  {
    BinIdsCard(nearNews);
    DrawnIds(nearNews, near);
    SubsetOfEqualSize(BinIds(nearNews), near.Keys);
    AppendDrawn(nearNews, farNews, near, far, m);
    AppendSkips(nearNews, farNews, near, far, m, d);
  }

  lemma AppendSkips(a: seq<Contact>, b: seq<Contact>, near: map<NodeId, Contact>, far: map<NodeId, Contact>,
                    m: map<NodeId, Contact>, d: Rank)
    requires DrawnFrom(a, near) && BinIds(a) == near.Keys && SkipsOnlyFarther(b, far, d)
    requires IsUnion(near, far, m) && AllNearer(near, far, d)
    ensures SkipsOnlyFarther(a + b, m, d)
  {
    IdsAppend(a, b);
    forall id, i | id in m && id !in BinIds(a + b) && 0 <= i < |a + b| ensures d((a + b)[i].id) < d(id) {
      assert id in far;
      if i < |a| { assert (a + b)[i] == a[i]; } else { assert (a + b)[i] == b[i - |a|]; }
    }
  }

  lemma {:induction false} WalkSpec(z: Zone, prefix: seq<bool>, target: NodeId, d: Rank, n: nat, acc: seq<Contact>)
    returns (news: seq<Contact>)
    requires ZoneOk(z, prefix) && RanksHalves(d, target)
    ensures Walk(z, target, n, acc) == acc + news && WalkAdds(news, Index(z), d, |acc|, n)
  {
    hide WalkAdds, IsUnion, AllNearer, RanksHalves, ZoneOk, Index, Bit;
    if z.Leaf? {
      news := z.bin;
      LeafWalk(z, prefix, d, |acc|, n);
    } else {
      var (near, far, b) := (NearChild(z, target), FarChild(z, target), Bit(target, z.depth));
      BranchHalves(z, prefix, target, d);
      var nearNews := WalkSpec(near, prefix + [b], target, d, n, acc);
      if |acc + nearNews| < n {
        var farNews := WalkSpec(far, prefix + [!b], target, d, n, acc + nearNews);
        news := nearNews + farNews;
        assert acc + nearNews + farNews == acc + news;
        WholeNearThenFar(nearNews, farNews, Index(near), Index(far), Index(z), d, |acc|, n);
      } else {
        news := nearNews;
        NearOnly(nearNews, Index(near), Index(far), Index(z), d, |acc|, n);
      }
    }
  }

  lemma LeafWalk(z: Zone, prefix: seq<bool>, d: Rank, have: nat, n: nat)
    requires ZoneOk(z, prefix) && z.Leaf?
    ensures WalkAdds(z.bin, Index(z), d, have, n)
  {
    CountIsIndexSize(z, prefix);
    forall i | 0 <= i < |z.bin| ensures z.bin[i].id in Index(z) && Index(z)[z.bin[i].id] == z.bin[i] {
      BinIndexAt(z.bin, i);
    }
  }

  // ---- instantiated with the XOR distance -------------------------------------------------------------

  lemma DistanceSeparates(target: NodeId)
    ensures Separating(DistanceTo(target))
  {
    var d := DistanceTo(target);
    forall a, b | d(a) == d(b) ensures a == b { DistInjective(target, a, b); }
  }

  lemma DistanceRanksHalves(target: NodeId)
    ensures RanksHalves(DistanceTo(target), target)
  {
    forall p, q, prefix, b | PartsAfter(p, q, target, prefix, b)
      ensures DistanceTo(target)(p) < DistanceTo(target)(q)
    {
      NearHalfIsNearer(target, p, q, prefix, b);
    }
  }

  lemma NearHalfIsNearer(target: NodeId, p: NodeId, q: NodeId, prefix: seq<bool>, b: bool)
    requires prefix + [b] <= IdBits(p) && prefix + [!b] <= IdBits(q) && Bit(target, |prefix|) == b
    ensures Dist(target, p) < Dist(target, q)
  {
    OtherSide(p, prefix, b);
    OtherSide(q, prefix, !b);
    assert IdBits(p)[..|prefix|] == (prefix + [b])[..|prefix|] == prefix;
    assert IdBits(q)[..|prefix|] == (prefix + [!b])[..|prefix|] == prefix;
    AgreeingSideIsNearer(target, p, q, |prefix|);
  }

  /** The ranking is the order in which the source compares `distance(target)` values. */
  lemma RankIsSourceOrder(target: NodeId, a: NodeId, b: NodeId)
    ensures Cmp(Distance(a, target), Distance(b, target)) == CompareNat(DistanceTo(target)(a), DistanceTo(target)(b))
  {
    CmpIsNumeric(Distance(a, target), Distance(b, target));
  }

  lemma ScanAnswers(z: Zone, target: NodeId, d: Rank, stop: nat, n: nat)
    requires ZoneOk(z, []) && Separating(d) && RanksHalves(d, target) && (n <= stop || |Index(z)| <= stop)
    ensures IsNearest(Truncate(SortByRank(Walk(z, target, stop, []), d), n), Index(z), d, n)
    ensures |Walk(z, target, stop, [])| >= Min(stop, |Index(z)|)
    ensures SkipsOnlyFarther(Walk(z, target, stop, []), Index(z), d)
  {
    hide Walk, SortByRank, IsNearest, ZoneOk, Index, Separating, RanksHalves, Truncate, SkipsOnlyFarther, UniqueIds;
    var news := WalkSpec(z, [], target, d, stop, []);
    assert [] + news == news;
    UniqueRanks(news, d);
    SelectionSuffices(news, Index(z), d, n);
  }

  /** `get_closest` returns exactly the nearest `n` contacts of the trie, nearest first. */
  lemma GetClosestSpec(z: Zone, target: NodeId, n: nat)
    requires ZoneOk(z, [])
    ensures IsNearest(GetClosest(z, target, n), Index(z), DistanceTo(target), n)
  {
    Capacity.TrieIsBounded(z);
    DistanceSeparates(target);
    DistanceRanksHalves(target);
    ScanAnswers(z, target, DistanceTo(target), USIZE_MAX, n);
  }

  /** Stopping the walk at `n` contacts instead of scanning everything changes no answer: it holds at
      least `n` (or all) contacts and skips only strictly farther ones. */
  lemma EarlyStopIsSound(z: Zone, target: NodeId, n: nat)
    requires ZoneOk(z, [])
    ensures Truncate(SortByRank(Walk(z, target, n, []), DistanceTo(target)), n) == GetClosest(z, target, n)
    ensures |Walk(z, target, n, [])| >= Min(n, |Index(z)|)
    ensures SkipsOnlyFarther(Walk(z, target, n, []), Index(z), DistanceTo(target))
  {
    var d := DistanceTo(target);
    DistanceSeparates(target);
    DistanceRanksHalves(target);
    ScanAnswers(z, target, d, n, n);
    GetClosestSpec(z, target, n);
    NearestIsUnique(Truncate(SortByRank(Walk(z, target, n, []), d), n), GetClosest(z, target, n), Index(z), d, n);
  }
}
