/** The bounds on the trie are attained: contacts that fill it completely, and a run that adds them all. */
module FullTables {
  import opened Common
  import opened Bits
  import opened NodeIds
  import opened Contacts
  import opened Bins
  import opened Zones
  import opened Capacity
  import opened Tables

  // ---- identifiers from their bits --------------------------------------------------------------------------------

  lemma {:induction false} BitsValueBound(w: seq<bool>)
    ensures BitsValue(w) < Pow2(|w|)
  {
    if w != [] { BitsValueBound(w[..|w| - 1]); }
  }

  lemma {:induction false} BitsValueBit(w: seq<bool>, m: nat)
    requires m < |w|
    ensures BitAt(BitsValue(w), m) == w[|w| - 1 - m]
  {
    hide BitAt;
    var (front, last) := (w[..|w| - 1], w[|w| - 1]);
    LowestBit(BitsValue(front), if last then 1 else 0, m);
    if m > 0 { BitsValueBit(front, m - 1); }
  }

  lemma LowestBit(x: nat, b: nat, m: nat)
    requires b < 2
    ensures BitAt(2 * x + b, m) == if m == 0 then b == 1 else BitAt(x, m - 1)
  {
    assert (2 * x + b) / 2 == x;
  }

  /** Where the eight bits of stored byte `i` lie in the identifier. */
  function ByteStart(i: nat): nat
    requires i < 16
  {
    32 * (i / 4) + 24 - 8 * (i % 4)
  }

  function ByteOf(bits: seq<bool>, i: nat): byte
    requires |bits| == ID_BITS && i < 16
  {
    var w := bits[ByteStart(i)..ByteStart(i) + 8];
    BitsValueBound(w);
    Pow2Words();
    BitsValue(w)
  }

  function IdOf(bits: seq<bool>): NodeId
    requires |bits| == ID_BITS
  {
    NodeId(seq(16, i requires 0 <= i < 16 => ByteOf(bits, i)))
  }

  lemma BytePlace(pos: nat)
    requires pos < ID_BITS
    ensures var (k, c) := (31 - pos % 32, pos / 32);
            var i := 4 * c + k / 8;
            i < 16 && ByteStart(i) + 7 - k % 8 == pos
  {
    var (k, c) := (31 - pos % 32, pos / 32);
    var i := 4 * c + k / 8;
    assert i / 4 == c && i % 4 == k / 8;
  }

  lemma IdOfBit(bits: seq<bool>, pos: nat)
    requires |bits| == ID_BITS && pos < ID_BITS
    ensures Bit(IdOf(bits), pos) == bits[pos]
  {
    hide BitsValue, BitAt, Bit, ByteStart;
    var k := 31 - pos % 32;
    var i := 4 * (pos / 32) + k / 8;
    BitIsByteBit(IdOf(bits), pos);
    BytePlace(pos);
    StoredBit(bits, i, k % 8);
  }

  lemma StoredBit(bits: seq<bool>, i: nat, m: nat)
    requires |bits| == ID_BITS && i < 16 && m < 8
    ensures BitAt(IdOf(bits).bytes[i], m) == bits[ByteStart(i) + 7 - m]
  {
    hide BitsValue, BitAt;
    BitsValueBit(bits[ByteStart(i)..ByteStart(i) + 8], m);
  }

  lemma IdOfBits(bits: seq<bool>)
    requires |bits| == ID_BITS
    ensures IdBits(IdOf(bits)) == bits
  {
    hide Bit, IdOf;
    forall pos | 0 <= pos < ID_BITS ensures IdBits(IdOf(bits))[pos] == bits[pos] { IdOfBit(bits, pos); }
  }

  // ---- identifiers that fill a zone -------------------------------------------------------------------------------

  function PlaceOf(prefix: seq<bool>): nat { Min(KK, BitsValue(prefix)) }

  /** Contacts a zone that may not split has room for. */
  function Room(prefix: seq<bool>): nat { if |prefix| >= 125 then 8 else K }

  function Low(prefix: seq<bool>, n: nat): NodeId
    requires |prefix| <= ID_BITS
  {
    IdOf(prefix + WordBits(n, ID_BITS - |prefix|))
  }

  /** As many identifiers under `prefix` as the zone can hold when it splits wherever it may. */
  function Fill(prefix: seq<bool>): seq<NodeId>
    requires |prefix| <= 125
    decreases 125 - |prefix|
  {
    if MaySplit(|prefix|, PlaceOf(prefix)) then Fill(prefix + [false]) + Fill(prefix + [true])
    else seq(Room(prefix), n requires 0 <= n < Room(prefix) => Low(prefix, n))
  }

  ghost predicate AllUnder(ids: seq<NodeId>, prefix: seq<bool>)
  {
    forall i :: 0 <= i < |ids| ==> prefix <= IdBits(ids[i])
  }

  ghost predicate Different(ids: seq<NodeId>) { forall i, j :: 0 <= i < j < |ids| ==> ids[i] != ids[j] }

  lemma LowBits(prefix: seq<bool>, n: nat)
    requires |prefix| <= ID_BITS
    ensures IdBits(Low(prefix, n)) == prefix + WordBits(n, ID_BITS - |prefix|)
  {
    IdOfBits(prefix + WordBits(n, ID_BITS - |prefix|));
  }

  lemma LowDiffer(prefix: seq<bool>, m: nat, n: nat)
    requires |prefix| <= ID_BITS && m < n < Pow2(ID_BITS - |prefix|)
    ensures Low(prefix, m) != Low(prefix, n)
  {
    hide IdOf, WordBits, Low;
    var w := ID_BITS - |prefix|;
    LowBits(prefix, m);
    LowBits(prefix, n);
    WordBitsValue(m, w);
    WordBitsValue(n, w);
    assert (prefix + WordBits(m, w))[|prefix|..] == WordBits(m, w);
    assert (prefix + WordBits(n, w))[|prefix|..] == WordBits(n, w);
  }

  lemma RoomFits(prefix: seq<bool>)
    requires |prefix| <= 125
    ensures Room(prefix) <= Pow2(ID_BITS - |prefix|)
  {
    assert Pow2(3) == 8;
    if |prefix| < 125 { Pow2Monotone(4, ID_BITS - |prefix|); }
  }

  lemma LeafFill(prefix: seq<bool>, ids: seq<NodeId>)
    requires |prefix| <= 125 && |ids| == Room(prefix)
    requires forall n :: 0 <= n < |ids| ==> ids[n] == Low(prefix, n)
    ensures AllUnder(ids, prefix) && Different(ids)
  {
    hide Low, Pow2;
    RoomFits(prefix);
    forall n | 0 <= n < |ids| ensures prefix <= IdBits(ids[n]) { LowBits(prefix, n); }
    forall m, n | 0 <= m < n < |ids| ensures ids[m] != ids[n] { LowDiffer(prefix, m, n); }
  }

  lemma BothFills(prefix: seq<bool>, left: seq<NodeId>, right: seq<NodeId>)
    requires |prefix| < ID_BITS && Different(left) && Different(right)
    requires AllUnder(left, prefix + [false]) && AllUnder(right, prefix + [true])
    ensures AllUnder(left + right, prefix) && Different(left + right)
  {
    hide IdBits;
    forall i | 0 <= i < |left| ensures !IdBits(left[i])[|prefix|] && prefix <= IdBits(left[i]) {
      assert (prefix + [false])[|prefix|] == IdBits(left[i])[|prefix|];
    }
    forall i | 0 <= i < |right| ensures IdBits(right[i])[|prefix|] && prefix <= IdBits(right[i]) {
      assert (prefix + [true])[|prefix|] == IdBits(right[i])[|prefix|];
    }
  }

  /** The identifiers are different, belong to the zone, and are as many as its limit says. */
  lemma {:induction false} FillIs(prefix: seq<bool>)
    requires |prefix| <= 125
    ensures AllUnder(Fill(prefix), prefix) && Different(Fill(prefix))
    ensures |Fill(prefix)| == ContactLimit(|prefix|, PlaceOf(prefix))
    decreases 125 - |prefix|
  {
    hide AllUnder, Different, BitsValue, Low, ContactLimit;
    if MaySplit(|prefix|, PlaceOf(prefix)) {
      FillIs(prefix + [false]);
      FillIs(prefix + [true]);
      BothFills(prefix, Fill(prefix + [false]), Fill(prefix + [true]));
      ChildIndexIsPrefixValue(prefix, false);
      ChildIndexIsPrefixValue(prefix, true);
      SmallPrefixValue(prefix);
      LimitsAddUp(|prefix|, PlaceOf(prefix));
    } else {
      LeafFill(prefix, Fill(prefix));
      UnsplitLimits(|prefix|, PlaceOf(prefix));
    }
  }

  lemma UnsplitLimits(depth: nat, index: nat)
    requires depth <= 125
    ensures !MaySplit(depth, index) ==>
              LeafLimit(depth, index) == 1 && ContactLimit(depth, index) == if depth >= 125 then 8 else K
    ensures MaySplit(depth, index) ==> ContactLimit(depth, index) > K
  {
  }

  // ---- no eleven under a zone that may not split ------------------------------------------------------------------

  ghost function Sharing(ids: seq<NodeId>, q: seq<bool>): set<NodeId> { set id | id in ids && q <= IdBits(id) }

  /** No more than ten of the identifiers start with the bits of any zone that may not split. */
  ghost predicate Sparse(ids: seq<NodeId>)
  {
    forall q: seq<bool> :: KBASE <= |q| <= ID_BITS && BitsValue(q) >= KK ==> |Sharing(ids, q)| <= K
  }

  lemma {:induction false} SeqSetCard<T>(s: seq<T>)
    ensures |set x | x in s| <= |s|
  {
    if s == [] {
      assert (set x | x in s) == {};
    } else {
      var n := |s| - 1;
      SeqSetCard(s[..n]);
      assert (set x | x in s) == (set x | x in s[..n]) + {s[n]};
    }
  }

  lemma SharingOneSide(left: seq<NodeId>, right: seq<NodeId>, prefix: seq<bool>, q: seq<bool>)
    requires |prefix| < |q| <= ID_BITS && AllUnder(left, prefix + [false]) && AllUnder(right, prefix + [true])
    ensures Sharing(left + right, q) == if q[|prefix|] then Sharing(right, q) else Sharing(left, q)
  {
    hide IdBits;
    var d := |prefix|;
    forall i | 0 <= i < |left| && q <= IdBits(left[i]) ensures !q[d] {
      assert (prefix + [false])[d] == IdBits(left[i])[d] == q[d];
    }
    forall i | 0 <= i < |right| && q <= IdBits(right[i]) ensures q[d] {
      assert (prefix + [true])[d] == IdBits(right[i])[d] == q[d];
    }
  }

  lemma {:induction false} FillSparse(prefix: seq<bool>, q: seq<bool>)
    requires |prefix| <= 125 && prefix <= q && KBASE <= |q| <= ID_BITS && BitsValue(q) >= KK
    ensures |Sharing(Fill(prefix), q)| <= K
    decreases 125 - |prefix|
  {
    hide Sharing, BitsValue, Low;
    if MaySplit(|prefix|, PlaceOf(prefix)) {
      assert |q| == |prefix| ==> q == prefix;
      var b := q[|prefix|];
      assert prefix + [b] <= q;
      FillIs(prefix + [false]);
      FillIs(prefix + [true]);
      SharingOneSide(Fill(prefix + [false]), Fill(prefix + [true]), prefix, q);
      FillSparse(prefix + [b], q);
    } else {
      SharingCard(Fill(prefix), q);
    }
  }

  lemma SharingCard(ids: seq<NodeId>, q: seq<bool>)
    ensures |Sharing(ids, q)| <= |ids|
  {
    SeqSetCard(ids);
    SubsetCard(Sharing(ids, q), set id | id in ids);
  }

  // ---- every sparse list of contacts is accepted ------------------------------------------------------------------

  function IdsOf(cs: seq<Contact>): (r: seq<NodeId>)
    ensures |r| == |cs| && forall i :: 0 <= i < |cs| ==> r[i] == cs[i].id
  {
    seq(|cs|, i requires 0 <= i < |cs| => cs[i].id)
  }

  /** Contacts with identifiers and private addresses of their own, and sparse. */
  ghost predicate Admissible(cs: seq<Contact>)
  {
    && Different(IdsOf(cs)) && Sparse(IdsOf(cs))
    && (forall i, j :: 0 <= i < j < |cs| ==> cs[i].ip != cs[j].ip)
    && (forall i :: 0 <= i < |cs| ==> IsLan(cs[i].ip))
  }

  function Adds(cs: seq<Contact>): (r: seq<Op>)
    ensures |r| == |cs| && forall i :: 0 <= i < |cs| ==> r[i] == AddOp(cs[i])
  {
    seq(|cs|, i requires 0 <= i < |cs| => AddOp(cs[i]))
  }

  /** The table holds the first `n` of the contacts and nothing else. */
  ghost predicate Holds(t: Table, cs: seq<Contact>, n: nat)
    requires n <= |cs|
  {
    var m := Index(t.root);
    && TableOk(t) && |m| == n
    && (forall id :: id in m ==> exists i :: 0 <= i < n && m[id] == cs[i] && id == cs[i].id)
  }

  lemma {:induction false} LeafMembers(z: Zone, prefix: seq<bool>, id: NodeId)
    requires ZoneOk(z, prefix)
    ensures var leaf := LeafFor(z, id);
            leaf.Leaf? && BinOk(leaf.bin) && forall x :: x in leaf.bin ==> x.id in Index(z)
  {
    match z
    case Leaf(_, _, bin) =>
    case Branch(depth, _, left, right) =>
      if Bit(id, depth) {
        LeafMembers(right, prefix + [true], id);
      } else {
        LeafMembers(left, prefix + [false], id);
      }
  }

  lemma NotStuck(t: Table, cs: seq<Contact>, n: nat, bin: seq<Contact>, depth: nat)
    requires n < |cs| && Admissible(cs) && Holds(t, cs, n) && BinOk(bin) && |bin| >= K
    requires forall x :: x in bin ==> x.id in Index(t.root)
    ensures !Stuck(depth, bin, cs[n])
  {
    hide Index, TableOk, SubnetsOk, Sharing;
    var c := cs[n];
    forall d | depth <= d <= ID_BITS ensures !StuckAt(d, bin, c) {
      if StuckAt(d, bin, c) {
        var q := IdBits(c.id)[..d];
        assert |Sharing(IdsOf(cs), q)| <= K;
        ElevenShare(cs, n, bin, q, Index(t.root));
        assert false;
      }
    }
  }

  lemma ElevenShare(cs: seq<Contact>, n: nat, bin: seq<Contact>, q: seq<bool>, m: map<NodeId, Contact>)
    requires n < |cs| && Different(IdsOf(cs)) && UniqueIds(bin) && |bin| >= K
    requires q <= IdBits(cs[n].id) && forall x :: x in bin ==> x.id in m && q <= IdBits(x.id)
    requires forall id :: id in m ==> exists i :: 0 <= i < n && id == cs[i].id
    ensures |Sharing(IdsOf(cs), q)| > K
  {
    hide IdBits;
    var ids := IdsOf(cs);
    BinIdsCard(bin);
    forall i | 0 <= i < n ensures cs[i].id != cs[n].id { assert ids[i] != ids[n]; }
    assert cs[n].id !in m;
    forall id | id in BinIds(bin) + {cs[n].id} ensures id in Sharing(ids, q) {
      if id in BinIds(bin) {
        var i :| 0 <= i < n && id == cs[i].id;
        assert ids[i] == id;
      } else {
        assert ids[n] == id;
      }
    }
    SubsetCard(BinIds(bin) + {cs[n].id}, Sharing(ids, q));
  }

  lemma AddNext(t: Table, cs: seq<Contact>, n: nat)
    requires n < |cs| && |cs| <= t.maxSize && Admissible(cs) && Holds(t, cs, n)
    ensures AddContact(t, cs[n]).1.None? && Holds(AddContact(t, cs[n]).0, cs, n + 1)
    ensures AddContact(t, cs[n]).0.maxSize == t.maxSize
  {
    hide Index, TableOk, AddContact, Sparse, Stuck, BinOk, LeafFor, Different;
    var (c, m) := (cs[n], Index(t.root));
    NotHeldYet(t, cs, n);
    NextAccepted(t, cs, n);
    AddContactSpec(t, c);
    OutcomeMap(t, c);
    var m' := m[c.id := c];
    assert Sighted(m, c) == m';
    assert |m'| == n + 1 by { assert m'.Keys == m.Keys + {c.id}; }
    forall id | id in m' ensures exists i :: 0 <= i < n + 1 && m'[id] == cs[i] && id == cs[i].id {
      if id == c.id {
        assert m'[id] == cs[n];
      } else {
        var i :| 0 <= i < n && m[id] == cs[i] && id == cs[i].id;
        assert m'[id] == cs[i];
      }
    }
  }

  lemma NotHeldYet(t: Table, cs: seq<Contact>, n: nat)
    requires n < |cs| && Admissible(cs) && Holds(t, cs, n)
    ensures cs[n].id !in Index(t.root) && !IpTaken(Index(t.root), cs[n])
  {
    hide Index, TableOk, Sparse;
    var (m, c) := (Index(t.root), cs[n]);
    forall id | id in m ensures id != c.id && m[id].ip != c.ip {
      var i :| 0 <= i < n && m[id] == cs[i] && id == cs[i].id;
      assert IdsOf(cs)[i] != IdsOf(cs)[n];
    }
  }

  lemma NextAccepted(t: Table, cs: seq<Contact>, n: nat)
    requires n < |cs| && |cs| <= t.maxSize && Admissible(cs) && Holds(t, cs, n)
    requires !IpTaken(Index(t.root), cs[n])
    ensures AddContact(t, cs[n]).1.None?
  {
    hide AddContact, Index, Sparse, Stuck, BinOk, LeafFor, CountsOk, AtMostPer, ZoneOk, Different, IpTaken;
    var c := cs[n];
    AddContactAnswer(t, c);
    LeafMembers(t.root, [], c.id);
    var leaf := LeafFor(t.root, c.id);
    if |leaf.bin| >= K { NotStuck(t, cs, n, leaf.bin, leaf.depth); }
  }

  /** Every admissible list of contacts no longer than `max_size` is accepted whole, in any order. */
  lemma {:induction false} AllAccepted(ownId: NodeId, maxSize: nat, cs: seq<Contact>, n: nat)
    requires n <= |cs| <= maxSize && Admissible(cs)
    ensures var t := Run(WithMaxSize(ownId, maxSize), Adds(cs)[..n]); Holds(t, cs, n) && t.maxSize == maxSize
    decreases n
  {
    hide Admissible, Index, TableOk, AddContact;
    var start := WithMaxSize(ownId, maxSize);
    if n == 0 {
      NewTableOk(ownId, maxSize);
      assert Adds(cs)[..0] == [];
    } else {
      AllAccepted(ownId, maxSize, cs, n - 1);
      AddNext(Run(start, Adds(cs)[..n - 1]), cs, n - 1);
      assert Adds(cs)[..n] == Adds(cs)[..n - 1] + [AddOp(cs[n - 1])];
      RunSnoc(start, Adds(cs)[..n - 1], AddOp(cs[n - 1]));
    }
  }

  // ---- the bounds are attained ------------------------------------------------------------------------------------

  /** A zone with as many contacts as its limit has split wherever it may. */
  lemma {:induction false} FullMeansSplit(z: Zone, prefix: seq<bool>)
    requires ZoneOk(z, prefix) && z.depth <= 125 && Count(z) == ContactLimit(z.depth, z.index)
    ensures LeafCount(z) == LeafLimit(z.depth, z.index)
  {
    hide ContactLimit, LeafLimit, BitsValue;
    UnsplitLimits(z.depth, z.index);
    if z.Branch? {
      ChildPlaces(z, prefix);
      LimitsAddUp(z.depth, z.index);
      LimitsBound(z.left, prefix + [false]);
      LimitsBound(z.right, prefix + [true]);
      FullMeansSplit(z.left, prefix + [false]);
      FullMeansSplit(z.right, prefix + [true]);
    }
  }

  /** A contact with the `n`-th address of 10.0.0.0/8. */
  function ContactAt(id: NodeId, n: nat): Contact
  {
    Contact(id, Ipv4(10, n / 0x1_0000 % 0x100, n / 0x100 % 0x100, n % 0x100), 4672, 4662, 8, 0, 0,
            ContactMeta(None, false, false, false, false, Active, 0))
  }

  lemma AddressNumber(n: nat)
    requires n < 0x100_0000
    ensures n == 0x1_0000 * (n / 0x1_0000 % 0x100) + 0x100 * (n / 0x100 % 0x100) + n % 0x100
  {
    assert n / 0x100 / 0x100 == n / 0x1_0000;
  }

  lemma AddressesDiffer(a: NodeId, b: NodeId, m: nat, n: nat)
    requires m < n < 0x100_0000
    ensures ContactAt(a, m).ip != ContactAt(b, n).ip
  {
    AddressNumber(m);
    AddressNumber(n);
  }

  function Addressed(ids: seq<NodeId>): (r: seq<Contact>)
    ensures |r| == |ids| && IdsOf(r) == ids && forall i :: 0 <= i < |ids| ==> r[i] == ContactAt(ids[i], i)
  {
    seq(|ids|, i requires 0 <= i < |ids| => ContactAt(ids[i], i))
  }

  /** One contact for every place the trie has. */
  function FullSet(): seq<Contact> { Addressed(Fill([])) }

  lemma FullSetSize()
    ensures |FullSet()| == MAX_CONTACTS
  {
    hide Fill;
    FillIs([]);
  }

  lemma FullSetAdmissible()
    ensures Admissible(FullSet())
  {
    hide Fill, IdsOf, Sharing;
    FillIs([]);
    FullSetSize();
    forall q: seq<bool> | KBASE <= |q| <= ID_BITS && BitsValue(q) >= KK ensures |Sharing(Fill([]), q)| <= K {
      FillSparse([], q);
    }
    var cs := FullSet();
    forall i, j | 0 <= i < j < |cs| ensures cs[i].ip != cs[j].ip { AddressesDiffer(cs[i].id, cs[j].id, i, j); }
  }

  /** Both bounds are exact: a run of 6,190 adds, all accepted, builds 621 leaves, for every own identifier and every
      `max_size` that admits so many. */
  lemma BoundsAttained(ownId: NodeId, maxSize: nat)
    requires maxSize >= MAX_CONTACTS
    ensures var t := Run(WithMaxSize(ownId, maxSize), Adds(FullSet()));
            t.total == Count(t.root) == MAX_CONTACTS && LeafCount(t.root) == MAX_LEAVES
  {
    hide Run, Index, ZoneOk, CountsOk, AtMostPer, Admissible, FullSet, Count, LeafCount;
    var cs := FullSet();
    FullSetSize();
    FullSetAdmissible();
    AllAccepted(ownId, maxSize, cs, |cs|);
    assert Adds(cs)[..|cs|] == Adds(cs);
    var t := Run(WithMaxSize(ownId, maxSize), Adds(cs));
    CountIsIndexSize(t.root, []);
    RootPlace(t.root);
    FullMeansSplit(t.root, []);
  }

  lemma RootPlace(z: Zone)
    requires ZoneOk(z, [])
    ensures z.depth == 0 && z.index == 0
  {
  }
}
