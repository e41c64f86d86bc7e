/** The binary trie of k-buckets: `crates/overlord-kad-routing/src/zone.rs`. */
module Zones {
  import opened Common
  import opened Bits
  import opened NodeIds
  import opened Contacts
  import opened Bins

  const KBASE := 4
  const KK := 5
  const USIZE_MAX := 0xFFFF_FFFF_FFFF_FFFF

  datatype Zone =
    | Leaf(depth: nat, index: nat, bin: seq<Contact>)
    | Branch(depth: nat, index: nat, left: Zone, right: Zone)

  function NewRoot(): Zone { Leaf(0, 0, []) }

  function ChildZoneIndex(parent: nat, rightChild: bool): nat
  {
    var doubled := Min(2 * parent, USIZE_MAX);
    Min(Min(doubled + (if rightChild then 1 else 0), USIZE_MAX), KK)
  }

  /** Why a leaf may not split, or `None` when it may. */
  function SplitDenial(depth: nat, index: nat, total: int, maxSize: nat): Option<SplitDeniedReason>
  {
    if depth >= 127 then Some(DepthLimit)
    else if total >= maxSize then Some(MaxTableSize)
    else if depth < KBASE || index < KK then None
    else Some(ZoneIndexCap)
  }

  /** Re-inserting drained contacts one by one; the first rejection stops the refill. */
  function Refill(cs: seq<Contact>): Result<seq<Contact>, RoutingError>
  {
    if cs == [] then Ok([]) else
      var n := |cs| - 1;
      match Refill(cs[..n])
      case Err(e) => Err(e)
      case Ok(bin) =>
        var (bin', r) := TryAdd(bin, cs[n]);
        if r.Err? then Err(r.error) else Ok(bin')
  }

  /** Distributing contacts over two fresh child leaves by the bit at `depth`. */
  function Distribute(cs: seq<Contact>, depth: nat): Result<(seq<Contact>, seq<Contact>), RoutingError>
  {
    if cs == [] then Ok(([], [])) else
      var n := |cs| - 1;
      match Distribute(cs[..n], depth)
      case Err(e) => Err(e)
      case Ok((left, right)) =>
        var (bin', r) := TryAdd(if Bit(cs[n].id, depth) then right else left, cs[n]);
        if r.Err? then Err(r.error)
        else if Bit(cs[n].id, depth) then Ok((left, bin'))
        else Ok((bin', right))
  }

  datatype SplitOutcome = SplitFailed(error: RoutingError) | Halves(left: seq<Contact>, right: seq<Contact>)

  function Split(bin: seq<Contact>, depth: nat): SplitOutcome
  {
    match Refill(bin)
    case Err(e) => SplitFailed(e)
    case Ok(drained) =>
      match Distribute(drained, depth)
      case Err(e) => SplitFailed(e)
      case Ok((left, right)) => Halves(left, right)
  }

  /** A failing split would leave the leaf drained. */
  function AddToLeaf(depth: nat, index: nat, bin: seq<Contact>, c: Contact, total: int, maxSize: nat)
    : (Zone, Result<bool, RoutingError>)
    decreases Max(0, 127 - depth), 1
  {
    var (bin', r) := TryAdd(bin, c);
    if r != Err(TableFull) then (Leaf(depth, index, bin'), r)
    else match SplitDenial(depth, index, total, maxSize)
      case Some(reason) => (Leaf(depth, index, bin), Err(SplitDenied(reason)))
      case None =>
        match Split(bin, depth)
        case SplitFailed(e) => (Leaf(depth, index, []), Err(e))
        case Halves(left, right) => AddToHalves(depth, index, left, right, c, total, maxSize)
  }

  /** The retry on the two fresh child leaves. */
  function AddToHalves(depth: nat, index: nat, left: seq<Contact>, right: seq<Contact>,
                       c: Contact, total: int, maxSize: nat)
    : (Zone, Result<bool, RoutingError>)
    requires depth < 127
    decreases 127 - depth, 0
  {
    var (li, ri) := (ChildZoneIndex(index, false), ChildZoneIndex(index, true));
    if Bit(c.id, depth) then
      var (right', r) := AddToLeaf(depth + 1, ri, right, c, total, maxSize);
      (Branch(depth, index, Leaf(depth + 1, li, left), right'), r)
    else
      var (left', r) := AddToLeaf(depth + 1, li, left, c, total, maxSize);
      (Branch(depth, index, left', Leaf(depth + 1, ri, right)), r)
  }

  function Add(z: Zone, c: Contact, total: int, maxSize: nat): (Zone, Result<bool, RoutingError>)
  {
    match z
    case Leaf(depth, index, bin) => AddToLeaf(depth, index, bin, c, total, maxSize)
    case Branch(depth, _, left, right) =>
      if Bit(c.id, depth) then
        var (right', r) := Add(right, c, total, maxSize);
        (z.(right := right'), r)
      else
        var (left', r) := Add(left, c, total, maxSize);
        (z.(left := left'), r)
  }

  function Remove(z: Zone, id: NodeId): (Zone, Option<Contact>)
  {
    match z
    case Leaf(_, _, bin) =>
      var pos := Position(bin, id);
      (z.(bin := Without(bin, id)), if pos < |bin| then Some(bin[pos]) else None)
    case Branch(depth, _, left, right) =>
      if Bit(id, depth) then
        var (right', r) := Remove(right, id);
        (z.(right := right'), r)
      else
        var (left', r) := Remove(left, id);
        (z.(left := left'), r)
  }

  function Get(z: Zone, id: NodeId): Option<Contact>
  {
    match z
    case Leaf(_, _, bin) =>
      var pos := Position(bin, id);
      if pos < |bin| then Some(bin[pos]) else None
    case Branch(depth, _, left, right) =>
      if Bit(id, depth) then Get(right, id) else Get(left, id)
  }

  function Count(z: Zone): nat
  {
    match z
    case Leaf(_, _, bin) => |bin|
    case Branch(_, _, left, right) => Count(left) + Count(right)
  }

  function LeafCount(z: Zone): nat
  {
    match z
    case Leaf(_, _, _) => 1
    case Branch(_, _, left, right) => LeafCount(left) + LeafCount(right)
  }

  /** The child on `target`'s side of the split, and the other one. */
  function NearChild(z: Zone, target: NodeId): Zone
    requires z.Branch?
  {
    if Bit(target, z.depth) then z.right else z.left
  }

  function FarChild(z: Zone, target: NodeId): Zone
    requires z.Branch?
  {
    if Bit(target, z.depth) then z.left else z.right
  }

  /** Collects into `acc`, nearer half first, and skips the farther half once `n` contacts are held. */
  function Walk(z: Zone, target: NodeId, n: nat, acc: seq<Contact>): seq<Contact>
    decreases z
  {
    if z.Leaf? then acc + z.bin else
      var acc' := Walk(NearChild(z, target), target, n, acc);
      if |acc'| < n then Walk(FarChild(z, target), target, n, acc') else acc'
  }

  // ---- the invariant ------------------------------------------------------------------------

  /** All contacts of the zone by ID. */
  function Index(z: Zone): map<NodeId, Contact>
  {
    match z
    case Leaf(_, _, bin) => BinIndex(bin)
    case Branch(_, _, left, right) => Index(left) + Index(right)
  }

  lemma {:induction false} IndexKeyed(z: Zone)
    ensures forall id :: id in Index(z) ==> Index(z)[id].id == id
  {
    match z
    case Leaf(_, _, bin) => forall id | id in BinIds(bin) ensures BinIndex(bin)[id].id == id { PositionInIds(bin, id); }
    case Branch(_, _, left, right) =>
      IndexKeyed(left);
      IndexKeyed(right);
  }

  ghost predicate LeafOk(depth: nat, index: nat, bin: seq<Contact>, prefix: seq<bool>)
  {
    && depth == |prefix|
    && index == Min(KK, BitsValue(prefix))
    && BinOk(bin)
    && forall id :: id in BinIds(bin) ==> prefix <= IdBits(id)
  }

  /** The zone owns exactly the identifiers that start with `prefix`; only zones below depth 125 ever split. */
  ghost predicate ZoneOk(z: Zone, prefix: seq<bool>)
    decreases z
  {
    match z
    case Leaf(depth, index, bin) => LeafOk(depth, index, bin, prefix)
    case Branch(depth, index, left, right) =>
      && depth == |prefix| <= 124
      && index == Min(KK, BitsValue(prefix))
      && (depth < KBASE || index < KK)
      && ZoneOk(left, prefix + [false])
      && ZoneOk(right, prefix + [true])
  }

  lemma ChildIndexIsPrefixValue(prefix: seq<bool>, b: bool)
    ensures ChildZoneIndex(Min(KK, BitsValue(prefix)), b) == Min(KK, BitsValue(prefix + [b]))
  {
    assert (prefix + [b])[..|prefix|] == prefix;
  }

  lemma {:induction false} IndexUnderPrefix(z: Zone, prefix: seq<bool>)
    requires ZoneOk(z, prefix)
    ensures forall id :: id in Index(z) ==> prefix <= IdBits(id)
  {
    match z
    case Leaf(_, _, _) =>
    case Branch(_, _, left, right) =>
      IndexUnderPrefix(left, prefix + [false]);
      IndexUnderPrefix(right, prefix + [true]);
      assert prefix <= prefix + [false] && prefix <= prefix + [true];
  }

  lemma BranchSides(z: Zone, prefix: seq<bool>)
    requires ZoneOk(z, prefix) && z.Branch?
    ensures forall id :: id in Index(z.left) ==> prefix + [false] <= IdBits(id)
    ensures forall id :: id in Index(z.right) ==> prefix + [true] <= IdBits(id)
    ensures Index(z.left).Keys !! Index(z.right).Keys
  {
    IndexUnderPrefix(z.left, prefix + [false]);
    IndexUnderPrefix(z.right, prefix + [true]);
    forall id | id in Index(z.left) ensures id !in Index(z.right) {
      OtherSide(id, prefix, false);
      if id in Index(z.right) { OtherSide(id, prefix, true); }
    }
  }

  lemma NextBit(id: NodeId, prefix: seq<bool>)
    requires prefix <= IdBits(id) && |prefix| < ID_BITS
    ensures prefix + [Bit(id, |prefix|)] <= IdBits(id)
  {
  }

  lemma OtherSide(id: NodeId, prefix: seq<bool>, b: bool)
    requires prefix + [b] <= IdBits(id)
    ensures |prefix| < ID_BITS && Bit(id, |prefix|) == b
  {
    assert IdBits(id)[|prefix|] == (prefix + [b])[|prefix|];
  }

  lemma {:induction false} CountIsIndexSize(z: Zone, prefix: seq<bool>)
    requires ZoneOk(z, prefix)
    ensures Count(z) == |Index(z)|
  {
    match z
    case Leaf(_, _, bin) =>
      BinIdsCard(bin);
      assert BinIndex(bin).Keys == BinIds(bin);
    case Branch(_, _, left, right) =>
      CountIsIndexSize(left, prefix + [false]);
      CountIsIndexSize(right, prefix + [true]);
      BranchSides(z, prefix);
      DisjointUnionSize(Index(left), Index(right));
  }

  lemma DisjointUnionSize<A, B>(m: map<A, B>, n: map<A, B>)
    requires m.Keys !! n.Keys
    ensures |m + n| == |m| + |n|
  {
    assert (m + n).Keys == m.Keys + n.Keys;
  }

  // ---- lookup and removal -----------------------------------------------------------------------

  ghost function Lookup(m: map<NodeId, Contact>, id: NodeId): Option<Contact>
  {
    if id in m then Some(m[id]) else None
  }

  lemma {:induction false} GetIsLookup(z: Zone, prefix: seq<bool>, id: NodeId)
    requires ZoneOk(z, prefix) && prefix <= IdBits(id)
    ensures Get(z, id) == Lookup(Index(z), id)
  {
    match z
    case Leaf(_, _, bin) => PositionInIds(bin, id);
    case Branch(depth, _, left, right) =>
      NextBit(id, prefix);
      BranchSides(z, prefix);
      if Bit(id, depth) {
        GetIsLookup(right, prefix + [true], id);
        if id in Index(left) { OtherSide(id, prefix, false); }
      } else {
        GetIsLookup(left, prefix + [false], id);
        if id in Index(right) { OtherSide(id, prefix, true); }
      }
  }

  lemma RemoveFromUnion<A, B>(m: map<A, B>, n: map<A, B>, k: A)
    ensures k !in m ==> m + (n - {k}) == (m + n) - {k}
    ensures k !in n ==> (m - {k}) + n == (m + n) - {k}
  {
  }

  lemma {:induction false} RemoveSpec(z: Zone, prefix: seq<bool>, id: NodeId)
    requires ZoneOk(z, prefix) && prefix <= IdBits(id)
    ensures ZoneOk(Remove(z, id).0, prefix)
    ensures Index(Remove(z, id).0) == Index(z) - {id}
    ensures Remove(z, id).1 == Lookup(Index(z), id)
  {
    match z
    case Leaf(_, _, bin) =>
      PositionInIds(bin, id);
      WithoutSpec(bin, id);
      assert BinIds(Without(bin, id)) == BinIndex(Without(bin, id)).Keys;
    case Branch(depth, _, left, right) =>
      NextBit(id, prefix);
      BranchSides(z, prefix);
      RemoveFromUnion(Index(left), Index(right), id);
      if Bit(id, depth) {
        RemoveSpec(right, prefix + [true], id);
        if id in Index(left) { OtherSide(id, prefix, false); }
      } else {
        RemoveSpec(left, prefix + [false], id);
        if id in Index(right) { OtherSide(id, prefix, true); }
      }
  }

  // ---- splitting ------------------------------------------------------------------------------------

  /** The contacts of one side, in their original order. */
  function Side(cs: seq<Contact>, depth: nat, b: bool): seq<Contact>
  {
    if cs == [] then [] else
      var n := |cs| - 1;
      Side(cs[..n], depth, b) + (if Bit(cs[n].id, depth) == b then [cs[n]] else [])
  }

  lemma SideSnoc(cs: seq<Contact>, depth: nat, b: bool)
    requires cs != []
    ensures var (front, c) := (cs[..|cs| - 1], cs[|cs| - 1]);
            Side(cs, depth, b) == Side(front, depth, b) + (if Bit(c.id, depth) == b then [c] else [])
  {
  }

  lemma SideNone(depth: nat, b: bool)
    ensures Side([], depth, b) == []
  {
  }

  lemma {:induction false} SideMembers(cs: seq<Contact>, depth: nat, b: bool)
    ensures forall c :: c in Side(cs, depth, b) <==> c in cs && Bit(c.id, depth) == b
  {
    if cs != [] {
      var n := |cs| - 1;
      SideMembers(cs[..n], depth, b);
      assert forall c :: c in cs <==> c in cs[..n] || c == cs[n];
    }
  }

  lemma BinOkPrefix(cs: seq<Contact>)
    requires BinOk(cs) && cs != []
    ensures BinOk(cs[..|cs| - 1])
  {
    var n := |cs| - 1;
    assert cs == cs[..n] + [cs[n]];
    TryAddAppends(cs[..n], cs[n]);
  }

  lemma {:induction false} SideOk(cs: seq<Contact>, depth: nat, b: bool)
    requires BinOk(cs)
    ensures BinOk(Side(cs, depth, b)) && |Side(cs, depth, b)| <= |cs|
    ensures forall s :: CountSubnet(Side(cs, depth, b), s) <= CountSubnet(cs, s)
  {
    if cs != [] {
      var n := |cs| - 1;
      BinOkPrefix(cs);
      SideOk(cs[..n], depth, b);
      var side := Side(cs[..n], depth, b);
      SideMembers(cs[..n], depth, b);
      forall i | 0 <= i < |side| ensures side[i].id != cs[n].id {
        assert side[i] in cs[..n];
      }
      UniqueSnoc(side, cs[n]);
      assert side + [] == side;
      forall s ensures CountSubnet(Side(cs, depth, b), s) <= CountSubnet(cs, s) {
        CountSubnetSnoc(side, cs[n], s);
      }
    }
  }

  lemma {:induction false} RefillKeeps(cs: seq<Contact>)
    requires BinOk(cs)
    ensures Refill(cs) == Ok(cs)
  {
    if cs != [] {
      var n := |cs| - 1;
      BinOkPrefix(cs);
      RefillKeeps(cs[..n]);
      assert cs == cs[..n] + [cs[n]];
      TryAddAppends(cs[..n], cs[n]);
    }
  }

  lemma {:induction false} DistributeSpec(cs: seq<Contact>, depth: nat)
    requires BinOk(cs)
    ensures Distribute(cs, depth) == Ok((Side(cs, depth, false), Side(cs, depth, true)))
  {
    if cs != [] {
      var n := |cs| - 1;
      BinOkPrefix(cs);
      DistributeSpec(cs[..n], depth);
      var b := Bit(cs[n].id, depth);
      SideOk(cs, depth, b);
      TryAddAppends(Side(cs[..n], depth, b), cs[n]);
      assert Side(cs, depth, !b) == Side(cs[..n], depth, !b);
    }
  }

  /** Splitting a valid leaf never fails; each child receives exactly its contacts, in their old order. */
  lemma SplitSpec(bin: seq<Contact>, depth: nat)
    requires BinOk(bin)
    ensures Split(bin, depth) == Halves(Side(bin, depth, false), Side(bin, depth, true))
    ensures BinOk(Side(bin, depth, false)) && BinOk(Side(bin, depth, true))
    ensures multiset(Side(bin, depth, false)) + multiset(Side(bin, depth, true)) == multiset(bin)
  {
    RefillKeeps(bin);
    DistributeSpec(bin, depth);
    SideOk(bin, depth, false);
    SideOk(bin, depth, true);
    SidesPartition(bin, depth);
  }

  lemma {:induction false} SidesPartition(cs: seq<Contact>, depth: nat)
    ensures multiset(Side(cs, depth, false)) + multiset(Side(cs, depth, true)) == multiset(cs)
  {
    hide Side;
    if cs == [] {
      SideNone(depth, false);
      SideNone(depth, true);
    } else {
      var n := |cs| - 1;
      SidesPartition(cs[..n], depth);
      SideSnoc(cs, depth, false);
      SideSnoc(cs, depth, true);
      assert multiset(cs) == multiset(cs[..n]) + multiset{cs[n]} by { assert cs == cs[..n] + [cs[n]]; }
    }
  }

  lemma SidesIndex(bin: seq<Contact>, depth: nat)
    requires BinOk(bin)
    ensures BinIndex(Side(bin, depth, false)) + BinIndex(Side(bin, depth, true)) == BinIndex(bin)
  {
    var left, right := Side(bin, depth, false), Side(bin, depth, true);
    SideOk(bin, depth, false);
    SideOk(bin, depth, true);
    SideMembers(bin, depth, false);
    SideMembers(bin, depth, true);
    var m := BinIndex(left) + BinIndex(right);
    assert m.Keys == BinIds(left) + BinIds(right) == BinIds(bin);
    forall i | 0 <= i < |bin| ensures m[bin[i].id] == bin[i] {
      var b := Bit(bin[i].id, depth);
      SideLookup(bin, depth, i);
      if !b { forall c | c in right ensures c.id != bin[i].id { } }
    }
    IndexesAgree(bin, m);
  }

  lemma SideLookup(bin: seq<Contact>, depth: nat, i: nat)
    requires BinOk(bin) && i < |bin|
    ensures var side := Side(bin, depth, Bit(bin[i].id, depth));
            bin[i].id in BinIndex(side) && BinIndex(side)[bin[i].id] == bin[i]
  {
    var b := Bit(bin[i].id, depth);
    var side := Side(bin, depth, b);
    SideOk(bin, depth, b);
    SideMembers(bin, depth, b);
    assert bin[i] in side;
    var j :| 0 <= j < |side| && side[j] == bin[i];
    BinIndexAt(side, j);
  }

  /** Ten identifiers cannot share more than 124 leading bits. */
  lemma FullLeafIsShallow(depth: nat, index: nat, bin: seq<Contact>, prefix: seq<bool>)
    requires LeafOk(depth, index, bin, prefix) && |bin| == K && depth <= ID_BITS
    ensures depth <= 124
  {
    BinIdsCard(bin);
    IdsSharingPrefix(BinIds(bin), prefix);
    if depth > 124 { Pow2Monotone(ID_BITS - depth, 3); }
  }

  lemma SplitLeafOk(depth: nat, index: nat, bin: seq<Contact>, prefix: seq<bool>, b: bool)
    requires LeafOk(depth, index, bin, prefix) && depth < ID_BITS
    ensures LeafOk(depth + 1, ChildZoneIndex(index, b), Side(bin, depth, b), prefix + [b])
  {
    ChildIndexIsPrefixValue(prefix, b);
    SideOk(bin, depth, b);
    SideMembers(bin, depth, b);
    forall c | c in Side(bin, depth, b) ensures prefix + [b] <= IdBits(c.id) {
      assert c.id in BinIds(bin);
      NextBit(c.id, prefix);
    }
  }

  // ---- adding ---------------------------------------------------------------------------------------

  /** What an `add` may answer and what it does to the contacts, whatever splits it made on the way. */
  ghost predicate AddOutcome(m: map<NodeId, Contact>, m': map<NodeId, Contact>, r: Result<bool, RoutingError>,
                             c: Contact, total: int, maxSize: nat)
  {
    match r
    case Ok(added) => added == (c.id !in m) && m' == Sighted(m, c)
    case Err(e) =>
      m' == m && match e
                 case SubnetLimitExceeded(scope) => scope == BinLocal
                 case SplitDenied(MaxTableSize) => c.id !in m && total >= maxSize
                 case SplitDenied(ZoneIndexCap) => c.id !in m
                 case _ => false
  }

  lemma UnionOutcome(m: map<NodeId, Contact>, m': map<NodeId, Contact>, other: map<NodeId, Contact>,
                     r: Result<bool, RoutingError>, c: Contact, total: int, maxSize: nat)
    requires AddOutcome(m, m', r, c, total, maxSize) && c.id !in other
    ensures AddOutcome(m + other, m' + other, r, c, total, maxSize)
    ensures AddOutcome(other + m, other + m', r, c, total, maxSize)
  {
    if r.Ok? {
      assert Sighted(m, c) + other == Sighted(m + other, c);
      assert other + Sighted(m, c) == Sighted(other + m, c);
    }
  }

  lemma {:induction false} AddToLeafSpec(depth: nat, index: nat, bin: seq<Contact>, prefix: seq<bool>,
                                         c: Contact, total: int, maxSize: nat)
    requires LeafOk(depth, index, bin, prefix) && prefix <= IdBits(c.id)
    ensures var (z, r) := AddToLeaf(depth, index, bin, c, total, maxSize);
            ZoneOk(z, prefix) && AddOutcome(BinIndex(bin), Index(z), r, c, total, maxSize)
    decreases Max(0, 127 - depth)
  {
    TryAddSpec(bin, c);
    if TryAdd(bin, c).1 == Err(TableFull) {
      FullLeafIsShallow(depth, index, bin, prefix);
      if SplitDenial(depth, index, total, maxSize).None? {
        AddAfterSplit(depth, index, bin, prefix, c, total, maxSize);
      }
    } else {
      TriedLeafOk(depth, index, bin, prefix, c);
    }
  }

  lemma TryAddIds(bin: seq<Contact>, c: Contact)
    requires BinOk(bin)
    ensures BinIds(TryAdd(bin, c).0) <= BinIds(bin) + {c.id}
  {
    hide BinOk, TryAdd, BinIds;
    TryAddSpec(bin, c);
    var bin' := TryAdd(bin, c).0;
    assert BinIds(bin') == BinIndex(bin').Keys && BinIds(bin) == BinIndex(bin).Keys;
  }

  lemma TriedLeafOk(depth: nat, index: nat, bin: seq<Contact>, prefix: seq<bool>, c: Contact)
    requires LeafOk(depth, index, bin, prefix) && prefix <= IdBits(c.id)
    ensures LeafOk(depth, index, TryAdd(bin, c).0, prefix)
  {
    hide BinOk, TryAdd;
    TryAddIds(bin, c);
    LeafBinOk(depth, index, bin, prefix);
    TryAddSpec(bin, c);
  }

  lemma {:induction false} AddAfterSplit(depth: nat, index: nat, bin: seq<Contact>, prefix: seq<bool>,
                                         c: Contact, total: int, maxSize: nat)
    requires LeafOk(depth, index, bin, prefix) && prefix <= IdBits(c.id)
    requires TryAdd(bin, c).1 == Err(TableFull) && depth <= 124
    requires SplitDenial(depth, index, total, maxSize).None?
    ensures var (z, r) := AddToLeaf(depth, index, bin, c, total, maxSize);
            ZoneOk(z, prefix) && AddOutcome(BinIndex(bin), Index(z), r, c, total, maxSize)
    decreases Max(0, 127 - depth), 0
  {
    hide TryAdd, AddToLeaf, Split, LeafOk, Index, BinIndex, AddOutcome, Side, SplitDenial;
    var b := Bit(c.id, depth);
    var (near, far) := (Side(bin, depth, b), Side(bin, depth, !b));
    LeafBinOk(depth, index, bin, prefix);
    SplitLeafOk(depth, index, bin, prefix, b);
    SplitLeafOk(depth, index, bin, prefix, !b);
    NextBit(c.id, prefix);
    AddToLeafSpec(depth + 1, ChildZoneIndex(index, b), near, prefix + [b], c, total, maxSize);
    var (z, r) := AddToLeaf(depth + 1, ChildZoneIndex(index, b), near, c, total, maxSize);
    NotOnTheFarSide(bin, depth, c);
    UnionOutcome(BinIndex(near), Index(z), BinIndex(far), r, c, total, maxSize);
    SidesIndex(bin, depth);
    SplitOutcomeIs(depth, index, bin, prefix, c, total, maxSize);
  }

  lemma NotOnTheFarSide(bin: seq<Contact>, depth: nat, c: Contact)
    ensures c.id !in BinIndex(Side(bin, depth, !Bit(c.id, depth)))
  {
    hide Side;
    SideMembers(bin, depth, !Bit(c.id, depth));
  }

  /** The branch a successful split leaves behind, whatever the retry answered. */
  lemma SplitOutcomeIs(depth: nat, index: nat, bin: seq<Contact>, prefix: seq<bool>,
                       c: Contact, total: int, maxSize: nat)
    requires LeafOk(depth, index, bin, prefix) && TryAdd(bin, c).1 == Err(TableFull) && depth <= 124
    requires SplitDenial(depth, index, total, maxSize).None?
    requires var b := Bit(c.id, depth);
             && ZoneOk(AddToLeaf(depth + 1, ChildZoneIndex(index, b), Side(bin, depth, b), c, total, maxSize).0,
                       prefix + [b])
             && LeafOk(depth + 1, ChildZoneIndex(index, !b), Side(bin, depth, !b), prefix + [!b])
    ensures var b := Bit(c.id, depth);
            var (z, r) := AddToLeaf(depth, index, bin, c, total, maxSize);
            var (inner, r') := AddToLeaf(depth + 1, ChildZoneIndex(index, b), Side(bin, depth, b), c, total, maxSize);
            var far := BinIndex(Side(bin, depth, !b));
            ZoneOk(z, prefix) && r == r' && Index(z) == (if b then far + Index(inner) else Index(inner) + far)
  {
    hide TryAdd, Split, Side, BinOk, ChildZoneIndex, BinIndex;
    LeafBinOk(depth, index, bin, prefix);
    SplitSpec(bin, depth);
    var (left, right) := (Side(bin, depth, false), Side(bin, depth, true));
    assert AddToLeaf(depth, index, bin, c, total, maxSize)
        == AddToHalves(depth, index, left, right, c, total, maxSize);
  }

  /** Every `add` keeps the trie valid; an error leaves all contacts as they were even if leaves have split. */
  lemma {:induction false} AddSpec(z: Zone, prefix: seq<bool>, c: Contact, total: int, maxSize: nat)
    requires ZoneOk(z, prefix) && prefix <= IdBits(c.id)
    ensures var (z', r) := Add(z, c, total, maxSize);
            ZoneOk(z', prefix) && AddOutcome(Index(z), Index(z'), r, c, total, maxSize)
  {
    match z
    case Leaf(depth, index, bin) => AddToLeafSpec(depth, index, bin, prefix, c, total, maxSize);
    case Branch(depth, _, left, right) =>
      NextBit(c.id, prefix);
      BranchSides(z, prefix);
      if Bit(c.id, depth) {
        AddSpec(right, prefix + [true], c, total, maxSize);
        if c.id in Index(left) { OtherSide(c.id, prefix, false); }
        var t := Add(right, c, total, maxSize);
        UnionOutcome(Index(right), Index(t.0), Index(left), t.1, c, total, maxSize);
      } else {
        AddSpec(left, prefix + [false], c, total, maxSize);
        if c.id in Index(right) { OtherSide(c.id, prefix, true); }
        var t := Add(left, c, total, maxSize);
        UnionOutcome(Index(left), Index(t.0), Index(right), t.1, c, total, maxSize);
      }
  }

  // ---- refusals -------------------------------------------------------------------------------------

  /** The leaf on the path of `id`. */
  function LeafFor(z: Zone, id: NodeId): Zone
  {
    match z
    case Leaf(_, _, _) => z
    case Branch(depth, _, left, right) => LeafFor(if Bit(id, depth) then right else left, id)
  }

  /** The bin already holds its share of other contacts of this non-LAN /24. */
  predicate Crowded(bin: seq<Contact>, c: Contact)
  {
    !IsLan(c.ip) && CountSubnet(Without(bin, c.id), Subnet24(c.ip)) >= MAX_PER_BIN_SUBNET24
  }

  /** What the leaf on the contact's path must look like for the refusal to be due. */
  ghost predicate Justifies(leaf: Zone, e: RoutingError, c: Contact, total: int, maxSize: nat)
  {
    && leaf.Leaf? && leaf.depth <= ID_BITS
    && match e
       case SubnetLimitExceeded(_) => Crowded(leaf.bin, c)
       case SplitDenied(MaxTableSize) => |leaf.bin| == K && !Crowded(leaf.bin, c) && total >= maxSize
       case SplitDenied(ZoneIndexCap) =>
         && |leaf.bin| == K && !Crowded(leaf.bin, c) && total < maxSize
         && leaf.depth >= KBASE && BitsValue(IdBits(c.id)[..leaf.depth]) >= KK
       case _ => false
  }

  lemma {:induction false} LeafRefusal(depth: nat, index: nat, bin: seq<Contact>, prefix: seq<bool>,
                                       c: Contact, total: int, maxSize: nat)
    requires LeafOk(depth, index, bin, prefix) && prefix <= IdBits(c.id)
    ensures var (z, r) := AddToLeaf(depth, index, bin, c, total, maxSize);
            r.Err? ==> Justifies(LeafFor(z, c.id), r.error, c, total, maxSize)
    decreases Max(0, 127 - depth)
  {
    hide LeafFor, CountSubnet, Without, Refill, Distribute;
    TryAddSpec(bin, c);
    assert prefix == IdBits(c.id)[..depth];
    if TryAdd(bin, c).1 == Err(TableFull) {
      FullLeafIsShallow(depth, index, bin, prefix);
      if SplitDenial(depth, index, total, maxSize).None? {
        SplitRefusal(depth, index, bin, prefix, c, total, maxSize);
      } else {
        LeafOfLeaf(depth, index, bin, c.id);
      }
    } else {
      LeafOfLeaf(depth, index, TryAdd(bin, c).0, c.id);
    }
  }

  lemma LeafOfLeaf(depth: nat, index: nat, bin: seq<Contact>, id: NodeId)
    ensures LeafFor(Leaf(depth, index, bin), id) == Leaf(depth, index, bin)
  {
  }

  lemma {:induction false} SplitRefusal(depth: nat, index: nat, bin: seq<Contact>, prefix: seq<bool>,
                                        c: Contact, total: int, maxSize: nat)
    requires LeafOk(depth, index, bin, prefix) && prefix <= IdBits(c.id)
    requires TryAdd(bin, c).1 == Err(TableFull) && depth <= 124
    requires SplitDenial(depth, index, total, maxSize).None?
    ensures var (z, r) := AddToLeaf(depth, index, bin, c, total, maxSize);
            r.Err? ==> Justifies(LeafFor(z, c.id), r.error, c, total, maxSize)
    decreases Max(0, 127 - depth), 0
  {
    hide Justifies, TryAdd, AddToLeaf, LeafFor, LeafOk;
    var b := Bit(c.id, depth);
    LeafBinOk(depth, index, bin, prefix);
    SplitStep(depth, index, bin, c, total, maxSize);
    SplitLeafOk(depth, index, bin, prefix, b);
    NextBit(c.id, prefix);
    LeafRefusal(depth + 1, ChildZoneIndex(index, b), Side(bin, depth, b), prefix + [b], c, total, maxSize);
  }

  /** After a split the outcome is that of the child on the contact's path. */
  lemma SplitStep(depth: nat, index: nat, bin: seq<Contact>, c: Contact, total: int, maxSize: nat)
    requires BinOk(bin) && TryAdd(bin, c).1 == Err(TableFull) && SplitDenial(depth, index, total, maxSize).None?
    ensures var b := Bit(c.id, depth);
            var (outer, r) := AddToLeaf(depth, index, bin, c, total, maxSize);
            var (inner, r') := AddToLeaf(depth + 1, ChildZoneIndex(index, b), Side(bin, depth, b), c, total, maxSize);
            r == r' && LeafFor(outer, c.id) == LeafFor(inner, c.id)
  {
    hide TryAdd, Split, Side, BinOk, ChildZoneIndex;
    SplitSpec(bin, depth);
    var (left, right) := (Side(bin, depth, false), Side(bin, depth, true));
    assert AddToLeaf(depth, index, bin, c, total, maxSize)
        == AddToHalves(depth, index, left, right, c, total, maxSize);
    HalvesStep(depth, index, left, right, c, total, maxSize);
  }

  lemma HalvesStep(depth: nat, index: nat, left: seq<Contact>, right: seq<Contact>,
                   c: Contact, total: int, maxSize: nat)
    requires depth < 127
    ensures var b := Bit(c.id, depth);
            var (outer, r) := AddToHalves(depth, index, left, right, c, total, maxSize);
            var half := if b then right else left;
            var (inner, r') := AddToLeaf(depth + 1, ChildZoneIndex(index, b), half, c, total, maxSize);
            r == r' && LeafFor(outer, c.id) == LeafFor(inner, c.id)
  {
    hide AddToLeaf, ChildZoneIndex;
  }

  lemma LeafBinOk(depth: nat, index: nat, bin: seq<Contact>, prefix: seq<bool>)
    requires LeafOk(depth, index, bin, prefix)
    ensures BinOk(bin) && |prefix| == depth
  {
  }

  /** `add` refuses only with good reason: the leaf it ends in is full and may not split, or its /24 is crowded. */
  lemma {:induction false} RefusalsAreDue(z: Zone, prefix: seq<bool>, c: Contact, total: int, maxSize: nat)
    requires ZoneOk(z, prefix) && prefix <= IdBits(c.id)
    ensures var (z', r) := Add(z, c, total, maxSize);
            r.Err? ==> Justifies(LeafFor(z', c.id), r.error, c, total, maxSize)
  {
    hide Justifies, AddToLeaf;
    match z
    case Leaf(depth, index, bin) => LeafRefusal(depth, index, bin, prefix, c, total, maxSize);
    case Branch(depth, _, left, right) =>
      NextBit(c.id, prefix);
      if Bit(c.id, depth) {
        RefusalsAreDue(right, prefix + [true], c, total, maxSize);
      } else {
        RefusalsAreDue(left, prefix + [false], c, total, maxSize);
      }
  }

  // ---- the answer of `add`, foretold -------------------------------------------------------------------

  /** All the contacts share with `c` the bits down to a depth where splitting is no longer allowed. */
  ghost predicate Stuck(depth: nat, bin: seq<Contact>, c: Contact)
  {
    exists d :: depth <= d <= ID_BITS && StuckAt(d, bin, c)
  }

  ghost predicate StuckAt(d: nat, bin: seq<Contact>, c: Contact)
    requires d <= ID_BITS
  {
    && d >= KBASE && BitsValue(IdBits(c.id)[..d]) >= KK
    && forall x :: x in bin ==> IdBits(x.id)[..d] == IdBits(c.id)[..d]
  }

  /** How a leaf will answer `add`, read off the leaf before the call. */
  ghost function Refusal(depth: nat, bin: seq<Contact>, c: Contact, total: int, maxSize: nat): Option<RoutingError>
  {
    if Crowded(bin, c) then Some(SubnetLimitExceeded(BinLocal))
    else if |bin| < K || c.id in BinIds(bin) then None
    else if total >= maxSize then Some(SplitDenied(MaxTableSize))
    else if Stuck(depth, bin, c) then Some(SplitDenied(ZoneIndexCap))
    else None
  }

  function RefusalOf(r: Result<bool, RoutingError>): Option<RoutingError>
  {
    if r.Err? then Some(r.error) else None
  }

  lemma TryAddRefusal(bin: seq<Contact>, c: Contact)
    ensures TryAdd(bin, c).1 == Err(SubnetLimitExceeded(BinLocal)) <==> Crowded(bin, c)
    ensures TryAdd(bin, c).1 == Err(TableFull) <==> !Crowded(bin, c) && |bin| >= K && c.id !in BinIds(bin)
    ensures TryAdd(bin, c).1.Err? ==> TryAdd(bin, c).1.error in {SubnetLimitExceeded(BinLocal), TableFull}
  {
    hide CountSubnet, BinIds;
    PositionInIds(bin, c.id);
  }

  lemma {:induction false} LeafAnswer(depth: nat, index: nat, bin: seq<Contact>, prefix: seq<bool>,
                                      c: Contact, total: int, maxSize: nat)
    requires LeafOk(depth, index, bin, prefix) && prefix <= IdBits(c.id)
    ensures RefusalOf(AddToLeaf(depth, index, bin, c, total, maxSize).1) == Refusal(depth, bin, c, total, maxSize)
    decreases Max(0, 127 - depth)
  {
    hide TryAdd, Crowded, BinIds, Split, AddToHalves, Stuck;
    TryAddRefusal(bin, c);
    if TryAdd(bin, c).1 == Err(TableFull) {
      LeafBinOk(depth, index, bin, prefix);
      FullLeafIsShallow(depth, index, bin, prefix);
      if SplitDenial(depth, index, total, maxSize).None? {
        SplitAnswer(depth, index, bin, prefix, c, total, maxSize);
      } else if total < maxSize {
        StuckHere(depth, index, bin, prefix, c);
      }
    }
  }

  lemma StuckHere(depth: nat, index: nat, bin: seq<Contact>, prefix: seq<bool>, c: Contact)
    requires LeafOk(depth, index, bin, prefix) && prefix <= IdBits(c.id) && depth >= KBASE && index >= KK
    ensures Stuck(depth, bin, c)
  {
    assert IdBits(c.id)[..depth] == prefix;
    forall x | x in bin ensures IdBits(x.id)[..depth] == prefix { assert x.id in BinIds(bin); }
    assert StuckAt(depth, bin, c);
  }

  lemma {:induction false} SplitAnswer(depth: nat, index: nat, bin: seq<Contact>, prefix: seq<bool>,
                                       c: Contact, total: int, maxSize: nat)
    requires LeafOk(depth, index, bin, prefix) && prefix <= IdBits(c.id)
    requires TryAdd(bin, c).1 == Err(TableFull) && depth <= 124
    requires SplitDenial(depth, index, total, maxSize).None?
    ensures RefusalOf(AddToLeaf(depth, index, bin, c, total, maxSize).1) == Refusal(depth, bin, c, total, maxSize)
    decreases Max(0, 127 - depth), 0
  {
    hide TryAdd, AddToLeaf, LeafFor, LeafOk, Crowded, Stuck, BinIds, Side;
    var b := Bit(c.id, depth);
    var side := Side(bin, depth, b);
    TryAddRefusal(bin, c);
    LeafBinOk(depth, index, bin, prefix);
    SplitStep(depth, index, bin, c, total, maxSize);
    SplitLeafOk(depth, index, bin, prefix, b);
    NextBit(c.id, prefix);
    LeafAnswer(depth + 1, ChildZoneIndex(index, b), side, prefix + [b], c, total, maxSize);
    SideRefusal(bin, depth, c);
    MayNotBeStuck(depth, index, bin, prefix, c);
    StuckBelow(depth, bin, prefix, c);
  }

  /** The child has no more of anything than its parent had. */
  lemma SideRefusal(bin: seq<Contact>, depth: nat, c: Contact)
    requires BinOk(bin) && c.id !in BinIds(bin) && !Crowded(bin, c)
    ensures var side := Side(bin, depth, Bit(c.id, depth));
            |side| <= |bin| && c.id !in BinIds(side) && !Crowded(side, c)
  {
    hide CountSubnet, Side, BinOk;
    var b := Bit(c.id, depth);
    SideOk(bin, depth, b);
    SideMembers(bin, depth, b);
    PositionInIds(bin, c.id);
    PositionInIds(Side(bin, depth, b), c.id);
  }

  /** A leaf that may split is not stuck at its own depth. */
  lemma MayNotBeStuck(depth: nat, index: nat, bin: seq<Contact>, prefix: seq<bool>, c: Contact)
    requires LeafOk(depth, index, bin, prefix) && prefix <= IdBits(c.id) && (depth < KBASE || index < KK)
    ensures depth <= ID_BITS && !StuckAt(depth, bin, c)
  {
    assert IdBits(c.id)[..depth] == prefix;
  }

  /** Stuck further down means that every contact goes the way of `c`, and the child is stuck. */
  lemma StuckBelow(depth: nat, bin: seq<Contact>, prefix: seq<bool>, c: Contact)
    requires depth < ID_BITS && !StuckAt(depth, bin, c)
    ensures var side := Side(bin, depth, Bit(c.id, depth));
            Stuck(depth, bin, c) <==> |side| >= |bin| && Stuck(depth + 1, side, c)
  {
    hide StuckAt, Side;
    var b := Bit(c.id, depth);
    var side := Side(bin, depth, b);
    SideMembers(bin, depth, b);
    if Stuck(depth, bin, c) {
      var d :| depth <= d <= ID_BITS && StuckAt(d, bin, c);
      StuckShares(d, depth, bin, c);
      WholeSide(bin, depth, b);
    }
    if |side| >= |bin| && Stuck(depth + 1, side, c) {
      WholeSide(bin, depth, b);
      var d :| depth + 1 <= d <= ID_BITS && StuckAt(d, side, c);
      assert StuckAt(d, bin, c);
    }
  }

  lemma StuckShares(d: nat, depth: nat, bin: seq<Contact>, c: Contact)
    requires depth < d <= ID_BITS && StuckAt(d, bin, c)
    ensures forall x :: x in bin ==> Bit(x.id, depth) == Bit(c.id, depth)
  {
    forall x | x in bin ensures Bit(x.id, depth) == Bit(c.id, depth) {
      assert IdBits(x.id)[..d][depth] == IdBits(c.id)[..d][depth];
    }
  }

  /** A side is the whole bin exactly when every contact is on it. */
  lemma {:induction false} WholeSide(bin: seq<Contact>, depth: nat, b: bool)
    ensures |Side(bin, depth, b)| <= |bin|
    ensures |Side(bin, depth, b)| == |bin| <==> forall x :: x in bin ==> Bit(x.id, depth) == b
    ensures |Side(bin, depth, b)| == |bin| ==> Side(bin, depth, b) == bin
  {
    hide Side;
    if bin == [] {
      SideNone(depth, b);
    } else {
      var n := |bin| - 1;
      WholeSide(bin[..n], depth, b);
      SideSnoc(bin, depth, b);
      assert bin == bin[..n] + [bin[n]];
      assert forall x :: x in bin <==> x in bin[..n] || x == bin[n];
    }
  }

  /** The whole answer of `add` in terms of the leaf the contact belongs to before the call: refused for its /24
      exactly when the leaf is crowded, for the table size exactly when the leaf is full and the table too, and by
      the index rule exactly when ten contacts share the path down to a zone that may not split. */
  lemma {:induction false} RefusalIff(z: Zone, prefix: seq<bool>, c: Contact, total: int, maxSize: nat)
    requires ZoneOk(z, prefix) && prefix <= IdBits(c.id)
    ensures var leaf := LeafFor(z, c.id);
            leaf.Leaf? && RefusalOf(Add(z, c, total, maxSize).1) == Refusal(leaf.depth, leaf.bin, c, total, maxSize)
  {
    hide Refusal, AddToLeaf, LeafOk;
    match z
    case Leaf(depth, index, bin) => LeafAnswer(depth, index, bin, prefix, c, total, maxSize);
    case Branch(depth, _, left, right) =>
      NextBit(c.id, prefix);
      if Bit(c.id, depth) {
        RefusalIff(right, prefix + [true], c, total, maxSize);
      } else {
        RefusalIff(left, prefix + [false], c, total, maxSize);
      }
  }
}
