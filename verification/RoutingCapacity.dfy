/** How large the trie can grow, whatever contacts arrive. */
module Capacity {
  import opened Bits
  import opened NodeIds
  import opened Contacts
  import opened Bins
  import opened Zones

  const MAX_LEAVES := 621
  const MAX_CONTACTS := 6190

  predicate MaySplit(depth: nat, index: nat) { depth <= 124 && (depth < KBASE || index < KK) }

  /** Leaves below a zone that splits wherever it may. From depth 4 on only the five lowest-numbered
      zones of each level split, so each level adds five leaves. */
  function LeafLimit(depth: nat, index: nat): nat
  {
    if depth == 0 then (if index == 0 then MAX_LEAVES else 16)
    else if depth == 1 then (if index == 0 then 613 else 8)
    else if depth == 2 then (if index == 0 then 608 else if index == 1 then 5 else 4)
    else if depth == 3 then (if index == 0 then 603 else if index == 1 then 5 else if index == 2 then 3 else 2)
    else if depth >= 125 || index >= 5 then 1
    else if index >= 3 then 2
    else if index == 2 then (if depth == 124 then 2 else 3)
    else if index == 1 then (if depth == 124 then 2 else if depth == 123 then 4 else 5)
    else if depth == 124 then 2
    else if depth == 123 then 4
    else 8 + 5 * (122 - depth)
  }

  /** Contacts below such a zone when every leaf is as full as its prefix allows. */
  function ContactLimit(depth: nat, index: nat): nat
  {
    if depth == 0 then (if index == 0 then MAX_CONTACTS else 160)
    else if depth == 1 then (if index == 0 then 6110 else 80)
    else if depth == 2 then (if index == 0 then 6060 else if index == 1 then 50 else 40)
    else if depth == 3 then (if index == 0 then 6010 else if index == 1 then 50 else if index == 2 then 30 else 20)
    else if depth >= 125 then 8
    else if index >= 5 then K
    else if depth == 124 then 16
    else if index >= 3 then 20
    else if index == 2 then (if depth == 123 then 26 else 30)
    else if index == 1 then (if depth == 123 then 32 else if depth == 122 then 46 else 50)
    else if depth == 123 then 32
    else if depth == 122 then 64
    else 110 + 50 * (121 - depth)
  }

  /** A zone's limits are the sums over the two children it may split into. */
  lemma LimitsAddUp(depth: nat, index: nat)
    requires MaySplit(depth, index) && (depth == 0 ==> index == 0) && (depth == 1 ==> index <= 1)
    ensures LeafLimit(depth, index)
            == LeafLimit(depth + 1, ChildZoneIndex(index, false)) + LeafLimit(depth + 1, ChildZoneIndex(index, true))
    ensures ContactLimit(depth, index)
            == ContactLimit(depth + 1, ChildZoneIndex(index, false))
               + ContactLimit(depth + 1, ChildZoneIndex(index, true))
  {
  }

  lemma DeepLeafHoldsEight(depth: nat, index: nat, bin: seq<Contact>, prefix: seq<bool>)
    requires LeafOk(depth, index, bin, prefix) && depth == 125
    ensures |bin| <= 8
  {
    BinIdsCard(bin);
    IdsSharingPrefix(BinIds(bin), prefix);
    assert Pow2(3) == 8;
  }

  lemma SmallPrefixValue(prefix: seq<bool>)
    ensures |prefix| == 0 ==> BitsValue(prefix) == 0
    ensures |prefix| == 1 ==> BitsValue(prefix) <= 1
  {
    if |prefix| == 1 { assert BitsValue(prefix[..0]) == 0; }
  }

  lemma LeafWithinLimits(depth: nat, index: nat, bin: seq<Contact>, prefix: seq<bool>)
    requires LeafOk(depth, index, bin, prefix) && depth <= 125
    ensures 1 <= LeafLimit(depth, index) && |bin| <= ContactLimit(depth, index)
  {
    if depth == 125 { DeepLeafHoldsEight(depth, index, bin, prefix); }
  }

  lemma ChildPlaces(z: Zone, prefix: seq<bool>)
    requires ZoneOk(z, prefix) && z.Branch?
    ensures z.left.depth == z.depth + 1 == z.right.depth
    ensures z.left.index == ChildZoneIndex(z.index, false) && z.right.index == ChildZoneIndex(z.index, true)
    ensures MaySplit(z.depth, z.index) && (z.depth == 0 ==> z.index == 0) && (z.depth == 1 ==> z.index <= 1)
  {
    ChildIndexIsPrefixValue(prefix, false);
    ChildIndexIsPrefixValue(prefix, true);
    SmallPrefixValue(prefix);
  }

  lemma {:induction false} LimitsBound(z: Zone, prefix: seq<bool>)
    requires ZoneOk(z, prefix) && z.depth <= 125
    ensures LeafCount(z) <= LeafLimit(z.depth, z.index)
    ensures Count(z) <= ContactLimit(z.depth, z.index)
  {
    match z
    case Leaf(depth, index, bin) => LeafWithinLimits(depth, index, bin, prefix);
    case Branch(depth, index, left, right) =>
      ChildPlaces(z, prefix);
      LimitsBound(left, prefix + [false]);
      LimitsBound(right, prefix + [true]);
      LimitsAddUp(depth, index);
  }

  /** No valid trie has more than 621 leaves or 6,190 contacts. */
  lemma TrieIsBounded(z: Zone)
    requires ZoneOk(z, [])
    ensures LeafCount(z) <= MAX_LEAVES
    ensures |Index(z)| == Count(z) <= MAX_CONTACTS
  {
    LimitsBound(z, []);
    CountIsIndexSize(z, []);
  }
}
