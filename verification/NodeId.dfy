/** Binary expansions of natural numbers, as the shift and XOR operators see them. */
module Bits {
  import opened Common

  function Pow2(n: nat): (r: nat)
    ensures r >= 1
  {
    if n == 0 then 1 else 2 * Pow2(n - 1)
  }

  /** `x >> k` */
  function Shr(x: nat, k: nat): nat
  {
    if k == 0 then x else Shr(x / 2, k - 1)
  }

  /** `(x >> k) & 1 == 1` */
  predicate BitAt(x: nat, k: nat)
  {
    Shr(x, k) % 2 == 1
  }

  /** `a ^ b` */
  function Xor(a: nat, b: nat): nat
    decreases a + b
  {
    if a == 0 && b == 0 then 0
    else (if a % 2 != b % 2 then 1 else 0) + 2 * Xor(a / 2, b / 2)
  }

  /** `x.leading_zeros()` for a `w`-bit word */
  function LeadingZeros(x: nat, w: nat): nat
  {
    if w == 0 || BitAt(x, w - 1) then 0 else 1 + LeadingZeros(x, w - 1)
  }

  /** The `w` low bits of `x`, most significant first. */
  function WordBits(x: nat, w: nat): (r: seq<bool>)
    ensures |r| == w
  {
    if w == 0 then [] else WordBits(x / 2, w - 1) + [x % 2 == 1]
  }

  /** The number a most-significant-first bit string spells. */
  function BitsValue(s: seq<bool>): nat
  {
    if s == [] then 0 else 2 * BitsValue(s[..|s| - 1]) + (if s[|s| - 1] then 1 else 0)
  }

  lemma {:induction false} Pow2Add(a: nat, b: nat)
    ensures Pow2(a + b) == Pow2(a) * Pow2(b)
  {
    if a != 0 {
      Pow2Add(a - 1, b);
      assert 2 * (Pow2(a - 1) * Pow2(b)) == (2 * Pow2(a - 1)) * Pow2(b);
    }
  }

  lemma {:induction false} Pow2Monotone(a: nat, b: nat)
    requires a <= b
    ensures Pow2(a) <= Pow2(b)
  {
    if a < b { Pow2Monotone(a, b - 1); }
  }

  lemma Pow2Words()
    ensures Pow2(8) == 256 && Pow2(32) == 0x1_0000_0000
  {
    assert Pow2(4) == 16;
    Pow2Add(4, 4);
    Pow2Add(8, 8);
    Pow2Add(16, 16);
  }

  lemma {:induction false} XorBound(a: nat, b: nat, w: nat)
    requires a < Pow2(w) && b < Pow2(w)
    ensures Xor(a, b) < Pow2(w)
  {
    if w != 0 { XorBound(a / 2, b / 2, w - 1); }
  }

  lemma {:induction false} XorBit(a: nat, b: nat, k: nat)
    ensures BitAt(Xor(a, b), k) == (BitAt(a, k) != BitAt(b, k))
  {
    if k == 0 {
    } else {
      assert Xor(a, b) / 2 == Xor(a / 2, b / 2);
      XorBit(a / 2, b / 2, k - 1);
    }
  }

  /** `x << n` without a width */
  function Shl(x: nat, n: nat): nat
  {
    if n == 0 then x else 2 * Shl(x, n - 1)
  }

  lemma ShlWords(x: nat)
    ensures Shl(x, 8) == 256 * x && Shl(x, 32) == 0x1_0000_0000 * x
  {
    ShlByte(x, 8);
    ShlByte(x, 16);
    ShlByte(x, 24);
    ShlByte(x, 32);
  }

  lemma ShlByte(x: nat, n: nat)
    requires n >= 8
    ensures Shl(x, n) == 256 * Shl(x, n - 8)
  {
    assert Shl(x, n - 4) == 16 * Shl(x, n - 8) by {
      assert Shl(x, n - 6) == 4 * Shl(x, n - 8);
    }
    assert Shl(x, n - 2) == 4 * Shl(x, n - 4);
  }

  /** A byte glued below a number keeps both expansions. */
  lemma GluedByteBit(lo: nat, hi: nat, k: nat)
    requires lo < 256
    ensures BitAt(lo + 256 * hi, k) == if k < 8 then BitAt(lo, k) else BitAt(hi, k - 8)
  {
    Pow2Words();
    ShlWords(hi);
    GluedBit(hi, lo, 8, k);
  }

  lemma {:induction false} GluedBit(hi: nat, lo: nat, w: nat, k: nat)
    requires lo < Pow2(w)
    ensures BitAt(Shl(hi, w) + lo, k) == if k < w then BitAt(lo, k) else BitAt(hi, k - w)
  {
    if w != 0 && k != 0 { GluedBit(hi, lo / 2, w - 1, k - 1); }
  }

  lemma {:induction false} WordBitsValue(x: nat, w: nat)
    requires x < Pow2(w)
    ensures BitsValue(WordBits(x, w)) == x
  {
    if w != 0 {
      WordBitsValue(x / 2, w - 1);
      assert WordBits(x, w)[..w - 1] == WordBits(x / 2, w - 1);
    }
  }

  lemma {:induction false} WordBitsAt(x: nat, w: nat, k: nat)
    requires k < w
    ensures WordBits(x, w)[k] == BitAt(x, w - 1 - k)
  {
    if k < w - 1 { WordBitsAt(x / 2, w - 1, k); }
  }

  lemma {:induction false} BitsValueAppend(a: seq<bool>, b: seq<bool>)
    ensures BitsValue(a + b) == Shl(BitsValue(a), |b|) + BitsValue(b)
  {
    if b == [] {
      assert a + b == a;
    } else {
      var b' := b[..|b| - 1];
      assert (a + b)[..|a + b| - 1] == a + b';
      BitsValueAppend(a, b');
    }
  }

  /** The first differing bit decides the order. */
  lemma {:induction false} FirstDifferenceDecides(x: seq<bool>, y: seq<bool>, d: nat)
    requires |x| == |y| && d < |x| && x[..d] == y[..d] && !x[d] && y[d]
    ensures BitsValue(x) < BitsValue(y)
  {
    var n := |x| - 1;
    if d == n {
    } else {
      assert x[..n][..d] == x[..d] && y[..n][..d] == y[..d];
      FirstDifferenceDecides(x[..n], y[..n], d);
    }
  }

  lemma {:induction false} BitsValueInjective(x: seq<bool>, y: seq<bool>)
    requires |x| == |y| && BitsValue(x) == BitsValue(y)
    ensures x == y
  {
    if x != [] {
      var n := |x| - 1;
      BitsValueInjective(x[..n], y[..n]);
      assert x == x[..n] + [x[n]] && y == y[..n] + [y[n]];
    }
  }

  /** At most `2^(n-d)` bit strings of length `n` share a prefix of length `d`. */
  lemma {:induction false} PrefixClassBound(strings: set<seq<bool>>, n: nat, prefix: seq<bool>)
    requires |prefix| <= n
    requires forall s :: s in strings ==> |s| == n && prefix <= s
    ensures |strings| <= Pow2(n - |prefix|)
    decreases n - |prefix|
  {
    if |prefix| == n {
      forall s | s in strings ensures s == prefix { }
      assert strings <= {prefix};
      SubsetCard(strings, {prefix});
    } else {
      var ones := set s | s in strings && s[|prefix|];
      var zeros := strings - ones;
      PrefixClassBound(ones, n, prefix + [true]);
      PrefixClassBound(zeros, n, prefix + [false]);
      assert strings == ones + zeros;
    }
  }

  lemma {:induction false} LeadingZerosFindsTop(x: nat, w: nat)
    requires x < Pow2(w)
    ensures LeadingZeros(x, w) <= w
    ensures forall j :: w - LeadingZeros(x, w) <= j < w ==> !BitAt(x, j)
    ensures LeadingZeros(x, w) < w ==> BitAt(x, w - 1 - LeadingZeros(x, w))
    ensures x != 0 <==> LeadingZeros(x, w) < w
  {
    if w == 0 {
    } else if BitAt(x, w - 1) {
      BitOfZero(w - 1);
    } else {
      TopBitClear(x, w);
      LeadingZerosFindsTop(x, w - 1);
    }
  }

  lemma {:induction false} BitOfZero(k: nat)
    ensures !BitAt(0, k)
  {
    if k != 0 { BitOfZero(k - 1); }
  }

  lemma {:induction false} TopBitClear(x: nat, w: nat)
    requires w > 0 && x < Pow2(w) && !BitAt(x, w - 1)
    ensures x < Pow2(w - 1)
  {
    if w > 1 { TopBitClear(x / 2, w - 1); }
  }
}

/** Kad node identifiers: `crates/overlord-kad-proto/src/node_id.rs`. */
module NodeIds {
  import opened Common
  import opened Bits

  const ID_BITS := 128

  /** Sixteen bytes in the wire layout: four 32-bit chunks, each little-endian. */
  datatype NodeId = NodeId(bytes: Bytes16)

  datatype Ordering = Less | Equal | Greater

  function CompareNat(a: nat, b: nat): Ordering
  {
    if a < b then Less else if a == b then Equal else Greater
  }

  function FromLeBytes(b0: byte, b1: byte, b2: byte, b3: byte): (r: nat)
    ensures r < 0x1_0000_0000
  {
    b0 + 256 * (b1 + 256 * (b2 + 256 * b3))
  }

  function ChunkU32(id: NodeId, index: nat): (r: nat)
    requires index < 4
    ensures r < 0x1_0000_0000
  {
    FromLeBytes(id.bytes[4 * index], id.bytes[4 * index + 1], id.bytes[4 * index + 2], id.bytes[4 * index + 3])
  }

  predicate Bit(id: NodeId, pos: nat)
  {
    pos / 32 < 4 && BitAt(ChunkU32(id, pos / 32), 31 - pos % 32)
  }

  function XorByte(a: byte, b: byte): byte
  {
    Pow2Words();
    XorBound(a, b, 8);
    Xor(a, b)
  }

  function Distance(a: NodeId, b: NodeId): NodeId
  {
    NodeId(seq(16, i requires 0 <= i < 16 => XorByte(a.bytes[i], b.bytes[i])))
  }

  function CmpFrom(a: NodeId, b: NodeId, chunk: nat): Ordering
    requires chunk <= 4
    decreases 4 - chunk
  {
    if chunk == 4 then Equal
    else if ChunkU32(a, chunk) != ChunkU32(b, chunk) then CompareNat(ChunkU32(a, chunk), ChunkU32(b, chunk))
    else CmpFrom(a, b, chunk + 1)
  }

  function Cmp(a: NodeId, b: NodeId): Ordering { CmpFrom(a, b, 0) }

  /** All identifier bits in the order `bit(0)`, `bit(1)`, ... */
  function IdBits(id: NodeId): (r: seq<bool>)
    ensures |r| == ID_BITS
  {
    seq(ID_BITS, p requires 0 <= p < ID_BITS => Bit(id, p))
  }

  /** The identifier read as one 128-bit number. */
  function Value(id: NodeId): nat { BitsValue(IdBits(id)) }

  /** XOR distance as a number; every nearest-first order in Kad is the order of this value. */
  function Dist(target: NodeId, id: NodeId): nat { Value(Distance(id, target)) }

  // ---- the byte layout against the bit view ------------------------------------------

  lemma ChunkBit(b0: byte, b1: byte, b2: byte, b3: byte, k: nat)
    requires k < 32
    ensures BitAt(FromLeBytes(b0, b1, b2, b3), k)
            == BitAt(if k < 8 then b0 else if k < 16 then b1 else if k < 24 then b2 else b3, k % 8)
  {
    var x2: nat := b2 + 256 * b3;
    var x1: nat := b1 + 256 * x2;
    GluedByteBit(b0, x1, k);
    if k >= 8 { GluedByteBit(b1, x2, k - 8); }
    if k >= 16 { GluedByteBit(b2, b3, k - 16); }
  }

  lemma BitIsByteBit(id: NodeId, pos: nat)
    requires pos < ID_BITS
    ensures Bit(id, pos) == BitAt(id.bytes[4 * (pos / 32) + (31 - pos % 32) / 8], (31 - pos % 32) % 8)
  {
    var c := 4 * (pos / 32);
    var k := 31 - pos % 32;
    ChunkBit(id.bytes[c], id.bytes[c + 1], id.bytes[c + 2], id.bytes[c + 3], k);
    assert k / 8 == if k < 8 then 0 else if k < 16 then 1 else if k < 24 then 2 else 3;
  }

  /** XOR of the raw bytes is XOR of every identifier bit, despite the swapped chunks. */
  lemma DistanceBit(a: NodeId, b: NodeId, pos: nat)
    ensures Bit(Distance(a, b), pos) == (Bit(a, pos) != Bit(b, pos))
  {
    if pos < ID_BITS {
      BitIsByteBit(a, pos);
      BitIsByteBit(b, pos);
      BitIsByteBit(Distance(a, b), pos);
      var i := 4 * (pos / 32) + (31 - pos % 32) / 8;
      XorBit(a.bytes[i], b.bytes[i], (31 - pos % 32) % 8);
    }
  }

  function Glue(hi: nat, lo: nat): nat { hi * 0x1_0000_0000 + lo }

  lemma AppendChunk(s: seq<bool>, chunk: nat)
    requires chunk < 0x1_0000_0000
    ensures BitsValue(s + WordBits(chunk, 32)) == Glue(BitsValue(s), chunk)
  {
    Pow2Words();
    ShlWords(BitsValue(s));
    BitsValueAppend(s, WordBits(chunk, 32));
    WordBitsValue(chunk, 32);
  }

  lemma ValueByChunks(id: NodeId)
    ensures Value(id) == Glue(Glue(Glue(Glue(0, ChunkU32(id, 0)), ChunkU32(id, 1)), ChunkU32(id, 2)), ChunkU32(id, 3))
  {
    AppendChunkAt(id, 0);
    AppendChunkAt(id, 1);
    AppendChunkAt(id, 2);
    AppendChunkAt(id, 3);
    assert IdBits(id)[..128] == IdBits(id);
  }

  lemma AppendChunkAt(id: NodeId, c: nat)
    requires c < 4
    ensures BitsValue(IdBits(id)[..32 * (c + 1)]) == Glue(BitsValue(IdBits(id)[..32 * c]), ChunkU32(id, c))
  {
    var s := IdBits(id);
    ChunkSlice(id, c);
    assert s[..32 * (c + 1)] == s[..32 * c] + s[32 * c..32 * c + 32];
    AppendChunk(s[..32 * c], ChunkU32(id, c));
  }

  lemma ChunkSlice(id: NodeId, c: nat)
    requires c < 4
    ensures IdBits(id)[32 * c..32 * c + 32] == WordBits(ChunkU32(id, c), 32)
  {
    forall k | 0 <= k < 32 ensures IdBits(id)[32 * c..32 * c + 32][k] == WordBits(ChunkU32(id, c), 32)[k] {
      ChunkSliceAt(id, c, k);
    }
  }

  lemma ChunkSliceAt(id: NodeId, c: nat, k: nat)
    requires c < 4 && k < 32
    ensures IdBits(id)[32 * c + k] == WordBits(ChunkU32(id, c), 32)[k]
  {
    assert (32 * c + k) / 32 == c && (32 * c + k) % 32 == k;
    WordBitsAt(ChunkU32(id, c), 32, k);
  }

  /** The chunk-by-chunk comparison is the comparison of 128-bit numbers. */
  lemma CmpIsNumeric(a: NodeId, b: NodeId)
    ensures Cmp(a, b) == CompareNat(Value(a), Value(b))
  {
    ValueByChunks(a);
    ValueByChunks(b);
    assert CmpFrom(a, b, 3) == CompareNat(ChunkU32(a, 3), ChunkU32(b, 3));
    assert CmpFrom(a, b, 2) == CompareNat(
      Glue(ChunkU32(a, 2), ChunkU32(a, 3)), Glue(ChunkU32(b, 2), ChunkU32(b, 3)));
  }

  lemma LeBytesInjective(a0: byte, a1: byte, a2: byte, a3: byte, b0: byte, b1: byte, b2: byte, b3: byte)
    requires FromLeBytes(a0, a1, a2, a3) == FromLeBytes(b0, b1, b2, b3)
    ensures a0 == b0 && a1 == b1 && a2 == b2 && a3 == b3
  {
    GluedByteInjective(a0, a1 + 256 * (a2 + 256 * a3), b0, b1 + 256 * (b2 + 256 * b3));
    GluedByteInjective(a1, a2 + 256 * a3, b1, b2 + 256 * b3);
    GluedByteInjective(a2, a3, b2, b3);
  }

  lemma GluedByteInjective(lo: byte, hi: nat, lo': byte, hi': nat)
    requires lo + 256 * hi == lo' + 256 * hi'
    ensures lo == lo' && hi == hi'
  {
  }

  /** Two identifiers with the same number are the same sixteen bytes. */
  lemma ValueInjective(a: NodeId, b: NodeId)
    requires Value(a) == Value(b)
    ensures a == b
  {
    CmpIsNumeric(a, b);
    var x, y := a.bytes, b.bytes;
    forall i | 0 <= i < 16 ensures x[i] == y[i] {
      assert ChunkU32(a, i / 4) == ChunkU32(b, i / 4);
      var c := 4 * (i / 4);
      LeBytesInjective(x[c], x[c + 1], x[c + 2], x[c + 3], y[c], y[c + 1], y[c + 2], y[c + 3]);
    }
    assert x == y;
  }

  lemma BitsDetermineId(a: NodeId, b: NodeId)
    requires IdBits(a) == IdBits(b)
    ensures a == b
  {
    ValueInjective(a, b);
  }

  // ---- the XOR metric -------------------------------------------------------------------

  lemma DistanceBits(a: NodeId, b: NodeId)
    ensures forall p :: 0 <= p < ID_BITS ==> IdBits(Distance(a, b))[p] == (IdBits(a)[p] != IdBits(b)[p])
  {
    forall p | 0 <= p < ID_BITS ensures IdBits(Distance(a, b))[p] == (IdBits(a)[p] != IdBits(b)[p]) {
      DistanceBit(a, b, p);
    }
  }

  /** Distances to one target separate identifiers. */
  lemma DistInjective(target: NodeId, a: NodeId, b: NodeId)
    requires Dist(target, a) == Dist(target, b)
    ensures a == b
  {
    ValueInjective(Distance(a, target), Distance(b, target));
    DistanceBits(a, target);
    DistanceBits(b, target);
    assert IdBits(a) == IdBits(b);
    BitsDetermineId(a, b);
  }

  /** `target.distance(id)` and `id.distance(target)` agree. */
  lemma DistanceSymmetric(a: NodeId, b: NodeId)
    ensures Distance(a, b) == Distance(b, a)
  {
    DistanceBits(a, b);
    DistanceBits(b, a);
    assert IdBits(Distance(a, b)) == IdBits(Distance(b, a));
    BitsDetermineId(Distance(a, b), Distance(b, a));
  }

  /** After a shared prefix, the side that agrees with the target at the next bit is strictly nearer. */
  lemma AgreeingSideIsNearer(target: NodeId, near: NodeId, far: NodeId, d: nat)
    requires d < ID_BITS && IdBits(near)[..d] == IdBits(far)[..d]
    requires IdBits(near)[d] == IdBits(target)[d] != IdBits(far)[d]
    ensures Dist(target, near) < Dist(target, far)
  {
    DistanceBits(near, target);
    DistanceBits(far, target);
    var x, y := IdBits(Distance(near, target)), IdBits(Distance(far, target));
    forall p | 0 <= p < d ensures x[p] == y[p] {
      assert IdBits(near)[..d][p] == IdBits(far)[..d][p];
    }
    assert x[..d] == y[..d];
    FirstDifferenceDecides(x, y, d);
  }

  /** At most `2^(128-d)` identifiers share a `d`-bit prefix. */
  lemma IdsSharingPrefix(ids: set<NodeId>, prefix: seq<bool>)
    requires |prefix| <= ID_BITS
    requires forall a :: a in ids ==> prefix <= IdBits(a)
    ensures |ids| <= Pow2(ID_BITS - |prefix|)
  {
    PrefixClassBound(set a | a in ids :: IdBits(a), ID_BITS, prefix);
    ImageCard(ids);
  }

  lemma {:induction false} ImageCard(ids: set<NodeId>)
    ensures |set a | a in ids :: IdBits(a)| == |ids|
  {
    if ids != {} {
      var a :| a in ids;
      ImageCard(ids - {a});
      var rest := set b | b in ids - {a} :: IdBits(b);
      forall b | b in ids - {a} ensures IdBits(b) != IdBits(a) {
        if IdBits(b) == IdBits(a) { BitsDetermineId(b, a); }
      }
      assert (set b | b in ids :: IdBits(b)) == rest + {IdBits(a)};
    }
  }

  // ---- the source's loops -----------------------------------------------------------------

  /** Zero bits at the top of a chunk of the distance are agreeing bits. */
  lemma ZerosAgree(a: NodeId, b: NodeId, chunk: nat, zeros: nat)
    requires chunk < 4 && zeros <= 32 && IdBits(a)[..32 * chunk] == IdBits(b)[..32 * chunk]
    requires forall j :: 32 - zeros <= j < 32 ==> !BitAt(ChunkU32(Distance(a, b), chunk), j)
    ensures IdBits(a)[..32 * chunk + zeros] == IdBits(b)[..32 * chunk + zeros]
  {
    hide BitAt, ChunkU32, IdBits;
    var (s, t, p) := (IdBits(a), IdBits(b), 32 * chunk + zeros);
    forall q | 0 <= q < p ensures s[..p][q] == t[..p][q] {
      if q < 32 * chunk {
        assert s[..32 * chunk][q] == t[..32 * chunk][q];
      } else {
        ChunkBitDiffers(a, b, chunk, q - 32 * chunk);
      }
    }
  }

  /** One round of the `distance_exp` loop. */
  lemma ChunkDecidesPrefix(a: NodeId, b: NodeId, chunk: nat)
    requires chunk < 4 && IdBits(a)[..32 * chunk] == IdBits(b)[..32 * chunk]
    ensures var word := ChunkU32(Distance(a, b), chunk);
            var p := 32 * chunk + LeadingZeros(word, 32);
            p <= ID_BITS && IdBits(a)[..p] == IdBits(b)[..p]
            && if word == 0 then p == 32 * chunk + 32 else p < 32 * chunk + 32 && IdBits(a)[p] != IdBits(b)[p]
  {
    hide LeadingZeros, BitAt, ChunkU32, IdBits;
    var word := ChunkU32(Distance(a, b), chunk);
    var zeros := LeadingZeros(word, 32);
    Pow2Words();
    LeadingZerosFindsTop(word, 32);
    ZerosAgree(a, b, chunk, zeros);
    if zeros < 32 { ChunkBitDiffers(a, b, chunk, zeros); }
  }

  lemma ChunkBitDiffers(a: NodeId, b: NodeId, chunk: nat, k: nat)
    requires chunk < 4 && k < 32
    ensures BitAt(ChunkU32(Distance(a, b), chunk), 31 - k) == (IdBits(a)[32 * chunk + k] != IdBits(b)[32 * chunk + k])
  {
    var p := 32 * chunk + k;
    assert p / 32 == chunk && p % 32 == k;
    DistanceBit(a, b, p);
  }

  /** Index of the highest set bit of the XOR distance, or `None` for equal identifiers. */
  method DistanceExp(a: NodeId, b: NodeId) returns (r: Option<nat>)
    ensures r.None? <==> a == b
    ensures r.Some? ==> r.value < ID_BITS && IdBits(a)[..r.value] == IdBits(b)[..r.value]
                        && IdBits(a)[r.value] != IdBits(b)[r.value]
  {
    var xor := Distance(a, b);
    var chunk := 0;
    while chunk < 4
      invariant 0 <= chunk <= 4
      invariant IdBits(a)[..32 * chunk] == IdBits(b)[..32 * chunk]
    {
      var word := ChunkU32(xor, chunk);
      ChunkDecidesPrefix(a, b, chunk);
      if word != 0 { return Some(32 * chunk + LeadingZeros(word, 32)); }
      chunk := chunk + 1;
    }
    assert IdBits(a)[..ID_BITS] == IdBits(a) && IdBits(b)[..ID_BITS] == IdBits(b);
    BitsDetermineId(a, b);
    return None;
  }

  method Compare(a: NodeId, b: NodeId) returns (r: Ordering)
    ensures r == CompareNat(Value(a), Value(b))
  {
    CmpIsNumeric(a, b);
    var chunk := 0;
    while chunk < 4
      invariant 0 <= chunk <= 4
      invariant Cmp(a, b) == CmpFrom(a, b, chunk)
    {
      var ordering := CompareNat(ChunkU32(a, chunk), ChunkU32(b, chunk));
      if ordering != Equal { return ordering; }
      chunk := chunk + 1;
    }
    return Equal;
  }

  method ComputeDistance(a: NodeId, b: NodeId) returns (r: NodeId)
    ensures forall p :: 0 <= p < ID_BITS ==> IdBits(r)[p] == (IdBits(a)[p] != IdBits(b)[p])
    ensures r == Distance(a, b)
  {
    var result: seq<byte> := [];
    while |result| < 16
      invariant |result| <= 16
      invariant forall i :: 0 <= i < |result| ==> result[i] == XorByte(a.bytes[i], b.bytes[i])
    {
      result := result + [XorByte(a.bytes[|result|], b.bytes[|result|])];
    }
    r := NodeId(result);
    assert r.bytes == Distance(a, b).bytes;
    assert r == Distance(a, b);
    DistanceBits(a, b);
  }

  // ---- canonical byte order --------------------------------------------------------------

  /** Reverses the bytes of every 32-bit chunk; the source's `from_be_bytes` and `to_be_bytes`. */
  function SwapChunks(b: Bytes16): Bytes16
  {
    seq(16, i requires 0 <= i < 16 => b[4 * (i / 4) + 3 - i % 4])
  }

  lemma SwapChunksInvolutive(b: Bytes16)
    ensures SwapChunks(SwapChunks(b)) == b
  {
    forall i | 0 <= i < 16 ensures SwapChunks(SwapChunks(b))[i] == b[i] {
      var j := 4 * (i / 4) + 3 - i % 4;
      assert j / 4 == i / 4 && j % 4 == 3 - i % 4;
    }
  }
}
