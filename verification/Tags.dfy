/** The Kad tag codec: `crates/overlord-kad-proto/src/tag.rs`. Strings are their UTF-8 bytes and floats
    their four wire bytes. */
module Tags {
  import opened Common

  type Bytes = seq<byte>
  type Hash16 = Bytes16
  type Float4 = b: seq<byte> | |b| == 4 witness [0, 0, 0, 0]

  datatype TagName = Short(id: byte) | Long(text: Bytes)

  datatype TagValue =
    | Hash(hash: Hash16)
    | Str(text: Bytes)
    | UInt(uint: u64)
    | U64(v64: u64)
    | U32(v32: u32)
    | U16(v16: u16)
    | U8(v8: byte)
    | Float(float: Float4)
    | Bool(flag: bool)
    | Blob(data: Bytes)
    | SmallBlob(data: Bytes)

  datatype Tag = Tag(name: TagName, value: TagValue)

  datatype ReadError = UnexpectedEof | UnknownTagType(tagType: byte)

  // ---- integers on the wire --------------------------------------------------------------------------

  function Pow256(n: nat): nat { if n == 0 then 1 else 256 * Pow256(n - 1) }

  /** The `n` low bytes of `v`, little-endian. */
  function Le(v: nat, n: nat): (r: Bytes)
    ensures |r| == n
  {
    if n == 0 then [] else [v % 256] + Le(v / 256, n - 1)
  }

  function FromLe(b: Bytes): nat { if b == [] then 0 else b[0] + 256 * FromLe(b[1..]) }

  lemma {:induction false} LeRoundTrip(v: nat, n: nat)
    requires v < Pow256(n)
    ensures FromLe(Le(v, n)) == v
  {
    if n != 0 {
      LeRoundTrip(v / 256, n - 1);
      assert Le(v, n)[1..] == Le(v / 256, n - 1);
    }
  }

  lemma {:induction false} FromLeBound(b: Bytes)
    ensures FromLe(b) < Pow256(|b|)
  {
    if b != [] { FromLeBound(b[1..]); }
  }

  lemma Widths()
    ensures Pow256(1) == 0x100 && Pow256(2) == 0x1_0000 && Pow256(4) == 0x1_0000_0000
    ensures Pow256(8) == 0x1_0000_0000_0000_0000
  {
    assert Pow256(4) == 0x1_0000_0000;
    assert Pow256(6) == 0x1_0000_0000_0000;
  }

  // ---- writing ------------------------------------------------------------------------------------------

  /** The lengths the writer insists on. */
  predicate EncodableName(n: TagName) { n.Long? ==> |n.text| < 0x1_0000 }

  predicate EncodableValue(v: TagValue)
  {
    match v
    case Str(text) => |text| < 0x1_0000
    case Blob(data) => |data| < 0x1_0000_0000
    case SmallBlob(data) => |data| < 0x100
    case _ => true
  }

  predicate Encodable(t: Tag) { EncodableName(t.name) && EncodableValue(t.value) }

  function ValueTypeByte(v: TagValue): byte
  {
    match v
    case Hash(_) => 0x01
    case Str(_) => 0x02
    case UInt(n) => if n <= 0xFF then 0x09 else if n <= 0xFFFF then 0x08 else if n <= 0xFFFF_FFFF then 0x03 else 0x0B
    case U32(_) => 0x03
    case Float(_) => 0x04
    case Bool(_) => 0x05
    case Blob(_) => 0x07
    case SmallBlob(_) => 0x0A
    case U16(_) => 0x08
    case U8(_) => 0x09
    case U64(_) => 0x0B
  }

  function WriteName(n: TagName): Bytes
    requires EncodableName(n)
  {
    match n
    case Short(id) => Le(1, 2) + [id]
    case Long(text) => Le(|text|, 2) + text
  }

  function WriteValue(v: TagValue): Bytes
    requires EncodableValue(v)
  {
    match v
    case Hash(hash) => hash
    case Str(text) => Le(|text|, 2) + text
    case UInt(n) =>
      if n <= 0xFF then [n] else if n <= 0xFFFF then Le(n, 2) else if n <= 0xFFFF_FFFF then Le(n, 4) else Le(n, 8)
    case U32(n) => Le(n, 4)
    case Float(b) => b
    case Bool(flag) => [if flag then 1 else 0]
    case Blob(data) => Le(|data|, 4) + data
    case SmallBlob(data) => [|data|] + data
    case U16(n) => Le(n, 2)
    case U8(n) => [n]
    case U64(n) => Le(n, 8)
  }

  function WriteTag(t: Tag): Bytes
    requires Encodable(t)
  {
    [ValueTypeByte(t.value)] + WriteName(t.name) + WriteValue(t.value)
  }

  predicate AllEncodable(ts: seq<Tag>) { forall i :: 0 <= i < |ts| ==> Encodable(ts[i]) }

  function WriteTags(ts: seq<Tag>): Bytes
    requires AllEncodable(ts)
  {
    if ts == [] then [] else WriteTag(ts[0]) + WriteTags(ts[1..])
  }

  // ---- reading: each reader returns what it read and the unread rest ------------------------------------------

  type Read<T> = Result<(T, Bytes), ReadError>

  function Take(b: Bytes, n: nat): (r: Read<Bytes>)
    ensures r.Ok? <==> n <= |b|
    ensures r.Ok? ==> |r.value.0| == n && r.value.0 + r.value.1 == b
  {
    if n <= |b| then Ok((b[..n], b[n..])) else Err(UnexpectedEof)
  }

  function ReadInt(b: Bytes, width: nat): (r: Read<nat>)
    ensures r.Ok? ==> r.value.0 < Pow256(width)
  {
    match Take(b, width)
    case Err(e) => Err(e)
    case Ok((head, rest)) =>
      FromLeBound(head);
      Ok((FromLe(head), rest))
  }

  /** A length field of `width` bytes followed by that many bytes. */
  function ReadSized(b: Bytes, width: nat): Read<Bytes>
  {
    match ReadInt(b, width)
    case Err(e) => Err(e)
    case Ok((n, rest)) => Take(rest, n)
  }

  function ReadName(b: Bytes, shortName: bool): Read<TagName>
  {
    if shortName then
      match Take(b, 1)
      case Err(e) => Err(e)
      case Ok((head, rest)) => Ok((Short(head[0]), rest))
    else
      match ReadSized(b, 2)
      case Err(e) => Err(e)
      case Ok((text, rest)) => Ok((if |text| == 1 then Short(text[0]) else Long(text), rest))
  }

  function MapRead<A, B>(r: Read<A>, f: A --> B): Read<B>
    requires r.Ok? ==> f.requires(r.value.0)
  {
    match r
    case Err(e) => Err(e)
    case Ok((a, rest)) => Ok((f(a), rest))
  }

  function ReadValue(b: Bytes, tagType: byte): Read<TagValue>
  {
    Widths();
    match tagType
    case 0x01 => MapRead(Take(b, 16), (h: Bytes) requires |h| == 16 => Hash(h))
    case 0x02 => MapRead(ReadSized(b, 2), text => Str(text))
    case 0x03 => MapRead(ReadInt(b, 4), (n: nat) requires n < 0x1_0000_0000 => U32(n))
    case 0x04 => MapRead(Take(b, 4), (f: Bytes) requires |f| == 4 => Float(f))
    case 0x05 => MapRead(ReadInt(b, 1), n => Bool(n != 0))
    case 0x06 => ReadBoolArray(b)
    case 0x07 => MapRead(ReadSized(b, 4), data => Blob(data))
    case 0x08 => MapRead(ReadInt(b, 2), (n: nat) requires n < 0x1_0000 => U16(n))
    case 0x09 => MapRead(ReadInt(b, 1), (n: nat) requires n < 0x100 => U8(n))
    case 0x0A => MapRead(ReadSized(b, 1), data => SmallBlob(data))
    case 0x0B => MapRead(ReadInt(b, 8), (n: nat) requires n < 0x1_0000_0000_0000_0000 => U64(n))
    case _ => Err(UnknownTagType(tagType))
  }

  /** The length field counts bits. */
  function ReadBoolArray(b: Bytes): Read<TagValue>
  {
    match ReadInt(b, 2)
    case Err(e) => Err(e)
    case Ok((bits, rest)) => MapRead(Take(rest, (bits + 7) / 8), data => Blob(data))
  }

  function ReadTag(b: Bytes): Read<Tag>
  {
    match Take(b, 1)
    case Err(e) => Err(e)
    case Ok((head, rest)) =>
      match ReadName(rest, head[0] >= 0x80)
      case Err(e) => Err(e)
      case Ok((name, rest')) => MapRead(ReadValue(rest', head[0] % 0x80), value => Tag(name, value))
  }

  function ReadTags(b: Bytes, n: nat): Read<seq<Tag>>
    decreases n
  {
    if n == 0 then Ok(([], b))
    else
      match ReadTag(b)
      case Err(e) => Err(e)
      case Ok((t, rest)) =>
        match ReadTags(rest, n - 1)
        case Err(e) => Err(e)
        case Ok((ts, rest')) => Ok(([t] + ts, rest'))
  }

  // ---- the normal form ---------------------------------------------------------------------------------------

  function NormalName(n: TagName): TagName { if n.Long? && |n.text| == 1 then Short(n.text[0]) else n }

  function NormalValue(v: TagValue): TagValue
  {
    if !v.UInt? then v
    else if v.uint <= 0xFF then U8(v.uint)
    else if v.uint <= 0xFFFF then U16(v.uint)
    else if v.uint <= 0xFFFF_FFFF then U32(v.uint)
    else U64(v.uint)
  }

  function Normal(t: Tag): Tag { Tag(NormalName(t.name), NormalValue(t.value)) }

  function NormalAll(ts: seq<Tag>): (r: seq<Tag>)
    ensures |r| == |ts|
    ensures forall i :: 0 <= i < |ts| ==> r[i] == Normal(ts[i])
  {
    if ts == [] then [] else [Normal(ts[0])] + NormalAll(ts[1..])
  }

  // ---- round trips ------------------------------------------------------------------------------------------------

  lemma TakeAppend(a: Bytes, rest: Bytes)
    ensures Take(a + rest, |a|) == Ok((a, rest))
  {
    assert (a + rest)[..|a|] == a && (a + rest)[|a|..] == rest;
  }

  lemma ReadIntAppend(v: nat, width: nat, rest: Bytes)
    requires v < Pow256(width)
    ensures ReadInt(Le(v, width) + rest, width) == Ok((v, rest))
  {
    TakeAppend(Le(v, width), rest);
    LeRoundTrip(v, width);
  }

  lemma ReadSizedAppend(data: Bytes, width: nat, rest: Bytes)
    requires |data| < Pow256(width)
    ensures ReadSized(Le(|data|, width) + data + rest, width) == Ok((data, rest))
  {
    assert Le(|data|, width) + data + rest == Le(|data|, width) + (data + rest);
    ReadIntAppend(|data|, width, data + rest);
    TakeAppend(data, rest);
  }

  lemma {:induction false} FromLeRoundTrip(b: Bytes)
    ensures Le(FromLe(b), |b|) == b
  {
    if b != [] { FromLeRoundTrip(b[1..]); }
  }

  /** Whatever is read as an integer is what writing that integer gives. */
  lemma ReadIntInverse(b: Bytes, width: nat)
    ensures var r := ReadInt(b, width); r.Ok? ==> b == Le(r.value.0, width) + r.value.1
  {
    if width <= |b| { FromLeRoundTrip(b[..width]); }
  }

  lemma ReadSizedInverse(b: Bytes, width: nat)
    ensures var r := ReadSized(b, width);
            r.Ok? ==> |r.value.0| < Pow256(width) && b == Le(|r.value.0|, width) + r.value.0 + r.value.1
  {
    hide Le, Pow256;
    ReadIntInverse(b, width);
  }

  lemma OneByte(v: byte)
    ensures Le(v, 1) == [v]
  {
    assert Le(v / 256, 0) == [];
  }

  lemma NameRoundTrip(n: TagName, rest: Bytes)
    requires EncodableName(n)
    ensures ReadName(WriteName(n) + rest, false) == Ok((NormalName(n), rest))
  {
    hide ReadSized, Le;
    Widths();
    var text := if n.Short? then [n.id] else n.text;
    ReadSizedAppend(text, 2, rest);
    assert WriteName(n) == Le(|text|, 2) + text;
  }

  lemma ValueRoundTrip(v: TagValue, rest: Bytes)
    requires EncodableValue(v)
    ensures ReadValue(WriteValue(v) + rest, ValueTypeByte(v)) == Ok((NormalValue(v), rest))
  {
    hide ReadSized, Le, Take, ReadInt, Pow256;
    Widths();
    match v
    case Hash(hash) => TakeAppend(hash, rest);
    case Str(text) => ReadSizedAppend(text, 2, rest);
    case Float(f) => TakeAppend(f, rest);
    case Blob(data) => ReadSizedAppend(data, 4, rest);
    case SmallBlob(data) =>
      OneByte(|data|);
      ReadSizedAppend(data, 1, rest);
    case Bool(flag) =>
      OneByte(if flag then 1 else 0);
      ReadIntAppend(if flag then 1 else 0, 1, rest);
    case UInt(n) => UIntRoundTrip(n, rest);
    case U32(n) => ReadIntAppend(n, 4, rest);
    case U16(n) => ReadIntAppend(n, 2, rest);
    case U8(n) =>
      OneByte(n);
      ReadIntAppend(n, 1, rest);
    case U64(n) => ReadIntAppend(n, 8, rest);
  }

  lemma UIntRoundTrip(n: u64, rest: Bytes)
    ensures ReadValue(WriteValue(UInt(n)) + rest, ValueTypeByte(UInt(n))) == Ok((NormalValue(UInt(n)), rest))
  {
    hide ReadSized, Le, Take, ReadInt, Pow256;
    Widths();
    if n <= 0xFF {
      OneByte(n);
      ReadIntAppend(n, 1, rest);
    } else if n <= 0xFFFF {
      ReadIntAppend(n, 2, rest);
    } else if n <= 0xFFFF_FFFF {
      ReadIntAppend(n, 4, rest);
    } else {
      ReadIntAppend(n, 8, rest);
    }
  }

  /** Decoding an encoded tag yields its normal form and leaves everything after it unread. */
  lemma TagRoundTrip(t: Tag, rest: Bytes)
    requires Encodable(t)
    ensures ReadTag(WriteTag(t) + rest) == Ok((Normal(t), rest))
  {
    hide ReadName, ReadValue, WriteName, WriteValue, Take;
    var head := [ValueTypeByte(t.value)];
    var tail := WriteName(t.name) + (WriteValue(t.value) + rest);
    assert WriteTag(t) + rest == head + tail;
    TakeAppend(head, tail);
    NameRoundTrip(t.name, WriteValue(t.value) + rest);
    ValueRoundTrip(t.value, rest);
  }

  /** The same for every list of tags. */
  lemma {:induction false} TagsRoundTrip(ts: seq<Tag>, rest: Bytes)
    requires AllEncodable(ts)
    ensures ReadTags(WriteTags(ts) + rest, |ts|) == Ok((NormalAll(ts), rest))
  {
    hide ReadTag, WriteTag, Encodable, Normal;
    if ts == [] {
      assert WriteTags(ts) + rest == rest;
    } else {
      TagRoundTrip(ts[0], WriteTags(ts[1..]) + rest);
      TagsRoundTrip(ts[1..], rest);
      assert WriteTags(ts) + rest == WriteTag(ts[0]) + (WriteTags(ts[1..]) + rest);
    }
  }

  /** Re-encoding the decoded tag reproduces the same bytes. */
  lemma NormalEncodesAlike(t: Tag)
    requires Encodable(t)
    ensures Encodable(Normal(t)) && WriteTag(Normal(t)) == WriteTag(t)
  {
    if t.name.Long? && |t.name.text| == 1 { assert t.name.text == [t.name.text[0]]; }
  }

  lemma {:induction false} NormalListEncodesAlike(ts: seq<Tag>)
    requires AllEncodable(ts)
    ensures AllEncodable(NormalAll(ts)) && WriteTags(NormalAll(ts)) == WriteTags(ts)
  {
    hide WriteTag, Encodable, Normal;
    forall i | 0 <= i < |ts| ensures Encodable(NormalAll(ts)[i]) { NormalEncodesAlike(ts[i]); }
    if ts != [] {
      NormalEncodesAlike(ts[0]);
      NormalListEncodesAlike(ts[1..]);
      assert NormalAll(ts)[1..] == NormalAll(ts[1..]);
    }
  }

  /** Whatever bytes arrive, a decoded tag is already normal: decoding never yields `UInt` or a one-byte
      long name. */
  lemma DecodedIsNormal(b: Bytes)
    ensures ReadTag(b).Ok? ==> Normal(ReadTag(b).value.0) == ReadTag(b).value.0
  {
    if ReadTag(b).Ok? {
      var rest := b[1..];
      var name := ReadName(rest, b[0] >= 0x80);
      NameIsNormal(rest, b[0] >= 0x80);
      ValueIsNormal(name.value.1, b[0] % 0x80);
    }
  }

  lemma NameIsNormal(b: Bytes, shortName: bool)
    ensures ReadName(b, shortName).Ok? ==> NormalName(ReadName(b, shortName).value.0) == ReadName(b, shortName).value.0
  {
  }

  lemma ValueIsNormal(b: Bytes, tagType: byte)
    ensures ReadValue(b, tagType).Ok? ==> !ReadValue(b, tagType).value.0.UInt?
  {
  }

  /** Reading consumes a prefix and never looks past the buffer. */
  lemma ReadTagConsumes(b: Bytes)
    ensures ReadTag(b).Ok? ==> |ReadTag(b).value.1| < |b| && b[|b| - |ReadTag(b).value.1|..] == ReadTag(b).value.1
  {
    hide ReadName, ReadValue, ReadTag, SuffixOf;
    if ReadTag(b).Ok? {
      TagParts(b);
      var named := ReadName(b[1..], b[0] >= 0x80);
      NameConsumes(b[1..], b[0] >= 0x80);
      ValueConsumes(named.value.1, b[0] % 0x80);
      SuffixTrans(b[1..], named.value.1, ReadTag(b).value.1);
      TailConsumes(b, ReadTag(b).value.1);
    }
  }

  lemma TagParts(b: Bytes)
    requires ReadTag(b).Ok?
    ensures b != [] && ReadName(b[1..], b[0] >= 0x80).Ok?
    ensures var mid := ReadName(b[1..], b[0] >= 0x80).value.1;
            ReadValue(mid, b[0] % 0x80).Ok? && ReadTag(b).value.1 == ReadValue(mid, b[0] % 0x80).value.1
  {
    hide ReadName, ReadValue;
  }

  lemma TailSuffix(b: Bytes)
    requires b != []
    ensures SuffixOf(b[1..], b)
  {
  }

  lemma TailConsumes(b: Bytes, rest: Bytes)
    requires b != [] && SuffixOf(rest, b[1..])
    ensures |rest| < |b| && b[|b| - |rest|..] == rest
  {
    TailSuffix(b);
    SuffixTrans(b, b[1..], rest);
  }

  ghost predicate SuffixOf(s: Bytes, b: Bytes) { |s| <= |b| && b[|b| - |s|..] == s }

  lemma SuffixTrans(a: Bytes, b: Bytes, c: Bytes)
    requires SuffixOf(b, a) && SuffixOf(c, b)
    ensures SuffixOf(c, a)
  {
    assert a[|a| - |c|..] == a[|a| - |b|..][|b| - |c|..];
  }

  lemma NameConsumes(b: Bytes, shortName: bool)
    ensures ReadName(b, shortName).Ok? ==> SuffixOf(ReadName(b, shortName).value.1, b)
  {
    if !shortName { SizedConsumes(b, 2); }
  }

  lemma SizedConsumes(b: Bytes, width: nat)
    ensures ReadSized(b, width).Ok? ==> SuffixOf(ReadSized(b, width).value.1, b)
  {
    if ReadSized(b, width).Ok? {
      var rest := ReadInt(b, width).value.1;
      SuffixTrans(b, rest, ReadSized(b, width).value.1);
    }
  }

  lemma ValueConsumes(b: Bytes, tagType: byte)
    ensures ReadValue(b, tagType).Ok? ==> SuffixOf(ReadValue(b, tagType).value.1, b)
  {
    hide ReadSized;
    SizedConsumes(b, 1);
    SizedConsumes(b, 2);
    SizedConsumes(b, 4);
    if tagType == 0x06 && ReadValue(b, tagType).Ok? {
      SuffixTrans(b, ReadInt(b, 2).value.1, ReadValue(b, tagType).value.1);
    }
  }
}
