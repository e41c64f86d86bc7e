/** File sizes carried in tag lists: the readers in `kad_store.rs` and `kad_search_expr.rs` of
    `crates/overlord-agent-emule/src`. */
module FileSizes {
  import opened Common
  import opened Sequences
  import opened Tags

  const FILENAME: byte := 0x01
  const FILESIZE: byte := 0x02
  const FILEFORMAT: byte := 0x04
  const FILESIZE_HI: byte := 0x3A

  /** The value of the first tag on which `f` is defined. */
  function FirstSome(ts: seq<Tag>, f: Tag -> Option<nat>): Option<nat>
  {
    if ts == [] then None
    else
      var earlier := FirstSome(ts[..|ts| - 1], f);
      if earlier.Some? then earlier else f(ts[|ts| - 1])
  }

  predicate Fits32(n: nat) { n <= 0xFFFF_FFFF }

  /** A tag that states the whole size. */
  function WholeSize(acceptBlob: bool): Tag -> Option<nat>
  {
    (t: Tag) =>
      if t.name != Short(FILESIZE) then None
      else match t.value
        case UInt(n) => if Fits32(n) then None else Some(n)
        case U64(n) => Some(n)
        case Blob(data) => if acceptBlob && |data| == 8 then Some(FromLe(data)) else None
        case SmallBlob(data) => if acceptBlob && |data| == 8 then Some(FromLe(data)) else None
        case _ => None
  }

  /** A 32-bit half of the size under the given name. */
  function HalfSize(name: byte): Tag -> Option<nat>
  {
    (t: Tag) =>
      if t.name != Short(name) then None
      else match t.value
        case UInt(n) => if Fits32(n) then Some(n) else None
        case U32(n) => Some(n)
        case U16(n) => Some(n)
        case U8(n) => Some(n)
        case _ => None
  }

  function Combine(whole: Option<nat>, low: Option<nat>, high: Option<nat>): Option<nat>
  {
    if whole.Some? then whole
    else if low.None? then None
    else Some((if high.Some? then high.value else 0) * 0x1_0000_0000 + low.value)
  }

  /** The size a tag list states: the first whole size, else the first low half with the first high half. */
  function FileSize(ts: seq<Tag>, acceptBlob: bool): Option<nat>
  {
    Combine(FirstSome(ts, WholeSize(acceptBlob)),
            FirstSome(ts, HalfSize(FILESIZE)), FirstSome(ts, HalfSize(FILESIZE_HI)))
  }

  function GetOrInsert(slot: Option<nat>, v: nat): Option<nat> { if slot.Some? then slot else Some(v) }

  /** `stock_first_file_size_impl` of the publish cache. */
  method StockFirstFileSize(ts: seq<Tag>, acceptBlob: bool) returns (r: Option<nat>)
    ensures r == FileSize(ts, acceptBlob)
  {
    var size: Option<nat>, low: Option<nat>, high: Option<nat> := None, None, None;
    var i := 0;
    while i < |ts|
      invariant 0 <= i <= |ts|
      invariant size == FirstSome(ts[..i], WholeSize(acceptBlob))
      invariant low == FirstSome(ts[..i], HalfSize(FILESIZE))
      invariant high == FirstSome(ts[..i], HalfSize(FILESIZE_HI))
    {
      assert ts[..i + 1][..i] == ts[..i];
      match ts[i] {
        case Tag(Short(name), UInt(n)) =>
          if name == FILESIZE {
            if Fits32(n) { low := GetOrInsert(low, n); } else { size := GetOrInsert(size, n); }
          } else if name == FILESIZE_HI && Fits32(n) {
            high := GetOrInsert(high, n);
          }
        case Tag(Short(name), U64(n)) => if name == FILESIZE { size := GetOrInsert(size, n); }
        case Tag(Short(name), U32(n)) =>
          if name == FILESIZE {
            low := GetOrInsert(low, n);
          } else if name == FILESIZE_HI {
            high := GetOrInsert(high, n);
          }
        case Tag(Short(name), U16(n)) =>
          if name == FILESIZE {
            low := GetOrInsert(low, n);
          } else if name == FILESIZE_HI {
            high := GetOrInsert(high, n);
          }
        case Tag(Short(name), U8(n)) =>
          if name == FILESIZE {
            low := GetOrInsert(low, n);
          } else if name == FILESIZE_HI {
            high := GetOrInsert(high, n);
          }
        case Tag(Short(name), Blob(data)) =>
          if name == FILESIZE && acceptBlob && |data| == 8 { size := GetOrInsert(size, FromLe(data)); }
        case Tag(Short(name), SmallBlob(data)) =>
          if name == FILESIZE && acceptBlob && |data| == 8 { size := GetOrInsert(size, FromLe(data)); }
        case _ =>
      }
      i := i + 1;
    }
    assert ts[..i] == ts;
    r := Combine(size, low, high);
  }

  /** `file_size_tag_value` of the search-expression matcher: a separate reader with its own arms. */
  method FileSizeTagValue(ts: seq<Tag>) returns (r: Option<nat>)
    ensures r == FileSize(ts, true)
  {
    var size: Option<nat>, low: Option<nat>, high: Option<nat> := None, None, None;
    var i := 0;
    while i < |ts|
      invariant 0 <= i <= |ts|
      invariant size == FirstSome(ts[..i], WholeSize(true))
      invariant low == FirstSome(ts[..i], HalfSize(FILESIZE))
      invariant high == FirstSome(ts[..i], HalfSize(FILESIZE_HI))
    {
      assert ts[..i + 1][..i] == ts[..i];
      var v := ts[i].value;
      if ts[i].name == Short(FILESIZE) {
        if v.UInt? && Fits32(v.uint) { low := GetOrInsert(low, v.uint); }
        else if v.UInt? { size := GetOrInsert(size, v.uint); }
        else if v.U64? { size := GetOrInsert(size, v.v64); }
        else if v.U32? { low := GetOrInsert(low, v.v32); }
        else if v.U16? { low := GetOrInsert(low, v.v16); }
        else if v.U8? { low := GetOrInsert(low, v.v8); }
        else if (v.Blob? || v.SmallBlob?) && |v.data| == 8 { size := GetOrInsert(size, FromLe(v.data)); }
      } else if ts[i].name == Short(FILESIZE_HI) {
        if v.UInt? && Fits32(v.uint) { high := GetOrInsert(high, v.uint); }
        else if v.U32? { high := GetOrInsert(high, v.v32); }
        else if v.U16? { high := GetOrInsert(high, v.v16); }
        else if v.U8? { high := GetOrInsert(high, v.v8); }
      }
      i := i + 1;
    }
    assert ts[..i] == ts;
    r := Combine(size, low, high);
  }

  // ---- across the wire ------------------------------------------------------------------------------------

  /** Only the names change as decoding changes them. */
  function Renamed(t: Tag): Tag { Tag(NormalName(t.name), t.value) }

  function RenamedAll(ts: seq<Tag>): (r: seq<Tag>)
    ensures |r| == |ts|
    ensures forall i :: 0 <= i < |ts| ==> r[i] == Renamed(ts[i])
  {
    if ts == [] then [] else [Renamed(ts[0])] + RenamedAll(ts[1..])
  }

  /** No long name of one byte, which the decoder would read back as a short name. */
  predicate WellNamed(ts: seq<Tag>) { forall i :: 0 <= i < |ts| ==> NormalName(ts[i].name) == ts[i].name }

  lemma WellNamedIff(ts: seq<Tag>)
    ensures RenamedAll(ts) == ts <==> WellNamed(ts)
  {
    if RenamedAll(ts) == ts {
      forall i | 0 <= i < |ts| ensures NormalName(ts[i].name) == ts[i].name {
        assert RenamedAll(ts)[i] == Renamed(ts[i]);
      }
    }
  }

  lemma {:induction false} FirstSomeAlike(a: seq<Tag>, b: seq<Tag>, f: Tag -> Option<nat>)
    requires |a| == |b| && forall i :: 0 <= i < |a| ==> f(a[i]) == f(b[i])
    ensures FirstSome(a, f) == FirstSome(b, f)
  {
    if a != [] { FirstSomeAlike(a[..|a| - 1], b[..|b| - 1], f); }
  }

  /** The reader sees the same number in a value and in its narrowed form. */
  ghost predicate IgnoresWidth(f: Tag -> Option<nat>)
  {
    forall t :: f(Normal(t)) == f(Renamed(t))
  }

  lemma WholeIgnoresWidth(acceptBlob: bool)
    ensures IgnoresWidth(WholeSize(acceptBlob))
  {
  }

  lemma HalfIgnoresWidth(name: byte)
    ensures IgnoresWidth(HalfSize(name))
  {
  }

  lemma WireAlike(ts: seq<Tag>, f: Tag -> Option<nat>)
    requires IgnoresWidth(f)
    ensures FirstSome(NormalAll(ts), f) == FirstSome(RenamedAll(ts), f)
  {
    hide FirstSome, IgnoresWidth, Normal, Renamed;
    forall i | 0 <= i < |ts| ensures f(NormalAll(ts)[i]) == f(RenamedAll(ts)[i]) { WidthIgnored(ts[i], f); }
    FirstSomeAlike(NormalAll(ts), RenamedAll(ts), f);
  }

  lemma WidthIgnored(t: Tag, f: Tag -> Option<nat>)
    requires IgnoresWidth(f)
    ensures f(Normal(t)) == f(Renamed(t))
  {
  }

  /** A long name of one byte. */
  predicate Misnamed(t: Tag) { NormalName(t.name) != t.name }

  function UnderstoodOnWire(f: Tag -> Option<nat>): Tag -> bool { (t: Tag) => f(Renamed(t)).Some? }

  /** Index of the tag that decides what `f` reads once names are as decoded. */
  function Deciding(ts: seq<Tag>, f: Tag -> Option<nat>): Option<nat> { First(ts, UnderstoodOnWire(f)) }

  function OnWire(ts: seq<Tag>, f: Tag -> Option<nat>): Option<nat>
  {
    match Deciding(ts, f)
    case Some(i) => f(Renamed(ts[i]))
    case None => None
  }

  /** `f` understands no misnamed tag. */
  ghost predicate NeedsGoodNames(f: Tag -> Option<nat>) { forall t :: Misnamed(t) ==> f(t).None? }

  /** The deciding tag is well named, or it repeats what `f` finds among the well-named tags. */
  predicate ReaderSurvives(ts: seq<Tag>, f: Tag -> Option<nat>)
  {
    match Deciding(ts, f)
    case Some(i) => !Misnamed(ts[i]) || FirstSome(ts, f) == f(Renamed(ts[i]))
    case None => true
  }

  lemma {:induction false} FirstSomeAt(ts: seq<Tag>, f: Tag -> Option<nat>, i: nat)
    requires i <= |ts| && (i < |ts| ==> f(ts[i]).Some?) && forall j :: 0 <= j < i ==> f(ts[j]).None?
    ensures FirstSome(ts, f) == if i < |ts| then f(ts[i]) else None
  {
    if ts != [] {
      var n := |ts| - 1;
      FirstSomeAt(ts[..n], f, if i <= n then i else n);
    }
  }

  lemma OnWireIs(ts: seq<Tag>, f: Tag -> Option<nat>)
    requires IgnoresWidth(f)
    ensures FirstSome(NormalAll(ts), f) == OnWire(ts, f)
  {
    hide FirstSome;
    WireAlike(ts, f);
    var i := Deciding(ts, f);
    FirstSomeAt(RenamedAll(ts), f, if i.Some? then i.value else |ts|);
  }

  /** A reader finds the same value before and after the wire exactly when its deciding tag allows it. */
  lemma ReaderSurvivesIff(ts: seq<Tag>, f: Tag -> Option<nat>)
    requires IgnoresWidth(f) && NeedsGoodNames(f)
    ensures FirstSome(NormalAll(ts), f) == FirstSome(ts, f) <==> ReaderSurvives(ts, f)
  {
    hide FirstSome, NormalAll, IgnoresWidth;
    OnWireIs(ts, f);
    WellNamedRead(ts, f);
  }

  /** What `f` finds now when the deciding tag is well named or missing. */
  lemma WellNamedRead(ts: seq<Tag>, f: Tag -> Option<nat>)
    requires NeedsGoodNames(f)
    ensures Deciding(ts, f).None? ==> FirstSome(ts, f) == None
    ensures Deciding(ts, f).Some? && !Misnamed(ts[Deciding(ts, f).value]) ==> FirstSome(ts, f) == OnWire(ts, f)
  {
    hide FirstSome;
    var i := Deciding(ts, f);
    var n := if i.Some? then i.value else |ts|;
    forall j | 0 <= j < n ensures f(ts[j]).None? {
      assert f(Renamed(ts[j])).None?;
      if !Misnamed(ts[j]) { assert Renamed(ts[j]) == ts[j]; }
    }
    if i.None? || !Misnamed(ts[n]) {
      if i.Some? { assert Renamed(ts[n]) == ts[n]; }
      FirstSomeAt(ts, f, n);
    }
  }

  lemma SizeReaders(acceptBlob: bool)
    ensures IgnoresWidth(WholeSize(acceptBlob)) && NeedsGoodNames(WholeSize(acceptBlob))
    ensures IgnoresWidth(HalfSize(FILESIZE)) && NeedsGoodNames(HalfSize(FILESIZE))
    ensures IgnoresWidth(HalfSize(FILESIZE_HI)) && NeedsGoodNames(HalfSize(FILESIZE_HI))
  {
    WholeIgnoresWidth(acceptBlob);
    HalfIgnoresWidth(FILESIZE);
    HalfIgnoresWidth(FILESIZE_HI);
  }

  /** As a number, where a missing high half is zero. */
  function OrZero(v: Option<nat>): nat { if v.Some? then v.value else 0 }

  predicate HighSurvives(ts: seq<Tag>)
  {
    match Deciding(ts, HalfSize(FILESIZE_HI))
    case Some(i) =>
      !Misnamed(ts[i]) || OrZero(FirstSome(ts, HalfSize(FILESIZE_HI))) == OrZero(HalfSize(FILESIZE_HI)(Renamed(ts[i])))
    case None => true
  }

  /** The tag deciding the whole size is well named or repeats the size read now; without such a tag the same
      holds of the low half, and of the high half if there is a low one. */
  predicate SizeSurvives(ts: seq<Tag>, acceptBlob: bool)
  {
    match Deciding(ts, WholeSize(acceptBlob))
    case Some(i) => !Misnamed(ts[i]) || FileSize(ts, acceptBlob) == WholeSize(acceptBlob)(Renamed(ts[i]))
    case None =>
      && ReaderSurvives(ts, HalfSize(FILESIZE))
      && (Deciding(ts, HalfSize(FILESIZE)).Some? ==> HighSurvives(ts))
  }

  function SizeOnWire(ts: seq<Tag>, acceptBlob: bool): Option<nat>
  {
    Combine(OnWire(ts, WholeSize(acceptBlob)), OnWire(ts, HalfSize(FILESIZE)), OnWire(ts, HalfSize(FILESIZE_HI)))
  }

  lemma SizeOnWireIs(ts: seq<Tag>, acceptBlob: bool)
    ensures FileSize(NormalAll(ts), acceptBlob) == SizeOnWire(ts, acceptBlob)
  {
    hide FirstSome, WholeSize, HalfSize, NormalAll, OnWire, IgnoresWidth, NeedsGoodNames;
    SizeReaders(acceptBlob);
    OnWireIs(ts, WholeSize(acceptBlob));
    OnWireIs(ts, HalfSize(FILESIZE));
    OnWireIs(ts, HalfSize(FILESIZE_HI));
  }

  lemma {:induction false} HalfFits(ts: seq<Tag>, name: byte)
    ensures OrZero(FirstSome(ts, HalfSize(name))) < 0x1_0000_0000
  {
    if ts != [] { HalfFits(ts[..|ts| - 1], name); }
  }

  lemma WireHalfFits(ts: seq<Tag>, name: byte)
    ensures OrZero(OnWire(ts, HalfSize(name))) < 0x1_0000_0000
  {
  }

  lemma HighSurvivesIff(ts: seq<Tag>)
    ensures HighSurvives(ts) <==>
              OrZero(FirstSome(ts, HalfSize(FILESIZE_HI))) == OrZero(OnWire(ts, HalfSize(FILESIZE_HI)))
  {
    hide FirstSome, HalfSize, IgnoresWidth, NeedsGoodNames;
    SizeReaders(true);
    WellNamedRead(ts, HalfSize(FILESIZE_HI));
  }

  lemma SizeSurvivesIff(ts: seq<Tag>, acceptBlob: bool)
    ensures FileSize(NormalAll(ts), acceptBlob) == FileSize(ts, acceptBlob) <==> SizeSurvives(ts, acceptBlob)
  {
    hide FirstSome, WholeSize, HalfSize, NormalAll, HighSurvives, IgnoresWidth, NeedsGoodNames;
    SizeReaders(acceptBlob);
    SizeOnWireIs(ts, acceptBlob);
    WellNamedRead(ts, WholeSize(acceptBlob));
    WellNamedRead(ts, HalfSize(FILESIZE));
    HighSurvivesIff(ts);
    HalfFits(ts, FILESIZE);
    WireHalfFits(ts, FILESIZE);
  }

  /** Narrowing integers never changes the stated size; crossing the wire changes it exactly as renaming
      one-byte long names does, and leaves it alone exactly under `SizeSurvives`. */
  lemma FileSizeAcrossWire(ts: seq<Tag>, acceptBlob: bool)
    ensures FileSize(NormalAll(ts), acceptBlob) == FileSize(RenamedAll(ts), acceptBlob)
    ensures FileSize(NormalAll(ts), acceptBlob) == FileSize(ts, acceptBlob) <==> SizeSurvives(ts, acceptBlob)
    ensures WellNamed(ts) ==> SizeSurvives(ts, acceptBlob)
  {
    hide FirstSome, WholeSize, HalfSize, WellNamed, NormalAll, RenamedAll, SizeSurvives;
    WellNamedIff(ts);
    WireAlike(ts, WholeSize(acceptBlob)) by { WholeIgnoresWidth(acceptBlob); }
    WireAlike(ts, HalfSize(FILESIZE)) by { HalfIgnoresWidth(FILESIZE); }
    WireAlike(ts, HalfSize(FILESIZE_HI)) by { HalfIgnoresWidth(FILESIZE_HI); }
    SizeSurvivesIff(ts, acceptBlob);
  }

  /** Without that condition the size can appear on the wire: a one-byte long name is ignored before encoding
      and read as the file size after it. */
  lemma MisnamedSizeAppears(n: u64, acceptBlob: bool)
    ensures FileSize([Tag(Long([FILESIZE]), U64(n))], acceptBlob) == None
    ensures FileSize(NormalAll([Tag(Long([FILESIZE]), U64(n))]), acceptBlob) == Some(n)
  {
    var ts := [Tag(Long([FILESIZE]), U64(n))];
    assert FirstSome(ts[..0], WholeSize(acceptBlob)) == None && FirstSome(ts[..0], HalfSize(FILESIZE)) == None;
    var us := NormalAll(ts);
    assert us[0] == Tag(Short(FILESIZE), U64(n));
    assert FirstSome(us[..0], WholeSize(acceptBlob)) == None;
  }
}

/** Restrictive search expressions: `crates/overlord-agent-emule/src/kad_search_expr.rs`. Case folding is a
    parameter. */
module SearchExpressions {
  import opened Common
  import opened Tags
  import opened FileSizes

  const MAX_SEARCH_EXPR_DEPTH := 24

  const QUOTE: byte := 0x22
  const DOT: byte := 0x2E

  const SEPARATORS: set<byte> :=
    {0x20, 0x28, 0x29, 0x5B, 0x5D, 0x7B, 0x7D, 0x3C, 0x3E, 0x2C,
     0x2E, 0x5F, 0x2D, 0x21, 0x3F, 0x3A, 0x3B, 0x5C, 0x2F, 0x22}

  datatype NumericOp = Equal | Greater | Less | GreaterEqual | LessEqual | NotEqual

  datatype BoolOp = AndOp | OrOp | NotOp

  datatype Term =
    | Combined(op: BoolOp, left: Term, right: Term)
    | Words(words: seq<Bytes>)
    | MetaString(name: TagName, value: Bytes)
    | Numeric(name: TagName, cmp: NumericOp, number: nat)

  type Fold = Bytes -> Bytes

  // ---- the tokenizer ---------------------------------------------------------------------------------------

  predicate IsQuote(b: byte) { b == QUOTE }

  predicate IsSeparator(b: byte) { b in SEPARATORS }

  /** First index from `i` on whose byte stops the scan, or the length. */
  function ScanTo(v: Bytes, i: nat, stop: byte -> bool): (r: nat)
    requires i <= |v|
    ensures i <= r <= |v|
    ensures forall k :: i <= k < r ==> !stop(v[k])
    ensures r < |v| ==> stop(v[r])
    decreases |v| - i
  {
    if i == |v| || stop(v[i]) then i else ScanTo(v, i + 1, stop)
  }

  /** Where the token starting at `index` begins and ends, and where to go on. */
  datatype Step = Step(start: nat, end: nat, emits: bool, next: nat)

  function TokenStep(v: Bytes, index: nat): (r: Step)
    requires index < |v|
    ensures index < r.next <= |v| && r.start <= r.end <= |v|
  {
    if v[index] == QUOTE then
      var end := ScanTo(v, index + 1, IsQuote);
      Step(index + 1, end, end < |v| && end > index + 1, if end < |v| then end + 1 else end)
    else
      var end := ScanTo(v, index, IsSeparator);
      Step(index, end, end > index, if end == |v| || v[end] == QUOTE then end else end + 1)
  }

  function TokensFrom(v: Bytes, index: nat): seq<Bytes>
    requires index <= |v|
    decreases |v| - index
  {
    if index == |v| then []
    else
      var s := TokenStep(v, index);
      (if s.emits then [v[s.start..s.end]] else []) + TokensFrom(v, s.next)
  }

  function Tokens(v: Bytes): seq<Bytes> { TokensFrom(v, 0) }

  method Scan(v: Bytes, start: nat, stop: byte -> bool) returns (index: nat)
    requires start <= |v|
    ensures index == ScanTo(v, start, stop)
  {
    index := start;
    while index < |v| && !stop(v[index])
      invariant start <= index <= |v|
      invariant ScanTo(v, start, stop) == ScanTo(v, index, stop)
    {
      index := index + 1;
    }
  }

  method NextToken(v: Bytes, from: nat) returns (emitted: seq<Bytes>, index: nat)
    requires from < |v|
    ensures var s := TokenStep(v, from);
            index == s.next && emitted == if s.emits then [v[s.start..s.end]] else []
  {
    hide IsSeparator, IsQuote, ScanTo;
    emitted := [];
    if v[from] == QUOTE {
      var start := from + 1;
      index := Scan(v, start, IsQuote);
      if index < |v| && index > start { emitted := [v[start..index]]; }
      if index < |v| { index := index + 1; }
    } else {
      var start := from;
      index := Scan(v, start, IsSeparator);
      if index > start { emitted := [v[start..index]]; }
      if index < |v| && v[index] != QUOTE { index := index + 1; }
    }
  }

  method Tokenize(v: Bytes) returns (terms: seq<Bytes>)
    ensures terms == Tokens(v)
  {
    hide TokenStep;
    terms := [];
    var index := 0;
    while index < |v|
      invariant 0 <= index <= |v|
      invariant Tokens(v) == terms + TokensFrom(v, index)
      decreases |v| - index
    {
      var emitted, next := NextToken(v, index);
      assert terms + (emitted + TokensFrom(v, next)) == terms + emitted + TokensFrom(v, next);
      terms := terms + emitted;
      index := next;
    }
  }

  predicate OccursAt(v: Bytes, i: nat, t: Bytes) { i + |t| <= |v| && v[i..i + |t|] == t }

  /** A non-empty, quote-free stretch of the input. */
  ghost predicate Stretch(v: Bytes, t: Bytes) { t != [] && QUOTE !in t && exists i :: OccursAt(v, i, t) }

  lemma StepEmitsStretch(v: Bytes, index: nat)
    requires index < |v| && TokenStep(v, index).emits
    ensures Stretch(v, v[TokenStep(v, index).start..TokenStep(v, index).end])
  {
    var s := TokenStep(v, index);
    var t := v[s.start..s.end];
    assert OccursAt(v, s.start, t);
    forall k | 0 <= k < |t| ensures t[k] != QUOTE { assert t[k] == v[s.start + k]; }
  }

  /** Every token is a non-empty, quote-free stretch of the input. */
  lemma {:induction false} TokensAreStretches(v: Bytes, index: nat)
    requires index <= |v|
    ensures forall t :: t in TokensFrom(v, index) ==> Stretch(v, t)
    decreases |v| - index
  {
    hide TokenStep, Stretch;
    if index < |v| {
      TokensAreStretches(v, TokenStep(v, index).next);
      if TokenStep(v, index).emits { StepEmitsStretch(v, index); }
    }
  }

  predicate PlainWord(w: Bytes) { w != [] && forall i :: 0 <= i < |w| ==> !IsSeparator(w[i]) }

  function Join(ws: seq<Bytes>): Bytes
  {
    if ws == [] then [] else if |ws| == 1 then ws[0] else ws[0] + [0x20] + Join(ws[1..])
  }

  /** A plain word is one token, and scanning resumes after the space that follows it. */
  lemma WordStep(pre: Bytes, w: Bytes, post: Bytes)
    requires PlainWord(w) && (post != [] ==> post[0] == 0x20)
    ensures TokenStep(pre + w + post, |pre|)
            == Step(|pre|, |pre| + |w|, true, if post == [] then |pre| + |w| else |pre| + |w| + 1)
  {
    var v := pre + w + post;
    var r := ScanTo(v, |pre|, IsSeparator);
    forall k | |pre| <= k < |pre| + |w| ensures !IsSeparator(v[k]) && v[k] != QUOTE { assert v[k] == w[k - |pre|]; }
    assert post != [] ==> v[|pre| + |w|] == 0x20;
    assert IsSeparator(0x20);
  }

  lemma {:induction false} TokensAfter(pre: Bytes, ws: seq<Bytes>)
    requires forall i :: 0 <= i < |ws| ==> PlainWord(ws[i])
    ensures TokensFrom(pre + Join(ws), |pre|) == ws
    decreases |ws|
  {
    hide TokenStep, PlainWord;
    var v := pre + Join(ws);
    if ws != [] {
      var post := if |ws| == 1 then [] else [0x20] + Join(ws[1..]);
      assert v == pre + ws[0] + post;
      WordNotEmpty(ws[0]);
      WordStep(pre, ws[0], post);
      assert v[|pre|..|pre| + |ws[0]|] == ws[0];
      if |ws| == 1 {
        assert TokensFrom(v, |v|) == [];
      } else {
        var pre' := pre + ws[0] + [0x20];
        assert v == pre' + Join(ws[1..]);
        TokensAfter(pre', ws[1..]);
        assert ws == [ws[0]] + ws[1..];
      }
    }
  }

  lemma WordNotEmpty(w: Bytes)
    requires PlainWord(w)
    ensures w != []
  {
  }

  /** Splitting a space-separated list of plain words gives the words back. */
  lemma TokensOfWords(ws: seq<Bytes>)
    requires forall i :: 0 <= i < |ws| ==> PlainWord(ws[i])
    ensures Tokens(Join(ws)) == ws
  {
    TokensAfter([], ws);
    assert [] + Join(ws) == Join(ws);
  }

  // ---- the parser ----------------------------------------------------------------------------------------------

  type Parsed<T> = Option<(T, Bytes)>

  function ReadTagName(b: Bytes): Parsed<TagName>
  {
    match ReadSized(b, 2)
    case Err(_) => None
    case Ok((text, rest)) => Some((if |text| == 1 then Short(text[0]) else Long(text), rest))
  }

  function ReadLowerString(b: Bytes, fold: Fold): Parsed<Bytes>
  {
    match ReadSized(b, 2)
    case Err(_) => None
    case Ok((text, rest)) => Some((fold(text), rest))
  }

  function NumericOpOf(code: byte): Option<NumericOp>
  {
    match code
    case 0 => Some(Equal)
    case 1 => Some(Greater)
    case 2 => Some(Less)
    case 3 => Some(GreaterEqual)
    case 4 => Some(LessEqual)
    case 5 => Some(NotEqual)
    case _ => None
  }

  function BoolOpOf(code: byte): Option<BoolOp>
  {
    match code
    case 0 => Some(AndOp)
    case 1 => Some(OrOp)
    case 2 => Some(NotOp)
    case _ => None
  }

  function ParseNumeric(b: Bytes, value: nat): Parsed<Term>
  {
    if b == [] || NumericOpOf(b[0]).None? then None
    else
      match ReadTagName(b[1..])
      case None => None
      case Some((name, rest)) => Some((Numeric(name, NumericOpOf(b[0]).value, value), rest))
  }

  function ParseSizedNumeric(b: Bytes, width: nat): Parsed<Term>
  {
    match ReadInt(b, width)
    case Err(_) => None
    case Ok((n, rest)) => ParseNumeric(rest, n)
  }

  function ParseMeta(b: Bytes, fold: Fold): Parsed<Term>
  {
    match ReadLowerString(b, fold)
    case None => None
    case Some((value, rest)) =>
      match ReadTagName(rest)
      case None => None
      case Some((name, rest')) => Some((MetaString(name, value), rest'))
  }

  function ParseString(b: Bytes, fold: Fold): Parsed<Term>
  {
    match ReadLowerString(b, fold)
    case None => None
    case Some((value, rest)) => Some((Words(Tokens(value)), rest))
  }

  function ParseTerm(b: Bytes, depth: nat, fold: Fold): Parsed<Term>
    decreases Max(0, MAX_SEARCH_EXPR_DEPTH - depth), 1
  {
    if depth >= MAX_SEARCH_EXPR_DEPTH || b == [] then None
    else if b[0] == 0x00 then ParseBoolean(b[1..], depth + 1, fold)
    else if b[0] == 0x01 then ParseString(b[1..], fold)
    else if b[0] == 0x02 then ParseMeta(b[1..], fold)
    else if b[0] == 0x03 then ParseSizedNumeric(b[1..], 4)
    else if b[0] == 0x08 then ParseSizedNumeric(b[1..], 8)
    else None
  }

  /** Both operands are parsed before the operator byte is judged. */
  function ParseBoolean(b: Bytes, depth: nat, fold: Fold): Parsed<Term>
    decreases Max(0, MAX_SEARCH_EXPR_DEPTH - depth), 2
  {
    if b == [] then None
    else
      match ParseTerm(b[1..], depth, fold)
      case None => None
      case Some((left, rest)) =>
        match ParseTerm(rest, depth, fold)
        case None => None
        case Some((right, rest')) =>
          if BoolOpOf(b[0]).None? then None else Some((Combined(BoolOpOf(b[0]).value, left, right), rest'))
  }

  // ---- the encoder of the request side --------------------------------------------------------------------------

  datatype Request =
    | BoolRequest(op: BoolOp, left: Request, right: Request)
    | StringRequest(text: Bytes)
    | MetaRequest(text: Bytes, name: TagName)
    | NumericRequest(number: u64, wide: bool, cmp: NumericOp, name: TagName)

  predicate Sendable(r: Request)
  {
    match r
    case BoolRequest(_, left, right) => Sendable(left) && Sendable(right)
    case StringRequest(text) => |text| < 0x1_0000
    case MetaRequest(text, name) => |text| < 0x1_0000 && EncodableName(name)
    case NumericRequest(number, wide, _, name) => (wide || number < 0x1_0000_0000) && EncodableName(name)
  }

  function BoolCode(op: BoolOp): byte { match op case AndOp => 0 case OrOp => 1 case NotOp => 2 }

  function NumericCode(cmp: NumericOp): byte
  {
    match cmp
    case Equal => 0
    case Greater => 1
    case Less => 2
    case GreaterEqual => 3
    case LessEqual => 4
    case NotEqual => 5
  }

  function Encode(r: Request): Bytes
    requires Sendable(r)
  {
    match r
    case BoolRequest(op, left, right) => [0x00, BoolCode(op)] + Encode(left) + Encode(right)
    case StringRequest(text) => [0x01] + Le(|text|, 2) + text
    case MetaRequest(text, name) => [0x02] + Le(|text|, 2) + text + WriteName(name)
    case NumericRequest(number, wide, cmp, name) =>
      [if wide then 0x08 else 0x03] + Le(number, if wide then 8 else 4) + [NumericCode(cmp)] + WriteName(name)
  }

  /** The term a request means. */
  function Compile(r: Request, fold: Fold): Term
  {
    match r
    case BoolRequest(op, left, right) => Combined(op, Compile(left, fold), Compile(right, fold))
    case StringRequest(text) => Words(Tokens(fold(text)))
    case MetaRequest(text, name) => MetaString(NormalName(name), fold(text))
    case NumericRequest(number, _, cmp, name) => Numeric(NormalName(name), cmp, number)
  }

  function Height(r: Request): nat
  {
    if r.BoolRequest? then 1 + Max(Height(r.left), Height(r.right)) else 0
  }

  lemma NameParses(name: TagName, rest: Bytes)
    requires EncodableName(name)
    ensures ReadTagName(WriteName(name) + rest) == Some((NormalName(name), rest))
  {
    NameRoundTrip(name, rest);
  }

  lemma StringParses(text: Bytes, rest: Bytes, fold: Fold)
    requires |text| < 0x1_0000
    ensures ReadLowerString(Le(|text|, 2) + text + rest, fold) == Some((fold(text), rest))
  {
    Widths();
    ReadSizedAppend(text, 2, rest);
  }

  lemma NumericParses(number: u64, width: nat, cmp: NumericOp, name: TagName, rest: Bytes)
    requires EncodableName(name) && number < Pow256(width)
    ensures ParseSizedNumeric(Le(number, width) + [NumericCode(cmp)] + WriteName(name) + rest, width)
            == Some((Numeric(NormalName(name), cmp, number), rest))
  {
    hide Le, ReadInt, WriteName, ReadTagName;
    var tail := [NumericCode(cmp)] + (WriteName(name) + rest);
    assert Le(number, width) + [NumericCode(cmp)] + WriteName(name) + rest == Le(number, width) + tail;
    ReadIntAppend(number, width, tail);
    assert tail[1..] == WriteName(name) + rest;
    NameParses(name, rest);
  }

  lemma StringTermParses(text: Bytes, rest: Bytes, depth: nat, fold: Fold)
    requires |text| < 0x1_0000 && depth < MAX_SEARCH_EXPR_DEPTH
    ensures ParseTerm([0x01] + Le(|text|, 2) + text + rest, depth, fold) == Some((Words(Tokens(fold(text))), rest))
  {
    hide Le, ReadLowerString, Tokens;
    var b := [0x01] + Le(|text|, 2) + text + rest;
    StringParses(text, rest, fold);
    assert b[1..] == Le(|text|, 2) + text + rest;
  }

  lemma MetaTermParses(text: Bytes, name: TagName, rest: Bytes, depth: nat, fold: Fold)
    requires |text| < 0x1_0000 && EncodableName(name) && depth < MAX_SEARCH_EXPR_DEPTH
    ensures ParseTerm([0x02] + Le(|text|, 2) + text + WriteName(name) + rest, depth, fold)
            == Some((MetaString(NormalName(name), fold(text)), rest))
  {
    hide Le, ReadLowerString, WriteName, ReadTagName, NormalName;
    var b := [0x02] + Le(|text|, 2) + text + WriteName(name) + rest;
    StringParses(text, WriteName(name) + rest, fold);
    NameParses(name, rest);
    assert b[1..] == Le(|text|, 2) + text + (WriteName(name) + rest);
  }

  lemma NumericTermParses(number: u64, wide: bool, cmp: NumericOp, name: TagName, rest: Bytes, depth: nat, fold: Fold)
    requires (wide || number < 0x1_0000_0000) && EncodableName(name) && depth < MAX_SEARCH_EXPR_DEPTH
    ensures var width := if wide then 8 else 4;
            ParseTerm([if wide then 0x08 else 0x03] + Le(number, width) + [NumericCode(cmp)] + WriteName(name) + rest,
                      depth, fold)
            == Some((Numeric(NormalName(name), cmp, number), rest))
  {
    hide Le, ParseSizedNumeric, WriteName, NormalName, NumericCode;
    Widths();
    var width := if wide then 8 else 4;
    var b := [if wide then 0x08 else 0x03] + Le(number, width) + [NumericCode(cmp)] + WriteName(name) + rest;
    NumericParses(number, width, cmp, name, rest);
    assert b[1..] == Le(number, width) + [NumericCode(cmp)] + WriteName(name) + rest;
  }

  lemma LeafParses(r: Request, rest: Bytes, depth: nat, fold: Fold)
    requires Sendable(r) && !r.BoolRequest? && depth < MAX_SEARCH_EXPR_DEPTH
    ensures ParseTerm(Encode(r) + rest, depth, fold) == Some((Compile(r, fold), rest))
  {
    hide ParseTerm, Le, WriteName, NormalName, NumericCode, Tokens;
    match r
    case StringRequest(text) => StringTermParses(text, rest, depth, fold);
    case MetaRequest(text, name) => MetaTermParses(text, name, rest, depth, fold);
    case NumericRequest(number, wide, cmp, name) => NumericTermParses(number, wide, cmp, name, rest, depth, fold);
  }

  lemma BooleanBytes(code: byte, l: Bytes, r: Bytes, rest: Bytes)
    ensures [0x00, code] + l + r + rest == [0x00, code] + (l + (r + rest))
  {
  }

  lemma TwoByteHead(code: byte, tail: Bytes)
    ensures var b := [0x00, code] + tail;
            |b| >= 2 && b[0] == 0x00 && b[1..] != [] && b[1..][0] == code && b[1..][1..] == tail
  {
  }

  lemma BooleanEncoding(r: Request, rest: Bytes)
    requires Sendable(r) && r.BoolRequest?
    ensures var b := Encode(r) + rest;
            && |b| >= 2 && b[0] == 0x00 && b[1..] != [] && b[1..][0] == BoolCode(r.op)
            && b[1..][1..] == Encode(r.left) + (Encode(r.right) + rest)
  {
    hide BoolCode;
    BooleanBytes(BoolCode(r.op), Encode(r.left), Encode(r.right), rest);
    TwoByteHead(BoolCode(r.op), Encode(r.left) + (Encode(r.right) + rest));
  }

  lemma BooleanStep(b: Bytes, depth: nat, fold: Fold)
    requires b != [] && b[0] == 0x00 && depth < MAX_SEARCH_EXPR_DEPTH
    ensures ParseTerm(b, depth, fold) == ParseBoolean(b[1..], depth + 1, fold)
  {
  }

  lemma TooDeep(b: Bytes, depth: nat, fold: Fold)
    requires depth >= MAX_SEARCH_EXPR_DEPTH
    ensures ParseTerm(b, depth, fold) == None
  {
  }

  /** The parser inverts the encoder on every request of boolean height at most 23, consuming exactly its
      bytes, and rejects every taller one. */
  lemma {:induction false} ParseEncoded(r: Request, rest: Bytes, depth: nat, fold: Fold)
    requires Sendable(r)
    ensures ParseTerm(Encode(r) + rest, depth, fold)
            == if depth + Height(r) < MAX_SEARCH_EXPR_DEPTH then Some((Compile(r, fold), rest)) else None
  {
    hide ParseTerm, ParseBoolean, Encode, Compile;
    if depth >= MAX_SEARCH_EXPR_DEPTH {
      TooDeep(Encode(r) + rest, depth, fold);
    } else if r.BoolRequest? {
      var b := Encode(r) + rest;
      BooleanEncoding(r, rest);
      BooleanStep(b, depth, fold);
      ParseEncoded(r.left, Encode(r.right) + rest, depth + 1, fold);
      ParseEncoded(r.right, rest, depth + 1, fold);
      BooleanParses(r, b[1..], b[1..][1..], rest, depth + 1, fold);
    } else {
      LeafParses(r, rest, depth, fold);
    }
  }

  lemma BooleanParses(r: Request, b: Bytes, tail: Bytes, rest: Bytes, depth: nat, fold: Fold)
    requires r.BoolRequest? && Sendable(r) && b != [] && b[0] == BoolCode(r.op) && b[1..] == tail
    requires ParseTerm(tail, depth, fold)
             == if depth + Height(r.left) < MAX_SEARCH_EXPR_DEPTH
                then Some((Compile(r.left, fold), Encode(r.right) + rest)) else None
    requires ParseTerm(Encode(r.right) + rest, depth, fold)
             == if depth + Height(r.right) < MAX_SEARCH_EXPR_DEPTH then Some((Compile(r.right, fold), rest)) else None
    ensures ParseBoolean(b, depth, fold)
            == if depth + Height(r) <= MAX_SEARCH_EXPR_DEPTH then Some((Compile(r, fold), rest)) else None
  {
    hide ParseTerm, Encode;
  }

  // ---- only encodings parse -------------------------------------------------------------------------------------

  lemma ReadNameInverse(b: Bytes)
    ensures var r := ReadTagName(b);
            r.Some? ==> EncodableName(r.value.0) && NormalName(r.value.0) == r.value.0
                        && b == WriteName(r.value.0) + r.value.1
  {
    hide ReadSized, Le;
    Widths();
    ReadSizedInverse(b, 2);
  }

  /** `r` is a request whose encoding, followed by `rest`, is `b`, and which means `t`. */
  ghost predicate Stands(r: Request, b: Bytes, t: Term, rest: Bytes, fold: Fold)
  {
    Sendable(r) && b == Encode(r) + rest && Compile(r, fold) == t
  }

  lemma FourParts(a: Bytes, b: Bytes, c: Bytes, d: Bytes, rest: Bytes)
    ensures a + (b + (c + (d + rest))) == a + b + c + d + rest
  {
  }

  lemma Regroup(a: Bytes, b: Bytes, c: Bytes)
    ensures a + b + c == a + (b + c)
  {
  }

  lemma StringStands(text: Bytes, rest: Bytes, fold: Fold)
    requires |text| < 0x1_0000
    ensures Stands(StringRequest(text), [0x01] + (Le(|text|, 2) + text + rest), Words(Tokens(fold(text))), rest, fold)
  {
    hide Le, Tokens;
    ThreeParts([0x01], Le(|text|, 2), text, rest);
  }

  lemma ThreeParts(a: Bytes, b: Bytes, c: Bytes, rest: Bytes)
    ensures a + (b + c + rest) == a + b + c + rest
  {
  }

  lemma StringInverse(b: Bytes, fold: Fold) returns (r: Request)
    requires ParseString(b, fold).Some?
    ensures r.StringRequest? && Stands(r, [0x01] + b, ParseString(b, fold).value.0, ParseString(b, fold).value.1, fold)
  {
    hide ReadSized, Le, Tokens, Stands;
    Widths();
    ReadSizedInverse(b, 2);
    var (text, rest) := ReadSized(b, 2).value;
    r := StringRequest(text);
    StringStands(text, rest, fold);
  }

  lemma MetaStands(text: Bytes, name: TagName, rest: Bytes, fold: Fold)
    requires |text| < 0x1_0000 && EncodableName(name)
    ensures Stands(MetaRequest(text, name), [0x02] + (Le(|text|, 2) + text + (WriteName(name) + rest)),
                   MetaString(NormalName(name), fold(text)), rest, fold)
  {
    hide Le, WriteName;
    FourParts([0x02], Le(|text|, 2), text, WriteName(name), rest);
    Regroup(Le(|text|, 2), text, WriteName(name) + rest);
  }

  lemma MetaInverse(b: Bytes, fold: Fold) returns (r: Request)
    requires ParseMeta(b, fold).Some?
    ensures r.MetaRequest? && Stands(r, [0x02] + b, ParseMeta(b, fold).value.0, ParseMeta(b, fold).value.1, fold)
  {
    hide ReadSized, Le, ReadTagName, WriteName, Stands, NormalName;
    Widths();
    ReadSizedInverse(b, 2);
    var (text, mid) := ReadSized(b, 2).value;
    ReadNameInverse(mid);
    var (name, rest) := ReadTagName(mid).value;
    r := MetaRequest(text, name);
    MetaStands(text, name, rest, fold);
  }

  lemma NumericCodeInverse(code: byte)
    ensures NumericOpOf(code).Some? ==> NumericCode(NumericOpOf(code).value) == code
    ensures BoolOpOf(code).Some? ==> BoolCode(BoolOpOf(code).value) == code
  {
  }

  lemma NumericStands(number: u64, wide: bool, cmp: NumericOp, name: TagName, rest: Bytes, fold: Fold)
    requires (wide || number < 0x1_0000_0000) && EncodableName(name)
    ensures var digits := Le(number, if wide then 8 else 4);
            Stands(NumericRequest(number, wide, cmp, name),
                   [if wide then 0x08 else 0x03] + (digits + ([NumericCode(cmp)] + (WriteName(name) + rest))),
                   Numeric(NormalName(name), cmp, number), rest, fold)
  {
    hide Le, WriteName, NumericCode;
    FourParts([if wide then 0x08 else 0x03], Le(number, if wide then 8 else 4), [NumericCode(cmp)],
              WriteName(name), rest);
  }

  lemma NumericTailInverse(b: Bytes, value: nat)
    ensures var r := ParseNumeric(b, value);
            r.Some? ==>
              && r.value.0.Numeric? && r.value.0.number == value
              && EncodableName(r.value.0.name) && NormalName(r.value.0.name) == r.value.0.name
              && b == [NumericCode(r.value.0.cmp)] + (WriteName(r.value.0.name) + r.value.1)
  {
    hide ReadTagName, WriteName, NumericOpOf, NumericCode, NormalName;
    if ParseNumeric(b, value).Some? {
      ReadNameInverse(b[1..]);
      NumericCodeInverse(b[0]);
      assert b == [b[0]] + b[1..];
    }
  }

  lemma NumericInverse(b: Bytes, wide: bool, fold: Fold) returns (r: Request)
    requires ParseSizedNumeric(b, if wide then 8 else 4).Some?
    ensures var parsed := ParseSizedNumeric(b, if wide then 8 else 4);
            r.NumericRequest? && Stands(r, [if wide then 0x08 else 0x03] + b, parsed.value.0, parsed.value.1, fold)
  {
    hide Le, WriteName, NumericCode, ReadInt, Stands, ParseNumeric, NormalName, Pow256;
    var width := if wide then 8 else 4;
    Widths();
    ReadIntInverse(b, width);
    var (n, mid) := ReadInt(b, width).value;
    NumericTailInverse(mid, n);
    var (term, rest) := ParseNumeric(mid, n).value;
    r := NumericRequest(n, wide, term.cmp, term.name);
    NumericStands(n, wide, term.cmp, term.name, rest, fold);
  }

  lemma LeafInverse(b: Bytes, depth: nat, fold: Fold) returns (r: Request)
    requires ParseTerm(b, depth, fold).Some? && b[0] != 0x00
    ensures !r.BoolRequest?
    ensures Stands(r, b, ParseTerm(b, depth, fold).value.0, ParseTerm(b, depth, fold).value.1, fold)
  {
    hide ParseString, ParseMeta, ParseSizedNumeric, Stands;
    assert b == [b[0]] + b[1..];
    if b[0] == 0x01 {
      r := StringInverse(b[1..], fold);
    } else if b[0] == 0x02 {
      r := MetaInverse(b[1..], fold);
    } else {
      r := NumericInverse(b[1..], b[0] == 0x08, fold);
    }
  }

  lemma BooleanInverse(op: BoolOp, left: Request, right: Request, b: Bytes, mid: Bytes, rest: Bytes, fold: Fold)
    requires |b| >= 2 && b[0] == 0x00 && b[1] == BoolCode(op)
    requires Stands(left, b[2..], Compile(left, fold), mid, fold)
    requires Stands(right, mid, Compile(right, fold), rest, fold)
    ensures var r := BoolRequest(op, left, right); Stands(r, b, Compile(r, fold), rest, fold)
  {
    hide BoolCode;
    assert b == [0x00, BoolCode(op)] + b[2..];
    BooleanBytes(BoolCode(op), Encode(left), Encode(right), rest);
  }

  /** Whatever the parser accepts is the encoding of some request that fits the nesting limit, and parses to what
      that request means. */
  lemma {:induction false} ParseInverse(b: Bytes, depth: nat, fold: Fold) returns (r: Request)
    requires ParseTerm(b, depth, fold).Some?
    ensures depth + Height(r) < MAX_SEARCH_EXPR_DEPTH
    ensures Stands(r, b, ParseTerm(b, depth, fold).value.0, ParseTerm(b, depth, fold).value.1, fold)
    decreases Max(0, MAX_SEARCH_EXPR_DEPTH - depth)
  {
    hide ParseTerm, ParseBoolean, Stands;
    if depth >= MAX_SEARCH_EXPR_DEPTH { TooDeep(b, depth, fold); }
    NonEmptyParse(b, depth, fold);
    if b[0] == 0x00 {
      BooleanStep(b, depth, fold);
      var mid, rest := BooleanSplit(b[1..], depth + 1, fold);
      var op := BooleanParts(b[1..], depth + 1, fold);
      assert b[1..][1..] == b[2..];
      var left := ParseInverse(b[2..], depth + 1, fold);
      var right := ParseInverse(mid, depth + 1, fold);
      r := BoolRequest(op, left, right);
      StandsFor(left, b[2..], ParseTerm(b[2..], depth + 1, fold).value.0, mid, fold);
      StandsFor(right, mid, ParseTerm(mid, depth + 1, fold).value.0, rest, fold);
      BooleanInverse(op, left, right, b, mid, rest, fold);
    } else {
      r := LeafInverse(b, depth, fold);
    }
  }

  lemma StandsFor(r: Request, b: Bytes, t: Term, rest: Bytes, fold: Fold)
    requires Stands(r, b, t, rest, fold)
    ensures t == Compile(r, fold)
  {
  }

  lemma NonEmptyParse(b: Bytes, depth: nat, fold: Fold)
    ensures ParseTerm(b, depth, fold).Some? ==> b != []
  {
  }

  lemma BooleanParts(b: Bytes, depth: nat, fold: Fold) returns (op: BoolOp)
    requires ParseBoolean(b, depth, fold).Some?
    ensures b != [] && b[0] == BoolCode(op) && ParseTerm(b[1..], depth, fold).Some?
    ensures var (left, mid) := ParseTerm(b[1..], depth, fold).value;
            ParseTerm(mid, depth, fold).Some?
            && ParseBoolean(b, depth, fold).value.0 == Combined(op, left, ParseTerm(mid, depth, fold).value.0)
  {
    hide ParseTerm;
    NumericCodeInverse(b[0]);
    op := BoolOpOf(b[0]).value;
  }

  /** What the parser accepts, exactly: the encodings of the requests of boolean height at most 23, each as what it
      means, with the rest of the payload left over. */
  lemma ParsesIff(b: Bytes, t: Term, rest: Bytes, fold: Fold)
    ensures ParseTerm(b, 0, fold) == Some((t, rest)) <==>
              exists r :: Stands(r, b, t, rest, fold) && Height(r) < MAX_SEARCH_EXPR_DEPTH
  {
    hide ParseTerm;
    if ParseTerm(b, 0, fold) == Some((t, rest)) {
      var r := ParseInverse(b, 0, fold);
    }
    if r :| Stands(r, b, t, rest, fold) && Height(r) < MAX_SEARCH_EXPR_DEPTH {
      ParseEncoded(r, rest, 0, fold);
    }
  }

  /** What the parser leaves unread is a proper suffix of its input: it never reads past the payload. */
  lemma {:induction false} ParseConsumes(b: Bytes, depth: nat, fold: Fold)
    ensures ParseTerm(b, depth, fold).Some? ==> ProperSuffix(ParseTerm(b, depth, fold).value.1, b)
    decreases Max(0, MAX_SEARCH_EXPR_DEPTH - depth)
  {
    hide ParseTerm, ParseBoolean, ProperSuffix;
    if depth >= MAX_SEARCH_EXPR_DEPTH {
      TooDeep(b, depth, fold);
    } else if b != [] && b[0] == 0x00 {
      BooleanStep(b, depth, fold);
      if ParseTerm(b, depth, fold).Some? {
        var mid, rest := BooleanSplit(b[1..], depth + 1, fold);
        ParseConsumes(b[2..], depth + 1, fold);
        ParseConsumes(mid, depth + 1, fold);
        ProperTrans(b, mid, rest);
      }
    } else {
      LeafTermConsumes(b, depth, fold);
    }
  }

  ghost predicate ProperSuffix(s: Bytes, b: Bytes) { |s| < |b| && SuffixOf(s, b) }

  lemma ProperTrans(b: Bytes, mid: Bytes, rest: Bytes)
    requires |b| >= 2 && ProperSuffix(mid, b[2..]) && ProperSuffix(rest, mid)
    ensures ProperSuffix(rest, b)
  {
    SuffixTrans(b, b[2..], mid);
    SuffixTrans(b, mid, rest);
  }

  lemma BooleanSplit(b: Bytes, depth: nat, fold: Fold) returns (mid: Bytes, rest: Bytes)
    requires ParseBoolean(b, depth, fold).Some?
    ensures b != [] && ParseTerm(b[1..], depth, fold).Some? && ParseTerm(b[1..], depth, fold).value.1 == mid
    ensures ParseTerm(mid, depth, fold).Some? && ParseTerm(mid, depth, fold).value.1 == rest
    ensures ParseBoolean(b, depth, fold).value.1 == rest
  {
    hide ParseTerm;
    mid := ParseTerm(b[1..], depth, fold).value.1;
    rest := ParseTerm(mid, depth, fold).value.1;
  }

  lemma LeafTermConsumes(b: Bytes, depth: nat, fold: Fold)
    requires b != [] ==> b[0] != 0x00
    ensures ParseTerm(b, depth, fold).Some? ==> ProperSuffix(ParseTerm(b, depth, fold).value.1, b)
  {
    hide ParseString, ParseMeta, ParseSizedNumeric;
    if ParseTerm(b, depth, fold).Some? {
      LeafConsumes(b[1..], fold);
      SuffixTrans(b, b[1..], ParseTerm(b, depth, fold).value.1);
    }
  }

  lemma LeafConsumes(b: Bytes, fold: Fold)
    ensures ParseString(b, fold).Some? ==> SuffixOf(ParseString(b, fold).value.1, b)
    ensures ParseMeta(b, fold).Some? ==> SuffixOf(ParseMeta(b, fold).value.1, b)
    ensures ParseSizedNumeric(b, 4).Some? ==> SuffixOf(ParseSizedNumeric(b, 4).value.1, b)
    ensures ParseSizedNumeric(b, 8).Some? ==> SuffixOf(ParseSizedNumeric(b, 8).value.1, b)
  {
    hide ReadSized, SuffixOf;
    SizedConsumes(b, 2);
    if ParseMeta(b, fold).Some? {
      var mid := ReadSized(b, 2).value.1;
      SizedConsumes(mid, 2);
      SuffixTrans(b, mid, ParseMeta(b, fold).value.1);
    }
    NumericConsumes(b, 4);
    NumericConsumes(b, 8);
  }

  lemma NumericConsumes(b: Bytes, width: nat)
    ensures ParseSizedNumeric(b, width).Some? ==> SuffixOf(ParseSizedNumeric(b, width).value.1, b)
  {
    if ParseSizedNumeric(b, width).Some? {
      var mid := ReadInt(b, width).value.1;
      var rest := ParseSizedNumeric(b, width).value.1;
      SizedConsumes(mid[1..], 2);
      SuffixTrans(mid, mid[1..], rest);
      SuffixTrans(b, mid, rest);
    }
  }

  // ---- matching ----------------------------------------------------------------------------------------------------

  predicate Occurs(needle: Bytes, hay: Bytes)
  {
    |needle| <= |hay| && (hay[..|needle|] == needle || (hay != [] && Occurs(needle, hay[1..])))
  }

  /** The part after the last dot, if there is a dot. */
  function Extension(name: Bytes): Option<Bytes>
  {
    if name == [] then None
    else
      var n := |name| - 1;
      if name[n] == DOT then Some([])
      else
        match Extension(name[..n])
        case None => None
        case Some(e) => Some(e + [name[n]])
  }

  function IntOf(t: Tag, name: TagName): Option<nat>
  {
    if t.name != name then None
    else match t.value
      case UInt(n) => Some(n)
      case U64(n) => Some(n)
      case U32(n) => Some(n)
      case U16(n) => Some(n)
      case U8(n) => Some(n)
      case _ => None
  }

  function IntTagValue(ts: seq<Tag>, name: TagName): Option<nat>
  {
    if name == Short(FILESIZE) then FileSize(ts, true) else FirstSome(ts, IntReader(name))
  }

  function IntReader(name: TagName): Tag -> Option<nat> { t => IntOf(t, name) }

  predicate Compares(cmp: NumericOp, actual: nat, expected: nat)
  {
    match cmp
    case Equal => actual == expected
    case Greater => actual > expected
    case Less => actual < expected
    case GreaterEqual => actual >= expected
    case LessEqual => actual <= expected
    case NotEqual => actual != expected
  }

  predicate StringTagMatches(t: Tag, name: TagName, value: Bytes, fold: Fold)
  {
    t.name == name && t.value.Str? && fold(t.value.text) == value
  }

  predicate MetaMatches(lowerName: Bytes, ts: seq<Tag>, name: TagName, value: Bytes, fold: Fold)
  {
    if name == Short(FILEFORMAT) then Extension(lowerName) == Some(value)
    else exists i :: 0 <= i < |ts| && StringTagMatches(ts[i], name, value, fold)
  }

  predicate Matches(term: Term, lowerName: Bytes, ts: seq<Tag>, fold: Fold)
  {
    match term
    case Combined(AndOp, l, r) => Matches(l, lowerName, ts, fold) && Matches(r, lowerName, ts, fold)
    case Combined(OrOp, l, r) => Matches(l, lowerName, ts, fold) || Matches(r, lowerName, ts, fold)
    case Combined(NotOp, l, r) => Matches(l, lowerName, ts, fold) && !Matches(r, lowerName, ts, fold)
    case Words(words) => words != [] && forall w :: w in words ==> Occurs(w, lowerName)
    case MetaString(name, value) => MetaMatches(lowerName, ts, name, value, fold)
    case Numeric(name, cmp, number) =>
      IntTagValue(ts, name).Some? && Compares(cmp, IntTagValue(ts, name).value, number)
  }

  /** `matches_restrictive_keyword_payload`: an unparsable payload matches nothing. */
  predicate PayloadMatches(filename: Bytes, ts: seq<Tag>, payload: Bytes, fold: Fold)
  {
    match ParseTerm(payload, 0, fold)
    case None => false
    case Some((term, _)) => Matches(term, fold(filename), ts, fold)
  }

  lemma IntAlike(ts: seq<Tag>, name: TagName)
    ensures IntTagValue(NormalAll(ts), name) == IntTagValue(RenamedAll(ts), name)
  {
    hide FileSize, FirstSome, NormalAll, RenamedAll, IntReader;
    FileSizeAcrossWire(ts, true);
    ReaderIgnoresWidth(name);
    WireAlike(ts, IntReader(name));
  }

  lemma ReaderIgnoresWidth(name: TagName)
    ensures IgnoresWidth(IntReader(name))
  {
  }

  lemma MetaAlike(lowerName: Bytes, ts: seq<Tag>, name: TagName, value: Bytes, fold: Fold)
    ensures MetaMatches(lowerName, NormalAll(ts), name, value, fold)
            == MetaMatches(lowerName, RenamedAll(ts), name, value, fold)
  {
    hide NormalAll, RenamedAll, Extension, Occurs;
    forall i | 0 <= i < |ts|
      ensures StringTagMatches(NormalAll(ts)[i], name, value, fold)
              == StringTagMatches(RenamedAll(ts)[i], name, value, fold)
    {
    }
  }

  /** What a numeric term will find after the wire, read off its deciding tags. */
  function IntOnWire(ts: seq<Tag>, name: TagName): Option<nat>
  {
    if name == Short(FILESIZE) then SizeOnWire(ts, true) else OnWire(ts, IntReader(name))
  }

  lemma IntOnWireIs(ts: seq<Tag>, name: TagName)
    ensures IntTagValue(NormalAll(ts), name) == IntOnWire(ts, name)
  {
    hide FileSize, FirstSome, NormalAll, SizeOnWire, OnWire;
    SizeOnWireIs(ts, true);
    ReaderIgnoresWidth(name);
    if name != Short(FILESIZE) { OnWireIs(ts, IntReader(name)); }
  }

  predicate Holds(v: Option<nat>, cmp: NumericOp, number: nat) { v.Some? && Compares(cmp, v.value, number) }

  /** Some well-named tag already matches, or no misnamed tag will; a name that no decoded tag bears must not
      match now. */
  predicate MetaSurvives(ts: seq<Tag>, name: TagName, value: Bytes, fold: Fold)
  {
    if name == Short(FILEFORMAT) then true
    else if NormalName(name) != name then forall i :: 0 <= i < |ts| ==> !StringTagMatches(ts[i], name, value, fold)
    else
      || (exists i :: 0 <= i < |ts| && StringTagMatches(ts[i], name, value, fold))
      || (forall i :: 0 <= i < |ts| && Misnamed(ts[i]) ==> !StringTagMatches(Renamed(ts[i]), name, value, fold))
  }

  /** Read off the tags before they are sent: a changed operand must be outweighed by the other one. */
  predicate MatchSurvives(term: Term, lowerName: Bytes, ts: seq<Tag>, fold: Fold)
  {
    match term
    case Words(_) => true
    case MetaString(name, value) => MetaSurvives(ts, name, value, fold)
    case Numeric(name, cmp, number) =>
      Holds(IntTagValue(ts, name), cmp, number) == Holds(IntOnWire(ts, name), cmp, number)
    case Combined(op, l, r) =>
      OperandsSurvive(op, Matches(l, lowerName, ts, fold), Matches(r, lowerName, ts, fold),
                      MatchSurvives(l, lowerName, ts, fold), MatchSurvives(r, lowerName, ts, fold))
  }

  /** `l` and `r` are the operands' results now, `keepsL` and `keepsR` whether they stay. */
  predicate OperandsSurvive(op: BoolOp, l: bool, r: bool, keepsL: bool, keepsR: bool)
  {
    if keepsL && keepsR then true
    else if keepsL then (if op == OrOp then l else !l)
    else if keepsR then (if op == AndOp then !r else r)
    else if op == NotOp then l == r
    else l != r
  }

  lemma MetaSurvivesIff(lowerName: Bytes, ts: seq<Tag>, name: TagName, value: Bytes, fold: Fold)
    ensures MetaMatches(lowerName, NormalAll(ts), name, value, fold) == MetaMatches(lowerName, ts, name, value, fold)
            <==> MetaSurvives(ts, name, value, fold)
  {
    MetaAlike(lowerName, ts, name, value, fold);
    var us := RenamedAll(ts);
    forall i | 0 <= i < |ts|
      ensures StringTagMatches(us[i], name, value, fold) == StringTagMatches(Renamed(ts[i]), name, value, fold)
      ensures !Misnamed(ts[i]) ==> us[i] == ts[i]
    {
    }
  }

  /** A match result survives the wire exactly when the tags say so beforehand. */
  lemma {:induction false} MatchSurvivesIff(term: Term, lowerName: Bytes, ts: seq<Tag>, fold: Fold)
    ensures Matches(term, lowerName, NormalAll(ts), fold) == Matches(term, lowerName, ts, fold)
            <==> MatchSurvives(term, lowerName, ts, fold)
  {
    hide NormalAll, IntOnWire, IntTagValue, MetaSurvives, MetaMatches, Occurs;
    match term
    case Combined(op, l, r) =>
      MatchSurvivesIff(l, lowerName, ts, fold);
      MatchSurvivesIff(r, lowerName, ts, fold);
    case Words(_) =>
    case MetaString(name, value) => MetaSurvivesIff(lowerName, ts, name, value, fold);
    case Numeric(name, _, _) => IntOnWireIs(ts, name);
  }

  /** Sending tags over the wire changes a match result only as renaming one-byte long names would, and leaves it
      alone exactly under `MatchSurvives`. */
  lemma {:induction false} MatchAcrossWire(term: Term, lowerName: Bytes, ts: seq<Tag>, fold: Fold)
    ensures Matches(term, lowerName, NormalAll(ts), fold) == Matches(term, lowerName, RenamedAll(ts), fold)
    ensures Matches(term, lowerName, NormalAll(ts), fold) == Matches(term, lowerName, ts, fold)
            <==> MatchSurvives(term, lowerName, ts, fold)
    ensures WellNamed(ts) ==> MatchSurvives(term, lowerName, ts, fold)
  {
    MatchRenamed(term, lowerName, ts, fold);
    MatchSurvivesIff(term, lowerName, ts, fold);
    WellNamedIff(ts);
  }

  lemma {:induction false} MatchRenamed(term: Term, lowerName: Bytes, ts: seq<Tag>, fold: Fold)
    ensures Matches(term, lowerName, NormalAll(ts), fold) == Matches(term, lowerName, RenamedAll(ts), fold)
  {
    hide NormalAll, RenamedAll, IntTagValue, MetaMatches, Occurs;
    match term
    case Combined(_, l, r) =>
      MatchRenamed(l, lowerName, ts, fold);
      MatchRenamed(r, lowerName, ts, fold);
    case Words(_) =>
    case MetaString(name, value) => MetaAlike(lowerName, ts, name, value, fold);
    case Numeric(name, _, _) => IntAlike(ts, name);
  }

  /** A term that a misnamed size fails before the wire and passes after it. */
  lemma MisnamedMatchAppears(n: u64, lowerName: Bytes, fold: Fold)
    ensures var (ts, term) := ([Tag(Long([FILESIZE]), U64(n))], Numeric(Short(FILESIZE), GreaterEqual, 0));
            !Matches(term, lowerName, ts, fold) && Matches(term, lowerName, NormalAll(ts), fold)
  {
    hide FileSize, NormalAll;
    MisnamedSizeAppears(n, true);
  }

  /** An encoded request selects a published file exactly when the request's meaning does; a request taller than
      23 selects nothing. The answer is the same for the file's tags as published and as decoded exactly when the
      request is too tall or the match survives the wire. */
  lemma PayloadMeaning(filename: Bytes, ts: seq<Tag>, r: Request, trailing: Bytes, fold: Fold)
    requires Sendable(r)
    ensures PayloadMatches(filename, ts, Encode(r) + trailing, fold)
            == (Height(r) <= 23 && Matches(Compile(r, fold), fold(filename), ts, fold))
    ensures PayloadMatches(filename, NormalAll(ts), Encode(r) + trailing, fold)
            == PayloadMatches(filename, ts, Encode(r) + trailing, fold)
            <==> Height(r) > 23 || MatchSurvives(Compile(r, fold), fold(filename), ts, fold)
    ensures WellNamed(ts) ==> MatchSurvives(Compile(r, fold), fold(filename), ts, fold)
  {
    hide Matches, MatchSurvives, ParseTerm, Encode, Compile, NormalAll;
    ParseEncoded(r, trailing, 0, fold);
    MatchAcrossWire(Compile(r, fold), fold(filename), ts, fold);
  }
}
