/** How stored publishes are rewritten for a search reply: the `*_result_tags` functions of
    `crates/overlord-agent-emule/src/kad_store.rs`. */
module ReplyTags {
  import opened Common
  import opened Sequences
  import opened Tags
  import opened FileSizes
  import opened SearchExpressions
  import opened EntryLists
  import opened PublishCache
  import opened NodeIds

  const KADAICHHASHPUB: byte := 0x36
  const SOURCEUPORT: byte := 0xFC
  const SOURCEIP: byte := 0xFE

  /** One file name, one publisher, trust 10.00. */
  const PUBLISH_INFO := Tag(Short(PUBLISHINFO), U32(0x0101_03E8))

  function FilenameTag(name: Bytes): Tag { Tag(Short(FILENAME), Str(name)) }

  function FilesizeTag(size: u64): Tag { Tag(Short(FILESIZE), UInt(size)) }

  function NameTags(name: Option<Bytes>): seq<Tag> { if name.Some? then [FilenameTag(name.value)] else [] }

  function SizeTags(size: Option<u64>): seq<Tag> { if size.Some? then [FilesizeTag(size.value)] else [] }

  // ---- sizes and searches in lists --------------------------------------------------------------------------

  lemma {:induction false} FirstSomeConcat(a: seq<Tag>, b: seq<Tag>, f: Tag -> Option<nat>)
    ensures FirstSome(a + b, f) == if FirstSome(a, f).Some? then FirstSome(a, f) else FirstSome(b, f)
  {
    if b == [] {
      assert a + b == a;
    } else {
      var n := |b| - 1;
      FirstSomeConcat(a, b[..n], f);
      assert (a + b)[..|a + b| - 1] == a + b[..n];
    }
  }

  lemma FirstSomeOne(t: Tag, f: Tag -> Option<nat>)
    ensures FirstSome([t], f) == f(t)
  {
    assert FirstSome([t][..0], f) == None;
  }

  /** Dropping tags that `f` does not understand changes nothing. */
  lemma {:induction false} FirstSomeFiltered(ts: seq<Tag>, keep: Tag -> bool, f: Tag -> Option<nat>)
    requires forall t :: !keep(t) ==> f(t).None?
    ensures FirstSome(Filter(ts, keep), f) == FirstSome(ts, f)
  {
    if ts != [] {
      var (front, t) := (ts[..|ts| - 1], ts[|ts| - 1]);
      FirstSomeFiltered(front, keep, f);
      FirstSomeConcat(Filter(front, keep), [t], f);
      FirstSomeOne(t, f);
    }
  }

  lemma {:induction false} FirstSomeDropped(ts: seq<Tag>, keep: Tag -> bool, f: Tag -> Option<nat>)
    requires forall t :: keep(t) ==> f(t).None?
    ensures FirstSome(Filter(ts, keep), f) == None
  {
    if ts != [] {
      var (front, t) := (ts[..|ts| - 1], ts[|ts| - 1]);
      FirstSomeDropped(front, keep, f);
      FirstSomeConcat(Filter(front, keep), [t], f);
      FirstSomeOne(t, f);
    }
  }

  lemma {:induction false} WholeFits(ts: seq<Tag>, acceptBlob: bool)
    ensures OrZero(FirstSome(ts, WholeSize(acceptBlob))) < 0x1_0000_0000_0000_0000
  {
    if ts != [] {
      WholeFits(ts[..|ts| - 1], acceptBlob);
      var t := ts[|ts| - 1];
      if t.value.Blob? || t.value.SmallBlob? { FromLeBound(t.value.data); }
      Widths();
    }
  }

  lemma SizeFits(ts: seq<Tag>, acceptBlob: bool)
    ensures OrZero(FileSize(ts, acceptBlob)) < 0x1_0000_0000_0000_0000
  {
    hide FirstSome, WholeSize, HalfSize;
    WholeFits(ts, acceptBlob);
    HalfFits(ts, FILESIZE);
    HalfFits(ts, FILESIZE_HI);
  }

  /** The size a list states, as a tag can carry it. */
  function StatedSize(ts: seq<Tag>, acceptBlob: bool): (r: Option<u64>)
    ensures r == FileSize(ts, acceptBlob)
  {
    SizeFits(ts, acceptBlob);
    if FileSize(ts, acceptBlob).Some? then Some(FileSize(ts, acceptBlob).value) else None
  }

  function Positive(size: Option<u64>): Option<u64> { if size.Some? && size.value > 0 then size else None }

  function HighHalf(ts: seq<Tag>): nat { OrZero(FirstSome(ts, HalfSize(FILESIZE_HI))) }

  /** The body of a reply: no size of its own, and the high half that was stored. */
  ghost predicate Sizeless(body: seq<Tag>, ts: seq<Tag>, acceptBlob: bool)
  {
    && FirstSome(body, WholeSize(acceptBlob)) == None
    && FirstSome(body, HalfSize(FILESIZE)) == None
    && FirstSome(body, HalfSize(FILESIZE_HI)) == FirstSome(ts, HalfSize(FILESIZE_HI))
  }

  lemma SizeTagRead(size: Option<u64>, acceptBlob: bool)
    ensures FirstSome(SizeTags(size), WholeSize(acceptBlob))
            == if size.Some? && !Fits32(size.value) then Some(size.value) else None
    ensures FirstSome(SizeTags(size), HalfSize(FILESIZE))
            == if size.Some? && Fits32(size.value) then Some(size.value) else None
    ensures FirstSome(SizeTags(size), HalfSize(FILESIZE_HI)) == None
  {
    if size.Some? {
      FirstSomeOne(FilesizeTag(size.value), WholeSize(acceptBlob));
      FirstSomeOne(FilesizeTag(size.value), HalfSize(FILESIZE));
      FirstSomeOne(FilesizeTag(size.value), HalfSize(FILESIZE_HI));
    }
  }

  lemma NameTagsSilent(name: Option<Bytes>, f: Tag -> Option<nat>)
    requires forall t: Tag :: t.name == Short(FILENAME) ==> f(t).None?
    ensures FirstSome(NameTags(name), f) == None
  {
    if name.Some? { FirstSomeOne(FilenameTag(name.value), f); }
  }

  /** What a reader finds in a reply: a size of 32 bits is completed by whatever high half was stored beside it. */
  function ReadBack(size: Option<u64>, high: nat): Option<nat>
  {
    if size.None? then None
    else if Fits32(size.value) then Some(high * 0x1_0000_0000 + size.value)
    else Some(size.value)
  }

  lemma ReplySize(name: Option<Bytes>, size: Option<u64>, body: seq<Tag>, ts: seq<Tag>, acceptBlob: bool)
    requires Sizeless(body, ts, acceptBlob)
    ensures FileSize(NameTags(name) + SizeTags(size) + body, acceptBlob) == ReadBack(size, HighHalf(ts))
  {
    hide FirstSome, WholeSize, HalfSize, NameTags, SizeTags;
    SizeTagRead(size, acceptBlob);
    ReaderOfReply(name, size, body, WholeSize(acceptBlob)) by { WholeIgnoresNames(acceptBlob); }
    ReaderOfReply(name, size, body, HalfSize(FILESIZE)) by { HalfIgnoresNames(FILESIZE); }
    ReaderOfReply(name, size, body, HalfSize(FILESIZE_HI)) by { HalfIgnoresNames(FILESIZE_HI); }
  }

  lemma WholeIgnoresNames(acceptBlob: bool)
    ensures forall t: Tag :: t.name == Short(FILENAME) ==> WholeSize(acceptBlob)(t).None?
  {
  }

  lemma HalfIgnoresNames(name: byte)
    requires name != FILENAME
    ensures forall t: Tag :: t.name == Short(FILENAME) ==> HalfSize(name)(t).None?
  {
  }

  lemma ReaderOfReply(name: Option<Bytes>, size: Option<u64>, body: seq<Tag>, f: Tag -> Option<nat>)
    requires forall t: Tag :: t.name == Short(FILENAME) ==> f(t).None?
    ensures FirstSome(NameTags(name) + SizeTags(size) + body, f)
            == if FirstSome(SizeTags(size), f).Some? then FirstSome(SizeTags(size), f) else FirstSome(body, f)
  {
    hide FirstSome, NameTags, SizeTags;
    NameTagsSilent(name, f);
    FirstSomeConcat(NameTags(name) + SizeTags(size), body, f);
    FirstSomeConcat(NameTags(name), SizeTags(size), f);
  }

  /** A reply states the stored size exactly when that size needs more than 32 bits or no high half was stored
      beside it. */
  lemma ReadBackIff(size: Option<u64>, high: nat)
    ensures ReadBack(size, high) == size <==> size.None? || !Fits32(size.value) || high == 0
  {
  }

  // ---- keyword replies --------------------------------------------------------------------------------------

  function KeptInKeywordReply(t: Tag): bool
  {
    t.name !in {Short(FILENAME), Short(FILESIZE), Short(KADAICHHASHPUB), Short(PUBLISHINFO), Short(KADAICHHASHRESULT)}
  }

  /** A usable AICH hash: a blob of twenty bytes. */
  function PublishHash(t: Tag): Option<Bytes>
  {
    if (t.value.Blob? || t.value.SmallBlob?) && |t.value.data| == 20 then Some(t.value.data) else None
  }

  function AichHash(t: Tag): bool { t.name == Short(KADAICHHASHPUB) && PublishHash(t).Some? }

  function AichResult(hash: Bytes): Tag { Tag(Short(KADAICHHASHRESULT), SmallBlob([1, 1] + hash)) }

  /** The result tag of the first usable AICH hash. */
  function AichTags(ts: seq<Tag>): seq<Tag>
  {
    match First(ts, AichHash)
    case Some(i) => if PublishHash(ts[i]).Some? then [AichResult(PublishHash(ts[i]).value)] else []
    case None => []
  }

  function KeywordBody(ts: seq<Tag>): seq<Tag> { Filter(ts, KeptInKeywordReply) + ([PUBLISH_INFO] + AichTags(ts)) }

  function KeywordReplyTags(ts: seq<Tag>): seq<Tag>
  {
    NameTags(FirstFilename(ts)) + SizeTags(Positive(StatedSize(ts, true))) + KeywordBody(ts)
  }

  /** The name and size that keyword and notes replies begin with. */
  method ReplyHead(name: Option<Bytes>, size: Option<u64>) returns (tags: seq<Tag>)
    ensures tags == NameTags(name) + SizeTags(size)
  {
    tags := [];
    if name.Some? { tags := tags + [FilenameTag(name.value)]; }
    if size.Some? { tags := tags + [FilesizeTag(size.value)]; }
  }

  /** `keyword_result_tags` */
  method BuildKeywordReply(ts: seq<Tag>) returns (tags: seq<Tag>)
    ensures tags == KeywordReplyTags(ts)
  {
    hide FirstFilename, StatedSize, AichTags, Filter, NameTags, SizeTags;
    tags := ReplyHead(FirstFilename(ts), Positive(StatedSize(ts, true)));
    var kept, aich := SortOut(ts);
    tags := tags + kept;
    tags := tags + [PUBLISH_INFO];
    tags := tags + aich;
  }

  /** The loop over the stored tags: what is copied, and the first usable AICH hash. */
  method SortOut(ts: seq<Tag>) returns (kept: seq<Tag>, aich: seq<Tag>)
    ensures kept == Filter(ts, KeptInKeywordReply) && aich == AichTags(ts)
  {
    hide PublishHash, KeptInKeywordReply, Filter, First, AichResult;
    kept := [];
    var hash: Option<Bytes> := None;
    NothingSorted();
    for i := 0 to |ts|
      invariant kept == Filter(ts[..i], KeptInKeywordReply)
      invariant hash == FirstHash(ts[..i])
    {
      assert ts[..i + 1] == ts[..i] + [ts[i]];
      FilterSnoc(ts[..i], ts[i], KeptInKeywordReply);
      FirstHashSnoc(ts[..i], ts[i]);
      AichDropped(ts[i]);
      if KeptInKeywordReply(ts[i]) {
        kept := kept + [ts[i]];
      } else if ts[i].name == Short(KADAICHHASHPUB) && hash.None? {
        hash := PublishHash(ts[i]);
      }
    }
    assert ts[..|ts|] == ts;
    aich := if hash.Some? then [AichResult(hash.value)] else [];
  }

  function FirstHash(ts: seq<Tag>): Option<Bytes>
  {
    match First(ts, AichHash)
    case Some(i) => PublishHash(ts[i])
    case None => None
  }

  lemma NothingSorted()
    ensures Filter([], KeptInKeywordReply) == [] && FirstHash([]) == None
  {
  }

  lemma FirstHashSnoc(ts: seq<Tag>, t: Tag)
    ensures FirstHash(ts + [t])
            == if FirstHash(ts).Some? then FirstHash(ts) else if AichHash(t) then PublishHash(t) else None
  {
    assert (ts + [t])[..|ts|] == ts;
  }

  lemma AichDropped(t: Tag)
    ensures KeptInKeywordReply(t) ==> !AichHash(t)
  {
  }

  lemma {:induction false} FilteredSizeless(ts: seq<Tag>, keep: Tag -> bool, acceptBlob: bool)
    requires forall t :: keep(t) ==> t.name != Short(FILESIZE)
    requires forall t :: !keep(t) ==> t.name != Short(FILESIZE_HI)
    ensures Sizeless(Filter(ts, keep), ts, acceptBlob)
  {
    FirstSomeDropped(ts, keep, WholeSize(acceptBlob));
    FirstSomeDropped(ts, keep, HalfSize(FILESIZE));
    FirstSomeFiltered(ts, keep, HalfSize(FILESIZE_HI));
  }

  lemma SizelessMore(body: seq<Tag>, ts: seq<Tag>, acceptBlob: bool, more: seq<Tag>)
    requires Sizeless(body, ts, acceptBlob)
    requires forall t :: t in more ==> t.name != Short(FILESIZE) && t.name != Short(FILESIZE_HI)
    ensures Sizeless(body + more, ts, acceptBlob)
  {
    hide FirstSome;
    FirstSomeConcat(body, more, WholeSize(acceptBlob));
    FirstSomeConcat(body, more, HalfSize(FILESIZE));
    FirstSomeConcat(body, more, HalfSize(FILESIZE_HI));
    FirstSomeAt(more, WholeSize(acceptBlob), |more|);
    FirstSomeAt(more, HalfSize(FILESIZE), |more|);
    FirstSomeAt(more, HalfSize(FILESIZE_HI), |more|);
  }

  lemma KeywordBodySizeless(ts: seq<Tag>, acceptBlob: bool)
    ensures Sizeless(KeywordBody(ts), ts, acceptBlob)
  {
    hide Sizeless, Filter, First, PublishHash;
    FilteredSizeless(ts, KeptInKeywordReply, acceptBlob);
    SizelessMore(Filter(ts, KeptInKeywordReply), ts, acceptBlob, [PUBLISH_INFO] + AichTags(ts));
  }

  /** A keyword reply states the stored size if and only if the size needs more than 32 bits or the publish
      carried no high half. */
  lemma KeywordReplySizeIff(ts: seq<Tag>, acceptBlob: bool)
    ensures FileSize(KeywordReplyTags(ts), acceptBlob) == KeywordSize(ts) <==>
              KeywordSize(ts).None? || KeywordSize(ts).value > 0xFFFF_FFFF || HighHalf(ts) == 0
  {
    hide FileSize, FirstFilename, KeywordBody, HighHalf, Sizeless, NameTags, SizeTags;
    var size := Positive(StatedSize(ts, true));
    KeywordBodySizeless(ts, acceptBlob);
    ReplySize(FirstFilename(ts), size, KeywordBody(ts), ts, acceptBlob);
    ReadBackIff(size, HighHalf(ts));
  }

  lemma KeptSize(ts: seq<Tag>)
    ensures KeywordSize(Filter(ts, KeptTag)) == KeywordSize(ts)
  {
    hide Filter, FirstSome;
    FirstSomeFiltered(ts, KeptTag, WholeSize(true));
    FirstSomeFiltered(ts, KeptTag, HalfSize(FILESIZE));
    FirstSomeFiltered(ts, KeptTag, HalfSize(FILESIZE_HI));
  }

  ghost predicate SizesKept(es: seq<Keyword>) { forall e :: e in es ==> KeywordSize(e.body.tags) == Some(e.body.size) }

  lemma {:induction false} PublishedSizes(es: seq<Keyword>, capacity: nat, target: Id, ps: seq<Publish>, at: Time)
    requires SizesKept(es)
    ensures SizesKept(PublishAll(es, capacity, target, ps, at))
    decreases |ps|
  {
    hide KeywordSize, Upsert, Decision;
    if ps != [] {
      var (n, p) := (|ps| - 1, ps[|ps| - 1]);
      PublishedSizes(es, capacity, target, ps[..n], at);
      var mid := PublishAll(es, capacity, target, ps[..n], at);
      if Accepted(mid, target, p) {
        var e := Entry(target, p, at);
        KeptSize(p.tags);
        UpsertMembers(mid, capacity, HasKey(KeyOf(e)), e);
      }
    }
  }

  /** In every reachable cache, the size an entry is filed under is the size its stored tags state. */
  lemma {:induction false} StoredSizes(c: StoreConfig, ops: seq<Op>)
    ensures SizesKept(Run(c, ops).keywords)
  {
    hide KeywordSize, PublishAll, StoreSource, StoreNote;
    if ops != [] {
      var (s, op) := (Run(c, ops[..|ops| - 1]), ops[|ops| - 1]);
      StoredSizes(c, ops[..|ops| - 1]);
      var es := Purge(s.keywords, c.keywordTtl, op.at);
      forall e | e in es ensures e in s.keywords { FilterMember(s.keywords, IsLive(c.keywordTtl, op.at), e); }
      if op.KeywordOp? { PublishedSizes(es, c.keywordCapacity, op.target, op.publishes, op.at); }
    }
  }

  /** So every reply to a keyword search made from a reachable cache states the size its entry is filed under
      exactly when that size needs more than 32 bits or no high half is stored beside it. */
  lemma KeywordAnswerSizeIff(c: StoreConfig, ops: seq<Op>, e: Keyword, acceptBlob: bool)
    requires e in Run(c, ops).keywords
    ensures FileSize(KeywordReply(e).tags, acceptBlob) == Some(e.body.size)
            <==> e.body.size > 0xFFFF_FFFF || HighHalf(e.body.tags) == 0
  {
    hide Run, FileSize, KeywordReplyTags, KeywordSize;
    StoredSizes(c, ops);
    KeywordReplySizeIff(e.body.tags, acceptBlob);
  }

  /** A publish that states size 5 whole and a high half of 1: stored as 5, answered as 2^32 + 5. */
  lemma SizeInflated()
    ensures var ts := [Tag(Short(FILESIZE), U64(5)), Tag(Short(FILESIZE_HI), U32(1))];
            KeywordSize(ts) == Some(5) && FileSize(KeywordReplyTags(ts), true) == Some(0x1_0000_0005)
  {
    var (a, b) := (Tag(Short(FILESIZE), U64(5)), Tag(Short(FILESIZE_HI), U32(1)));
    var ts := [a] + [b];
    assert ts == [a, b];
    hide FirstSome;
    FirstSomeConcat([a], [b], WholeSize(true));
    FirstSomeConcat([a], [b], HalfSize(FILESIZE_HI));
    FirstSomeOne(a, WholeSize(true));
    FirstSomeOne(b, WholeSize(true));
    FirstSomeOne(a, HalfSize(FILESIZE_HI));
    FirstSomeOne(b, HalfSize(FILESIZE_HI));
    InflatedReply(ts);
  }

  lemma InflatedReply(ts: seq<Tag>)
    requires KeywordSize(ts) == Some(5) && HighHalf(ts) == 1
    ensures FileSize(KeywordReplyTags(ts), true) == Some(0x1_0000_0005)
  {
    hide FileSize, FirstFilename, KeywordBody, HighHalf, Sizeless, NameTags, SizeTags;
    KeywordBodySizeless(ts, true);
    ReplySize(FirstFilename(ts), Positive(StatedSize(ts, true)), KeywordBody(ts), ts, true);
  }

  /** The name survives: the reply's first usable name is the stored one's. */
  lemma KeywordReplyName(ts: seq<Tag>)
    ensures FirstFilename(KeywordReplyTags(ts)) == FirstFilename(ts)
  {
    hide StatedSize, First, PublishHash;
    var (name, rest) := (FirstFilename(ts), SizeTags(Positive(StatedSize(ts, true))) + KeywordBody(ts));
    var reply := KeywordReplyTags(ts);
    assert reply == NameTags(name) + rest;
    forall t | t in rest ensures !NonEmptyName(t) {
      FilterMember(ts, KeptInKeywordReply, t);
    }
    FirstNameLeads(name, rest);
    FoundNameUsable(ts);
  }

  lemma FirstNameLeads(name: Option<Bytes>, rest: seq<Tag>)
    requires (name.Some? ==> name.value != []) && forall t :: t in rest ==> !NonEmptyName(t)
    ensures FirstFilename(NameTags(name) + rest) == name
  {
    var all := NameTags(name) + rest;
    if name.Some? {
      assert all[0] == FilenameTag(name.value) && NonEmptyName(all[0]);
    } else {
      assert all == rest;
    }
  }

  lemma FoundNameUsable(ts: seq<Tag>)
    ensures FirstFilename(ts).Some? ==> FirstFilename(ts).value != []
  {
  }

  // ---- notes replies --------------------------------------------------------------------------------------------

  function KeptInNotesReply(t: Tag): bool { t.name != Short(FILENAME) && t.name != Short(FILESIZE) }

  function NotesReplyTags(ts: seq<Tag>): seq<Tag>
  {
    NameTags(FirstFilename(ts)) + SizeTags(Positive(StatedSize(ts, false))) + Filter(ts, KeptInNotesReply)
  }

  /** `notes_result_tags` */
  method BuildNotesReply(ts: seq<Tag>) returns (tags: seq<Tag>)
    ensures tags == NotesReplyTags(ts)
  {
    hide FirstFilename, StatedSize, NameTags, SizeTags, KeptInNotesReply;
    tags := ReplyHead(FirstFilename(ts), Positive(StatedSize(ts, false)));
    ghost var head := tags;
    for i := 0 to |ts|
      invariant tags == head + Filter(ts[..i], KeptInNotesReply)
    {
      assert ts[..i + 1][..i] == ts[..i];
      if KeptInNotesReply(ts[i]) { tags := tags + [ts[i]]; }
    }
    assert ts[..|ts|] == ts;
  }

  lemma NotesReplySizeIff(ts: seq<Tag>, acceptBlob: bool)
    ensures var size := Positive(StatedSize(ts, false));
            FileSize(NotesReplyTags(ts), acceptBlob) == size <==>
              size.None? || size.value > 0xFFFF_FFFF || HighHalf(ts) == 0
  {
    hide FileSize, FirstFilename, HighHalf, Sizeless, SizeTags;
    var size := Positive(StatedSize(ts, false));
    FilteredSizeless(ts, KeptInNotesReply, acceptBlob);
    ReplySize(FirstFilename(ts), size, Filter(ts, KeptInNotesReply), ts, acceptBlob);
    ReadBackIff(size, HighHalf(ts));
  }

  // ---- source replies -------------------------------------------------------------------------------------------

  function IpTag(ip: Ipv4): Tag { Tag(Short(SOURCEIP), U32(((ip.a * 256 + ip.b) * 256 + ip.c) * 256 + ip.d)) }

  function PortTag(t: Tag): Tag
  {
    if t.value.UInt? && Fits32(t.value.uint) then t.(value := U32(t.value.uint)) else t
  }

  /** A usable UDP port, as two bytes. */
  function UdpPortTags(t: Tag): seq<Tag>
  {
    var n := IntOf(t, Short(SOURCEUPORT));
    if n.Some? && 0 < n.value < 0x1_0000 then [Tag(Short(SOURCEUPORT), U16(n.value))] else []
  }

  datatype Scan = Scan(out: seq<Tag>, sawType: bool, sawTcp: bool, sawUdp: bool)

  function ScanOne(s: Scan, t: Tag, ip: Ipv4): Scan
  {
    if t.name == Short(SOURCETYPE) then
      if s.sawType then s else s.(out := s.out + [IpTag(ip), t], sawType := true)
    else if t.name == Short(FILESIZE) then s
    else if t.name == Short(SOURCEPORT) then
      if s.sawTcp then s else s.(out := s.out + [PortTag(t)], sawTcp := true)
    else if t.name == Short(SOURCEUPORT) then
      if s.sawUdp || UdpPortTags(t) == [] then s else s.(out := s.out + UdpPortTags(t), sawUdp := true)
    else s.(out := s.out + [t])
  }

  function ScanAll(ts: seq<Tag>, ip: Ipv4): Scan
  {
    if ts == [] then Scan([], false, false, false) else ScanOne(ScanAll(ts[..|ts| - 1], ip), ts[|ts| - 1], ip)
  }

  function SourceReplyTags(ts: seq<Tag>, ip: Ipv4): seq<Tag>
  {
    SizeTags(StatedSize(ts, true)) + ScanAll(ts, ip).out
  }

  /** `source_result_tags` */
  method BuildSourceReply(ts: seq<Tag>, ip: Ipv4) returns (tags: seq<Tag>)
    ensures tags == SourceReplyTags(ts, ip)
  {
    hide StatedSize, ScanOne;
    var size := StatedSize(ts, true);
    tags := if size.Some? then [FilesizeTag(size.value)] else [];
    var s := Scan([], false, false, false);
    for i := 0 to |ts|
      invariant s == ScanAll(ts[..i], ip)
    {
      assert ts[..i + 1][..i] == ts[..i];
      s := ScanTag(s, ts[i], ip);
    }
    assert ts[..|ts|] == ts;
    tags := tags + s.out;
  }

  /** One round of its loop, which pushes to the reply and raises the flags. */
  method ScanTag(s: Scan, t: Tag, ip: Ipv4) returns (s': Scan)
    ensures s' == ScanOne(s, t, ip)
  {
    var out, sawType, sawTcp, sawUdp := s.out, s.sawType, s.sawTcp, s.sawUdp;
    if t.name == Short(SOURCETYPE) {
      if !sawType {
        out := out + [IpTag(ip)];
        out := out + [t];
        sawType := true;
      }
    } else if t.name == Short(FILESIZE) {
    } else if t.name == Short(SOURCEPORT) {
      if !sawTcp {
        out := out + [PortTag(t)];
        sawTcp := true;
      }
    } else if t.name == Short(SOURCEUPORT) {
      if !sawUdp && UdpPortTags(t) != [] {
        out := out + UdpPortTags(t);
        sawUdp := true;
      }
    } else {
      out := out + [t];
    }
    s' := Scan(out, sawType, sawTcp, sawUdp);
  }

  /** What one tag adds to the reply. */
  function Adds(s: Scan, t: Tag, ip: Ipv4): seq<Tag> { ScanOne(Scan([], s.sawType, s.sawTcp, s.sawUdp), t, ip).out }

  lemma AddsIs(s: Scan, t: Tag, ip: Ipv4)
    ensures ScanOne(s, t, ip).out == s.out + Adds(s, t, ip)
  {
  }

  lemma {:induction false} ScanSizeless(ts: seq<Tag>, ip: Ipv4, acceptBlob: bool)
    ensures Sizeless(ScanAll(ts, ip).out, ts, acceptBlob)
  {
    hide Sizeless, ScanOne, Adds;
    if ts == [] {
      EmptySizeless(acceptBlob);
    } else {
      var (front, t) := (ts[..|ts| - 1], ts[|ts| - 1]);
      ScanSizeless(front, ip, acceptBlob);
      AddsIs(ScanAll(front, ip), t, ip);
      ScanSizelessStep(ScanAll(front, ip), front, t, ip, acceptBlob);
      assert front + [t] == ts;
    }
  }

  lemma EmptySizeless(acceptBlob: bool)
    ensures Sizeless([], [], acceptBlob)
  {
  }

  lemma ScanSizelessStep(s: Scan, front: seq<Tag>, t: Tag, ip: Ipv4, acceptBlob: bool)
    requires Sizeless(s.out, front, acceptBlob)
    ensures Sizeless(s.out + Adds(s, t, ip), front + [t], acceptBlob)
  {
    var more := Adds(s, t, ip);
    hide FirstSome;
    FirstSomeConcat(front, [t], HalfSize(FILESIZE_HI));
    FirstSomeOne(t, HalfSize(FILESIZE_HI));
    if t.name == Short(FILESIZE_HI) {
      assert more == [t];
      FirstSomeConcat(s.out, [t], WholeSize(acceptBlob));
      FirstSomeConcat(s.out, [t], HalfSize(FILESIZE));
      FirstSomeConcat(s.out, [t], HalfSize(FILESIZE_HI));
      FirstSomeOne(t, WholeSize(acceptBlob));
      FirstSomeOne(t, HalfSize(FILESIZE));
    } else {
      SizelessMore(s.out, front, acceptBlob, more);
    }
  }

  lemma SourceReplySizeIff(ts: seq<Tag>, ip: Ipv4, acceptBlob: bool)
    ensures var size := StatedSize(ts, true);
            FileSize(SourceReplyTags(ts, ip), acceptBlob) == size <==>
              size.None? || size.value > 0xFFFF_FFFF || HighHalf(ts) == 0
  {
    hide FileSize, ScanAll, HighHalf, Sizeless, SizeTags;
    var size := StatedSize(ts, true);
    ScanSizeless(ts, ip, acceptBlob);
    ReplySize(None, size, ScanAll(ts, ip).out, ts, acceptBlob);
    assert NameTags(None) + SizeTags(size) + ScanAll(ts, ip).out == SourceReplyTags(ts, ip);
    ReadBackIff(size, HighHalf(ts));
  }

  function Named(name: byte): Tag -> bool { (t: Tag) => t.name == Short(name) }

  predicate AtMostOne(ts: seq<Tag>, name: byte) { |Filter(ts, Named(name))| <= 1 }

  ghost predicate ScanShape(s: Scan, ts: seq<Tag>, ip: Ipv4)
  {
    && (s.sawType <==> IsSourcePublish(ts))
    && (s.sawType ==> IpTag(ip) in s.out)
    && |Filter(s.out, Named(SOURCETYPE))| == (if s.sawType then 1 else 0)
    && |Filter(s.out, Named(SOURCEPORT))| == (if s.sawTcp then 1 else 0)
    && |Filter(s.out, Named(SOURCEUPORT))| == (if s.sawUdp then 1 else 0)
  }

  lemma {:induction false} ScanShapeHolds(ts: seq<Tag>, ip: Ipv4)
    ensures ScanShape(ScanAll(ts, ip), ts, ip)
  {
    if ts != [] {
      ScanShapeHolds(ts[..|ts| - 1], ip);
      ScanShapeStep(ScanAll(ts[..|ts| - 1], ip), ts, ip);
    }
  }

  lemma ScanShapeStep(s: Scan, ts: seq<Tag>, ip: Ipv4)
    requires ts != [] && ScanShape(s, ts[..|ts| - 1], ip)
    ensures ScanShape(ScanOne(s, ts[|ts| - 1], ip), ts, ip)
  {
    hide Filter, IsSourcePublish, UdpPortTags, PortTag, IpTag;
    var t := ts[|ts| - 1];
    AddsNamed(s, t, ip, SOURCETYPE);
    AddsNamed(s, t, ip, SOURCEPORT);
    AddsNamed(s, t, ip, SOURCEUPORT);
    SourcePublishSnoc(ts);
  }

  lemma SourcePublishSnoc(ts: seq<Tag>)
    requires ts != []
    ensures IsSourcePublish(ts) <==> IsSourcePublish(ts[..|ts| - 1]) || ts[|ts| - 1].name == Short(SOURCETYPE)
  {
    var n := |ts| - 1;
    if IsSourcePublish(ts[..n]) {
      var i :| 0 <= i < n && ts[..n][i].name == Short(SOURCETYPE);
      assert ts[i].name == Short(SOURCETYPE);
    }
    if IsSourcePublish(ts) {
      var i :| 0 <= i < |ts| && ts[i].name == Short(SOURCETYPE);
      if i < n { assert ts[..n][i].name == Short(SOURCETYPE); }
    }
  }

  lemma AddsNamed(s: Scan, t: Tag, ip: Ipv4, name: byte)
    requires name in {SOURCETYPE, SOURCEPORT, SOURCEUPORT}
    ensures |Filter(ScanOne(s, t, ip).out, Named(name))|
            == |Filter(s.out, Named(name))| + (if t.name == Short(name) && Adds(s, t, ip) != [] then 1 else 0)
  {
    hide Filter;
    var more := Adds(s, t, ip);
    AddsIs(s, t, ip);
    FilterConcat(s.out, more, Named(name));
    if |more| == 1 {
      assert more == [more[0]] && more[0].name == t.name;
      FilterOne(more[0], Named(name));
    } else if |more| == 2 {
      assert more == [IpTag(ip)] + [t];
      FilterConcat([IpTag(ip)], [t], Named(name));
      FilterOne(IpTag(ip), Named(name));
      FilterOne(t, Named(name));
    } else {
      assert more == [];
      FilterNothing(Named(name));
    }
  }

  lemma FilterNothing(p: Tag -> bool)
    ensures Filter([], p) == []
  {
  }

  /** A source reply carries the observed address, exactly one source type and at most one port of each kind. */
  lemma SourceReplyShape(ts: seq<Tag>, ip: Ipv4)
    requires IsSourcePublish(ts)
    ensures var reply := SourceReplyTags(ts, ip);
            && IpTag(ip) in reply
            && |Filter(reply, Named(SOURCETYPE))| == 1
            && AtMostOne(reply, SOURCEPORT) && AtMostOne(reply, SOURCEUPORT)
  {
    hide ScanAll, StatedSize, Filter;
    ScanShapeHolds(ts, ip);
    var (head, out) := (SizeTags(StatedSize(ts, true)), ScanAll(ts, ip).out);
    HeadUnnamed(StatedSize(ts, true), SOURCETYPE);
    HeadUnnamed(StatedSize(ts, true), SOURCEPORT);
    HeadUnnamed(StatedSize(ts, true), SOURCEUPORT);
    FilterConcat(head, out, Named(SOURCETYPE));
    FilterConcat(head, out, Named(SOURCEPORT));
    FilterConcat(head, out, Named(SOURCEUPORT));
  }

  lemma HeadUnnamed(size: Option<u64>, name: byte)
    requires name != FILESIZE
    ensures Filter(SizeTags(size), Named(name)) == []
  {
    if size.Some? { FilterOne(FilesizeTag(size.value), Named(name)); }
  }

  /** The address tags a list carries. */
  function Addresses(ts: seq<Tag>): seq<Tag> { Filter(ts, Named(SOURCEIP)) }

  /** The observed address goes in right before the first source type; published ones are copied where they are. */
  function ScannedAddresses(ts: seq<Tag>, ip: Ipv4): seq<Tag>
  {
    match First(ts, Named(SOURCETYPE))
    case Some(j) => Addresses(ts[..j]) + [IpTag(ip)] + Addresses(ts[j..])
    case None => Addresses(ts)
  }

  lemma AddsAddresses(s: Scan, t: Tag, ip: Ipv4)
    ensures Addresses(ScanOne(s, t, ip).out)
            == Addresses(s.out) + (if t.name == Short(SOURCETYPE) && !s.sawType then [IpTag(ip)]
                                   else if t.name == Short(SOURCEIP) then [t] else [])
  {
    hide Filter;
    var more := Adds(s, t, ip);
    AddsIs(s, t, ip);
    FilterConcat(s.out, more, Named(SOURCEIP));
    if |more| == 2 {
      assert more == [IpTag(ip)] + [t];
      FilterConcat([IpTag(ip)], [t], Named(SOURCEIP));
      FilterOne(IpTag(ip), Named(SOURCEIP));
      FilterOne(t, Named(SOURCEIP));
    } else if |more| == 1 {
      assert more == [more[0]] && more[0].name == t.name && (t.name == Short(SOURCEIP) ==> more[0] == t);
      FilterOne(more[0], Named(SOURCEIP));
    } else {
      assert more == [];
      FilterNothing(Named(SOURCEIP));
    }
  }

  lemma ScannedAddressesSnoc(ts: seq<Tag>, t: Tag, ip: Ipv4)
    ensures ScannedAddresses(ts + [t], ip)
            == ScannedAddresses(ts, ip)
               + (if t.name == Short(SOURCETYPE) && !IsSourcePublish(ts) then [IpTag(ip)]
                  else if t.name == Short(SOURCEIP) then [t] else [])
  {
    hide Filter;
    var all := ts + [t];
    FirstTypeSnoc(ts, t);
    FilterSnoc(ts, t, Named(SOURCEIP));
    match First(ts, Named(SOURCETYPE))
    case Some(j) =>
      assert all[..j] == ts[..j] && all[j..] == ts[j..] + [t];
      FilterSnoc(ts[j..], t, Named(SOURCEIP));
      assert IsSourcePublish(ts);
    case None =>
      if t.name == Short(SOURCETYPE) {
        assert all[..|ts|] == ts && all[|ts|..] == [t];
        FilterOne(t, Named(SOURCEIP));
      }
  }

  lemma FirstTypeSnoc(ts: seq<Tag>, t: Tag)
    ensures First(ts + [t], Named(SOURCETYPE))
            == if First(ts, Named(SOURCETYPE)).Some? then First(ts, Named(SOURCETYPE))
               else if t.name == Short(SOURCETYPE) then Some(|ts|) else None
  {
    assert (ts + [t])[..|ts|] == ts;
  }

  lemma {:induction false} ScanAddresses(ts: seq<Tag>, ip: Ipv4)
    ensures Addresses(ScanAll(ts, ip).out) == ScannedAddresses(ts, ip)
  {
    if ts != [] {
      hide Addresses, ScanOne, ScanShape, ScannedAddresses;
      var (front, t) := (ts[..|ts| - 1], ts[|ts| - 1]);
      ScanAddresses(front, ip);
      AddsAddresses(ScanAll(front, ip), t, ip);
      ScannedAddressesSnoc(front, t, ip);
      SawType(front, ip);
      assert ts == front + [t];
    }
  }

  lemma SawType(ts: seq<Tag>, ip: Ipv4)
    ensures ScanAll(ts, ip).sawType <==> IsSourcePublish(ts)
  {
    ScanShapeHolds(ts, ip);
  }

  /** The addresses of a reply: the published ones before the first source type, the observed one, the published
      ones after it. So a reply names exactly one address if and only if none was published; and the first one it
      names is the observed one if and only if none was published before the first source type, or the first of
      them is that very address. */
  lemma SourceReplyAddresses(ts: seq<Tag>, ip: Ipv4)
    requires IsSourcePublish(ts)
    ensures First(ts, Named(SOURCETYPE)).Some?
    ensures var (found, j) := (Addresses(SourceReplyTags(ts, ip)), First(ts, Named(SOURCETYPE)).value);
            var i := First(ts, Named(SOURCEIP));
            && found == Addresses(ts[..j]) + [IpTag(ip)] + Addresses(ts[j..])
            && |found| == 1 + |Addresses(ts)|
            && (|found| == 1 <==> i.None?)
            && (found[0] == IpTag(ip) <==> i.None? || i.value > j || ts[i.value] == IpTag(ip))
  {
    hide ScanAll, StatedSize, Filter, IpTag, Named, SourceReplyTags, First;
    ReplyAddresses(ts, ip);
    TypeFound(ts);
    PublishedAround(ts, First(ts, Named(SOURCETYPE)).value);
  }

  lemma ReplyAddresses(ts: seq<Tag>, ip: Ipv4)
    ensures Addresses(SourceReplyTags(ts, ip)) == ScannedAddresses(ts, ip)
  {
    hide ScanAll, StatedSize, Filter, ScannedAddresses;
    ScanAddresses(ts, ip);
    HeadUnnamed(StatedSize(ts, true), SOURCEIP);
    FilterConcat(SizeTags(StatedSize(ts, true)), ScanAll(ts, ip).out, Named(SOURCEIP));
  }

  lemma TypeFound(ts: seq<Tag>)
    requires IsSourcePublish(ts)
    ensures First(ts, Named(SOURCETYPE)).Some? && ts[First(ts, Named(SOURCETYPE)).value].name == Short(SOURCETYPE)
  {
  }

  /** How the published addresses lie around position `j`. */
  lemma PublishedAround(ts: seq<Tag>, j: nat)
    requires j < |ts| && ts[j].name == Short(SOURCETYPE)
    ensures |Addresses(ts)| == |Addresses(ts[..j])| + |Addresses(ts[j..])|
    ensures var i := First(ts, Named(SOURCEIP));
            && (i.None? <==> Addresses(ts) == [])
            && (Addresses(ts[..j]) == [] <==> i.None? || i.value > j)
            && (Addresses(ts[..j]) != [] ==> i.Some? && Addresses(ts[..j])[0] == ts[i.value])
  {
    hide Filter, First;
    assert ts == ts[..j] + ts[j..];
    FilterConcat(ts[..j], ts[j..], Named(SOURCEIP));
    FirstAddress(ts);
    FirstAddress(ts[..j]);
  }

  lemma {:induction false} FirstAddress(ts: seq<Tag>)
    ensures First(ts, Named(SOURCEIP)).None? <==> Addresses(ts) == []
    ensures var i := First(ts, Named(SOURCEIP));
            i.Some? ==> Addresses(ts) != [] && Addresses(ts)[0] == ts[i.value]
  {
    if ts != [] { FirstAddress(ts[..|ts| - 1]); }
  }

  // ---- replies --------------------------------------------------------------------------------------------------

  datatype Reply = Reply(entryId: Id, tags: seq<Tag>)

  function KeywordReply(e: Keyword): Reply { Reply(e.body.hash, KeywordReplyTags(e.body.tags)) }

  function SourceReply(e: Source): Reply
  {
    Reply(SwapChunks(e.body.publisher), SourceReplyTags(e.body.tags, e.body.ip))
  }

  function NotesReply(e: Note): Reply { Reply(SwapChunks(e.body.publisher), NotesReplyTags(e.body.tags)) }

  function MapAll<A, B>(s: seq<A>, f: A -> B): (r: seq<B>)
    ensures |r| == |s| && forall i :: 0 <= i < |s| ==> r[i] == f(s[i])
  {
    seq(|s|, i requires 0 <= i < |s| => f(s[i]))
  }

  method KeywordReplies(es: seq<Keyword>) returns (rs: seq<Reply>)
    ensures rs == MapAll(es, KeywordReply)
  {
    hide KeywordReplyTags;
    rs := [];
    for i := 0 to |es|
      invariant |rs| == i && forall k :: 0 <= k < i ==> rs[k] == KeywordReply(es[k])
    {
      var tags := BuildKeywordReply(es[i].body.tags);
      rs := rs + [Reply(es[i].body.hash, tags)];
    }
  }

  method SourceReplies(es: seq<Source>) returns (rs: seq<Reply>)
    ensures rs == MapAll(es, SourceReply)
  {
    hide SourceReplyTags, SwapChunks;
    rs := [];
    for i := 0 to |es|
      invariant |rs| == i && forall k :: 0 <= k < i ==> rs[k] == SourceReply(es[k])
    {
      var tags := BuildSourceReply(es[i].body.tags, es[i].body.ip);
      rs := rs + [Reply(SwapChunks(es[i].body.publisher), tags)];
    }
  }

  method NotesReplies(es: seq<Note>) returns (rs: seq<Reply>)
    ensures rs == MapAll(es, NotesReply)
  {
    hide NotesReplyTags, SwapChunks;
    rs := [];
    for i := 0 to |es|
      invariant |rs| == i && forall k :: 0 <= k < i ==> rs[k] == NotesReply(es[k])
    {
      var tags := BuildNotesReply(es[i].body.tags);
      rs := rs + [Reply(SwapChunks(es[i].body.publisher), tags)];
    }
  }
}
