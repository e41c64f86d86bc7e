/** Time-stamped entry lists: the generic helpers of `crates/overlord-agent-emule/src/kad_store.rs`. */
module EntryLists {
  import opened Common
  import opened Sequences
  import opened Tags

  type Time = int
  type Id = Hash16

  datatype Stored<+B> = Stored(at: Time, target: Id, body: B)

  /** Index of the first entry with the least time stamp. */
  function Oldest<B>(es: seq<Stored<B>>): (r: nat)
    requires es != []
    ensures r < |es| && forall j :: 0 <= j < |es| ==> es[r].at <= es[j].at && (j < r ==> es[r].at < es[j].at)
  {
    var n := |es| - 1;
    if n == 0 then 0
    else
      var best := Oldest(es[..n]);
      if es[n].at < es[best].at then n else best
  }

  function IsLive<B>(ttl: nat, now: Time): Stored<B> -> bool { (e: Stored<B>) => e.at + ttl > now }

  function For<B>(target: Id): Stored<B> -> bool { (e: Stored<B>) => e.target == target }

  function Purge<B>(es: seq<Stored<B>>, ttl: nat, now: Time): seq<Stored<B>> { Filter(es, IsLive(ttl, now)) }

  function CountFor<B>(es: seq<Stored<B>>, target: Id): nat { |Filter(es, For(target))| }

  /** With a quota: a target holding more than that loses its first entry. */
  function TrimTarget<B>(es: seq<Stored<B>>, quota: Option<nat>, target: Id): seq<Stored<B>>
  {
    if quota.Some? && CountFor(es, target) > quota.value && First(es, For(target)).Some?
    then RemoveAt(es, First(es, For(target)).value)
    else es
  }

  function MakeRoom<B>(es: seq<Stored<B>>, capacity: nat): seq<Stored<B>>
  {
    if |es| >= capacity && es != [] then RemoveAt(es, Oldest(es)) else es
  }

  /** The three `upsert` functions: replace the first entry `same` accepts, else trim, make room and append. */
  function Upsert<B>(es: seq<Stored<B>>, capacity: nat, quota: Option<nat>, same: Stored<B> -> bool, e: Stored<B>)
    : seq<Stored<B>>
  {
    match First(es, same)
    case Some(i) => es[i := e]
    case None => MakeRoom(TrimTarget(es, quota, e.target), capacity) + [e]
  }

  // ---- bounds and evictions -----------------------------------------------------------------------------------------

  /** Within capacity, and one over quota at most for any target. */
  ghost predicate ListOk<B>(es: seq<Stored<B>>, capacity: nat, quota: Option<nat>)
  {
    |es| <= capacity && (quota.Some? ==> forall t: Id :: CountFor(es, t) <= quota.value + 1)
  }

  ghost predicate SameTarget<B(!new)>(same: Stored<B> -> bool, target: Id)
  {
    forall x: Stored<B> :: same(x) ==> x.target == target
  }

  lemma PurgeOk<B>(es: seq<Stored<B>>, capacity: nat, quota: Option<nat>, ttl: nat, now: Time)
    requires ListOk(es, capacity, quota)
    ensures ListOk(Purge(es, ttl, now), capacity, quota)
  {
    forall t: Id ensures CountFor(Purge(es, ttl, now), t) <= CountFor(es, t) {
      FilterBelow(es, IsLive(ttl, now), For(t));
    }
  }

  lemma TrimCounts<B>(es: seq<Stored<B>>, quota: nat, target: Id, t: Id)
    requires CountFor(es, t) <= quota + 1
    ensures CountFor(TrimTarget(es, Some(quota), target), t) <= if t == target then quota else quota + 1
  {
    match First(es, For(target))
    case Some(i) => RemovalCount(es, i, For(t));
    case None => NoneFor(es, target);
  }

  lemma NoneFor<B>(es: seq<Stored<B>>, target: Id)
    requires First(es, For(target)).None?
    ensures CountFor(es, target) == 0
  {
    if Filter(es, For(target)) != [] {
      var x := Filter(es, For(target))[0];
      FilterMember(es, For(target), x);
      assert false;
    }
  }

  lemma RoomCounts<B>(es: seq<Stored<B>>, capacity: nat, t: Id)
    ensures CountFor(MakeRoom(es, capacity), t) <= CountFor(es, t)
  {
    if |es| >= capacity && es != [] { RemovalCount(es, Oldest(es), For(t)); }
  }

  lemma UpsertOk<B(!new)>(es: seq<Stored<B>>, capacity: nat, quota: Option<nat>, same: Stored<B> -> bool, e: Stored<B>)
    requires capacity >= 1 && ListOk(es, capacity, quota) && SameTarget(same, e.target)
    ensures ListOk(Upsert(es, capacity, quota, same, e), capacity, quota)
  {
    hide CountFor, MakeRoom, TrimTarget;
    RoomLength(es, capacity, quota, e.target);
    if quota.Some? {
      forall t: Id ensures CountFor(Upsert(es, capacity, quota, same, e), t) <= quota.value + 1 {
        UpsertCount(es, capacity, quota.value, same, e, t);
      }
    }
  }

  lemma RoomLength<B>(es: seq<Stored<B>>, capacity: nat, quota: Option<nat>, target: Id)
    requires capacity >= 1 && |es| <= capacity
    ensures |MakeRoom(TrimTarget(es, quota, target), capacity)| < capacity
  {
  }

  lemma UpsertCount<B(!new)>(
    es: seq<Stored<B>>, capacity: nat, quota: nat, same: Stored<B> -> bool, e: Stored<B>, t: Id)
    requires CountFor(es, t) <= quota + 1 && SameTarget(same, e.target)
    ensures CountFor(Upsert(es, capacity, Some(quota), same, e), t) <= quota + 1
  {
    match First(es, same)
    case Some(i) => UpdateCount(es, i, e, For(t));
    case None =>
      var trimmed := TrimTarget(es, Some(quota), e.target);
      TrimCounts(es, quota, e.target, t);
      RoomCounts(trimmed, capacity, t);
      FilterSnoc(MakeRoom(trimmed, capacity), e, For(t));
  }

  lemma StoredBehind<B>(es: seq<Stored<B>>, capacity: nat, quota: nat, same: Stored<B> -> bool, e: Stored<B>)
    requires First(es, same).None? && |es| < capacity && |es| <= quota
    ensures Upsert(es, capacity, Some(quota), same, e) == es + [e]
  {
  }

  /** The entry an upsert pushes out: the first of an over-full target, else the oldest of a full list. */
  function Victim<B>(es: seq<Stored<B>>, capacity: nat, quota: Option<nat>, same: Stored<B> -> bool, target: Id)
    : (v: Option<nat>)
    ensures v.Some? ==> v.value < |es|
  {
    if First(es, same).Some? then None
    else if quota.Some? && CountFor(es, target) > quota.value then First(es, For(target))
    else if |es| >= capacity && es != [] then Some(Oldest(es))
    else None
  }

  lemma TrimIs<B>(es: seq<Stored<B>>, quota: Option<nat>, target: Id)
    ensures quota.Some? && CountFor(es, target) > quota.value ==>
              && First(es, For(target)).Some?
              && TrimTarget(es, quota, target) == RemoveAt(es, First(es, For(target)).value)
  {
    hide Filter, First;
    if First(es, For(target)).None? { NoneFor(es, target); }
  }

  /** Although there are two eviction rules, a list within capacity never loses more than one entry. */
  lemma OneVictim<B>(es: seq<Stored<B>>, capacity: nat, quota: Option<nat>, same: Stored<B> -> bool, e: Stored<B>)
    requires |es| <= capacity
    ensures Upsert(es, capacity, quota, same, e) ==
            var (i, v) := (First(es, same), Victim(es, capacity, quota, same, e.target));
            if i.Some? then es[i.value := e]
            else if v.Some? then RemoveAt(es, v.value) + [e]
            else es + [e]
  {
    hide Filter, First, Oldest, RemoveAt;
    if First(es, same).None? {
      TrimIs(es, quota, e.target);
      if !(quota.Some? && CountFor(es, e.target) > quota.value) {
        assert TrimTarget(es, quota, e.target) == es;
      }
    }
  }
}

/** What the publish cache stores, decides and answers, as functions of its entry lists. */
module PublishCache {
  import opened Common
  import opened Sequences
  import opened Tags
  import opened FileSizes
  import opened SearchExpressions
  import opened EntryLists

  const STOCK_MAX_SOURCES_PER_FILE := 1000
  const STOCK_MAX_NOTES_PER_FILE := 150
  const STOCK_MAX_KEYWORD_INDEX := 50_000
  const STOCK_MAX_KEYWORD_ENTRIES := 60_000
  const STOCK_HOT_KEYWORD_REPUBLISH_MARGIN := 5_000

  const PUBLISHINFO: byte := 0x33
  const KADAICHHASHRESULT: byte := 0x37
  const SERVERIP: byte := 0xFB
  const SOURCEPORT: byte := 0xFD
  const SOURCETYPE: byte := 0xFF

  const UNSPECIFIED := Ipv4(0, 0, 0, 0)

  datatype KeywordBody = KeywordBody(hash: Id, size: nat, tags: seq<Tag>)
  datatype SourceBody = SourceBody(publisher: Id, ip: Ipv4, tcp: nat, udp: u16, tags: seq<Tag>)
  datatype NotesBody = NotesBody(publisher: Id, ip: Ipv4, tags: seq<Tag>)

  type Keyword = Stored<KeywordBody>
  type Source = Stored<SourceBody>
  type Note = Stored<NotesBody>

  datatype RawConfig = Config(
    enabled: bool, keywordTtl: nat, sourceTtl: nat, notesTtl: nat,
    keywordCapacity: nat, sourceCapacity: nat, notesCapacity: nat)

  predicate AllPositive(c: RawConfig)
  {
    && c.keywordTtl >= 1 && c.sourceTtl >= 1 && c.notesTtl >= 1
    && c.keywordCapacity >= 1 && c.sourceCapacity >= 1 && c.notesCapacity >= 1
  }

  /** `from_kad_config` raises every life time and capacity to at least one. */
  type StoreConfig = c: RawConfig | AllPositive(c) witness Config(false, 1, 1, 1, 1, 1, 1)

  datatype State = State(keywords: seq<Keyword>, sources: seq<Source>, notes: seq<Note>)

  /** The narrowing cast to an octet. */
  function AsU8(n: nat): nat { n % 256 }

  // ---- tags -----------------------------------------------------------------------------------------------------

  function NonEmptyName(t: Tag): bool { t.name == Short(FILENAME) && t.value.Str? && t.value.text != [] }

  function FirstFilename(ts: seq<Tag>): Option<Bytes>
  {
    match First(ts, NonEmptyName)
    case Some(i) => if ts[i].value.Str? then Some(ts[i].value.text) else None
    case None => None
  }

  function KeywordSize(ts: seq<Tag>): Option<nat>
  {
    if FileSize(ts, true).Some? && FileSize(ts, true).value > 0 then FileSize(ts, true) else None
  }

  function KeptTag(t: Tag): bool { t.name != Short(PUBLISHINFO) && t.name != Short(KADAICHHASHRESULT) }

  predicate IsInteger(v: TagValue) { v.UInt? || v.U64? || v.U32? || v.U16? || v.U8? }

  function KeptSourceTag(t: Tag): bool { KeptTag(t) && (t.name == Short(SERVERIP) ==> IsInteger(t.value)) }

  predicate IsSourcePublish(ts: seq<Tag>) { exists i :: 0 <= i < |ts| && ts[i].name == Short(SOURCETYPE) }

  function TcpPort(t: Tag): Option<nat>
  {
    var n := IntOf(t, Short(SOURCEPORT));
    if n.Some? && 0 < n.value < 0x1_0000 then n else None
  }

  function SourceTcpPort(ts: seq<Tag>): Option<nat> { FirstSome(ts, TcpPort) }

  predicate NoteTag(t: Tag)
  {
    if t.name == Short(FILENAME) then NonEmptyName(t)
    else if t.name == Short(FILESIZE) then FileSize([t], false).Some? && FileSize([t], false).value > 0
    else true
  }

  predicate HasNoteTags(ts: seq<Tag>) { exists i :: 0 <= i < |ts| && NoteTag(ts[i]) }

  // ---- keyword publishes ----------------------------------------------------------------------------------------

  datatype Publish = Publish(hash: Id, tags: seq<Tag>)

  datatype Key = Key(target: Id, hash: Id, size: nat)

  function KeyOf(e: Keyword): Key { Key(e.target, e.body.hash, e.body.size) }

  function HasKey(k: Key): Keyword -> bool { (e: Keyword) => KeyOf(e) == k }

  function HashesFor(es: seq<Keyword>, target: Id): set<Id> { set e | e in es && e.target == target :: e.body.hash }

  /** `stock_keyword_publish_decision`: the load to report and whether to store. */
  function Decision(es: seq<Keyword>, target: Id, hash: Id): (nat, bool)
  {
    var n := |HashesFor(es, target)|;
    if |es| > STOCK_MAX_KEYWORD_ENTRIES then (100, false)
    else if n == 0 then (1, true)
    else if n > STOCK_MAX_KEYWORD_INDEX then (100, false)
    else if hash in HashesFor(es, target) && n > STOCK_MAX_KEYWORD_INDEX - STOCK_HOT_KEYWORD_REPUBLISH_MARGIN
    then (100, false)
    else (AsU8(n * 100 / STOCK_MAX_KEYWORD_INDEX), true)
  }

  /** A publish without a positive size or a name is skipped without touching the load. */
  predicate Usable(p: Publish) { KeywordSize(p.tags).Some? && First(p.tags, NonEmptyName).Some? }

  predicate Accepted(es: seq<Keyword>, target: Id, p: Publish) { Usable(p) && Decision(es, target, p.hash).1 }

  function Entry(target: Id, p: Publish, at: Time): Keyword
    requires Usable(p)
  {
    Stored(at, target, KeywordBody(p.hash, KeywordSize(p.tags).value, Filter(p.tags, KeptTag)))
  }

  function PublishOne(es: seq<Keyword>, capacity: nat, target: Id, p: Publish, at: Time): seq<Keyword>
  {
    if Accepted(es, target, p)
    then
      var e := Entry(target, p, at);
      Upsert(es, capacity, None, HasKey(KeyOf(e)), e)
    else es
  }

  function PublishAll(es: seq<Keyword>, capacity: nat, target: Id, ps: seq<Publish>, at: Time): seq<Keyword>
    decreases |ps|
  {
    if ps == [] then es
    else PublishOne(PublishAll(es, capacity, target, ps[..|ps| - 1], at), capacity, target, ps[|ps| - 1], at)
  }

  /** The load of the last usable publish, 0 when there is none. */
  function BatchLoad(es: seq<Keyword>, capacity: nat, target: Id, ps: seq<Publish>, at: Time): nat
    decreases |ps|
  {
    if ps == [] then 0
    else
      var n := |ps| - 1;
      if Usable(ps[n]) then Decision(PublishAll(es, capacity, target, ps[..n], at), target, ps[n].hash).0
      else BatchLoad(es, capacity, target, ps[..n], at)
  }

  // ---- source and notes publishes ------------------------------------------------------------------------------

  function SameSource(target: Id, ip: Ipv4, tcp: nat, udp: u16): Source -> bool
  {
    (e: Source) => e.target == target && e.body.ip == ip && (e.body.tcp == tcp || e.body.udp == udp)
  }

  function SameNote(target: Id, publisher: Id, ip: Ipv4): Note -> bool
  {
    (e: Note) => e.target == target && (e.body.ip == ip || e.body.publisher == publisher)
  }

  function TargetLoad(count: nat, max: nat, known: bool): nat
    requires max > 0
  {
    if count == 0 then 1
    else if count > max && !known then 100
    else AsU8(count * 100 / max)
  }

  datatype SourcePublish = SourcePublish(target: Id, publisher: Id, ip: Ipv4, udp: u16, tags: seq<Tag>)

  predicate Storable(p: SourcePublish)
  {
    IsSourcePublish(p.tags) && p.ip != UNSPECIFIED && p.udp != 0 && SourceTcpPort(p.tags).Some?
  }

  function SourceEntry(p: SourcePublish, at: Time): Source
    requires Storable(p)
  {
    Stored(at, p.target,
           SourceBody(p.publisher, p.ip, SourceTcpPort(p.tags).value, p.udp, Filter(p.tags, KeptSourceTag)))
  }

  function StoreSource(es: seq<Source>, capacity: nat, e: Source): seq<Source>
  {
    Upsert(es, capacity, Some(STOCK_MAX_SOURCES_PER_FILE), SameSource(e.target, e.body.ip, e.body.tcp, e.body.udp), e)
  }

  function SourceLoad(es: seq<Source>, e: Source): nat
  {
    TargetLoad(CountFor(es, e.target), STOCK_MAX_SOURCES_PER_FILE,
               First(es, SameSource(e.target, e.body.ip, e.body.tcp, e.body.udp)).Some?)
  }

  datatype NotesPublish = NotesPublish(target: Id, publisher: Id, ip: Ipv4, tags: seq<Tag>)

  predicate Notable(p: NotesPublish) { p.ip != UNSPECIFIED && HasNoteTags(p.tags) }

  function NotesEntry(p: NotesPublish, at: Time): Note
  {
    Stored(at, p.target, NotesBody(p.publisher, p.ip, Filter(p.tags, KeptTag)))
  }

  function StoreNote(es: seq<Note>, capacity: nat, e: Note): seq<Note>
  {
    Upsert(es, capacity, Some(STOCK_MAX_NOTES_PER_FILE), SameNote(e.target, e.body.publisher, e.body.ip), e)
  }

  function NotesLoad(es: seq<Note>, e: Note): nat
  {
    TargetLoad(CountFor(es, e.target), STOCK_MAX_NOTES_PER_FILE,
               First(es, SameNote(e.target, e.body.publisher, e.body.ip)).Some?)
  }

  // ---- searches ---------------------------------------------------------------------------------------------------

  function Skip<T>(s: seq<T>, n: nat): seq<T> { if n <= |s| then s[n..] else [] }

  function Reversed<T>(s: seq<T>): (r: seq<T>)
    ensures |r| == |s| && forall i :: 0 <= i < |s| ==> r[i] == s[|s| - 1 - i]
  {
    seq(|s|, i requires 0 <= i < |s| => s[|s| - 1 - i])
  }

  function MatchesPayload(payload: Bytes, fold: Fold): Keyword -> bool
  {
    (e: Keyword) =>
      var name := FirstFilename(e.body.tags);
      name.Some? && PayloadMatches(name.value, e.body.tags, payload, fold)
  }

  datatype KeywordRequest = KeywordRequest(target: Id, start: u16, payload: Bytes)

  /** On an already purged list; the top bit of the start position asks for the restriction. */
  function KeywordResults(es: seq<Keyword>, req: KeywordRequest, limit: nat, fold: Fold): seq<Keyword>
  {
    var candidates := Filter(es, For(req.target));
    var matching := if req.start >= 0x8000 then Filter(candidates, MatchesPayload(req.payload, fold)) else candidates;
    Truncate(Skip(matching, req.start % 0x8000), limit)
  }

  predicate SizeMatches(ts: seq<Tag>, size: nat, acceptBlob: bool)
  {
    size == 0 || FileSize(ts, acceptBlob).None? || FileSize(ts, acceptBlob).value == size
  }

  function SourceOfSize(size: nat): Source -> bool { (e: Source) => SizeMatches(e.body.tags, size, true) }

  function NoteOfSize(size: nat): Note -> bool { (e: Note) => SizeMatches(e.body.tags, size, false) }

  /** From the last slot back to the first; the offset counts entries before the size test. */
  function SourceResults(es: seq<Source>, target: Id, start: u16, size: nat, limit: nat): seq<Source>
  {
    Truncate(Filter(Skip(Filter(Reversed(es), For(target)), start % 0x8000), SourceOfSize(size)), limit)
  }

  function NotesResults(es: seq<Note>, target: Id, size: nat, limit: nat): seq<Note>
  {
    Truncate(Filter(Filter(Reversed(es), For(target)), NoteOfSize(size)), limit)
  }

  // ---- runs -----------------------------------------------------------------------------------------------------

  datatype Op =
    | KeywordOp(target: Id, publishes: seq<Publish>, at: Time)
    | SourceOp(source: SourcePublish, at: Time)
    | NotesOp(note: NotesPublish, at: Time)
    | KeywordSearch(limit: nat, at: Time)
    | SourceSearch(limit: nat, at: Time)
    | NotesSearch(limit: nat, at: Time)

  function Step(c: StoreConfig, s: State, op: Op): State
  {
    if !c.enabled then s
    else match op
      case KeywordOp(target, ps, at) =>
        s.(keywords := PublishAll(Purge(s.keywords, c.keywordTtl, at), c.keywordCapacity, target, ps, at))
      case SourceOp(p, at) =>
        if !Storable(p) then s
        else s.(sources := StoreSource(Purge(s.sources, c.sourceTtl, at), c.sourceCapacity, SourceEntry(p, at)))
      case NotesOp(p, at) =>
        if !Notable(p) then s
        else s.(notes := StoreNote(Purge(s.notes, c.notesTtl, at), c.notesCapacity, NotesEntry(p, at)))
      case KeywordSearch(limit, at) => if limit == 0 then s else s.(keywords := Purge(s.keywords, c.keywordTtl, at))
      case SourceSearch(limit, at) => if limit == 0 then s else s.(sources := Purge(s.sources, c.sourceTtl, at))
      case NotesSearch(limit, at) => if limit == 0 then s else s.(notes := Purge(s.notes, c.notesTtl, at))
  }

  /** The load a publish reports; searches and refused publishes report none. */
  function Load(c: StoreConfig, s: State, op: Op): Option<nat>
  {
    match op
    case KeywordOp(target, ps, at) =>
      if !c.enabled then Some(0)
      else Some(BatchLoad(Purge(s.keywords, c.keywordTtl, at), c.keywordCapacity, target, ps, at))
    case SourceOp(p, at) =>
      if !c.enabled || !Storable(p) then None
      else Some(SourceLoad(Purge(s.sources, c.sourceTtl, at), SourceEntry(p, at)))
    case NotesOp(p, at) =>
      if !c.enabled || !Notable(p) then None
      else Some(NotesLoad(Purge(s.notes, c.notesTtl, at), NotesEntry(p, at)))
    case _ => None
  }

  function Run(c: StoreConfig, ops: seq<Op>): State
  {
    if ops == [] then State([], [], []) else Step(c, Run(c, ops[..|ops| - 1]), ops[|ops| - 1])
  }

  lemma RunSnoc(c: StoreConfig, ops: seq<Op>, op: Op)
    ensures Run(c, ops + [op]) == Step(c, Run(c, ops), op)
  {
    assert (ops + [op])[..|ops|] == ops;
  }

  // ---- bounds over every run ------------------------------------------------------------------------------------

  ghost predicate StateOk(c: StoreConfig, s: State)
  {
    && ListOk(s.keywords, c.keywordCapacity, None)
    && ListOk(s.sources, c.sourceCapacity, Some(STOCK_MAX_SOURCES_PER_FILE))
    && ListOk(s.notes, c.notesCapacity, Some(STOCK_MAX_NOTES_PER_FILE))
  }

  lemma {:induction false} PublishAllOk(es: seq<Keyword>, capacity: nat, target: Id, ps: seq<Publish>, at: Time)
    requires capacity >= 1 && ListOk(es, capacity, None)
    ensures ListOk(PublishAll(es, capacity, target, ps, at), capacity, None)
    decreases |ps|
  {
    if ps != [] {
      var n := |ps| - 1;
      PublishAllOk(es, capacity, target, ps[..n], at);
      var mid := PublishAll(es, capacity, target, ps[..n], at);
      if Accepted(mid, target, ps[n]) {
        var e := Entry(target, ps[n], at);
        UpsertOk(mid, capacity, None, HasKey(KeyOf(e)), e);
      }
    }
  }

  lemma StoreSourceOk(es: seq<Source>, capacity: nat, e: Source)
    requires capacity >= 1 && ListOk(es, capacity, Some(STOCK_MAX_SOURCES_PER_FILE))
    ensures ListOk(StoreSource(es, capacity, e), capacity, Some(STOCK_MAX_SOURCES_PER_FILE))
  {
    UpsertOk(es, capacity, Some(STOCK_MAX_SOURCES_PER_FILE),
             SameSource(e.target, e.body.ip, e.body.tcp, e.body.udp), e);
  }

  lemma StoreNoteOk(es: seq<Note>, capacity: nat, e: Note)
    requires capacity >= 1 && ListOk(es, capacity, Some(STOCK_MAX_NOTES_PER_FILE))
    ensures ListOk(StoreNote(es, capacity, e), capacity, Some(STOCK_MAX_NOTES_PER_FILE))
  {
    UpsertOk(es, capacity, Some(STOCK_MAX_NOTES_PER_FILE), SameNote(e.target, e.body.publisher, e.body.ip), e);
  }

  lemma StepOk(c: StoreConfig, s: State, op: Op)
    requires StateOk(c, s)
    ensures StateOk(c, Step(c, s, op))
  {
    hide ListOk, Purge, PublishAll, StoreSource, StoreNote;
    PurgeOk(s.keywords, c.keywordCapacity, None, c.keywordTtl, op.at);
    PurgeOk(s.sources, c.sourceCapacity, Some(STOCK_MAX_SOURCES_PER_FILE), c.sourceTtl, op.at);
    PurgeOk(s.notes, c.notesCapacity, Some(STOCK_MAX_NOTES_PER_FILE), c.notesTtl, op.at);
    match op
    case KeywordOp(target, ps, at) =>
      PublishAllOk(Purge(s.keywords, c.keywordTtl, at), c.keywordCapacity, target, ps, at);
    case SourceOp(p, at) =>
      if Storable(p) { StoreSourceOk(Purge(s.sources, c.sourceTtl, at), c.sourceCapacity, SourceEntry(p, at)); }
    case NotesOp(p, at) =>
      if Notable(p) { StoreNoteOk(Purge(s.notes, c.notesTtl, at), c.notesCapacity, NotesEntry(p, at)); }
    case _ =>
  }

  /** Every reachable cache is within its capacities and holds at most 1001 sources and 151 notes per target. */
  lemma {:induction false} RunOk(c: StoreConfig, ops: seq<Op>)
    ensures StateOk(c, Run(c, ops))
  {
    hide ListOk, Step;
    if ops == [] {
      EmptyOk(c);
    } else {
      RunOk(c, ops[..|ops| - 1]);
      StepOk(c, Run(c, ops[..|ops| - 1]), ops[|ops| - 1]);
    }
  }

  lemma EmptyOk(c: StoreConfig)
    ensures StateOk(c, State([], [], []))
  {
  }

  /** When a keyword publish is stored: known files stop being refreshed 5,000 files before new ones are refused. */
  lemma AcceptedIff(es: seq<Keyword>, target: Id, p: Publish)
    ensures var known := exists e :: e in es && e.target == target && e.body.hash == p.hash;
            Accepted(es, target, p) <==>
              && Usable(p) && |es| <= 60_000
              && |HashesFor(es, target)| <= (if known then 45_000 else 50_000)
  {
    hide Usable;
    if p.hash in HashesFor(es, target) { assert |HashesFor(es, target)| > 0; }
  }

  /** The decision's own limits: at most 60001 entries, and 50001 files for any keyword. */
  ghost predicate IndexOk(es: seq<Keyword>)
  {
    |es| <= STOCK_MAX_KEYWORD_ENTRIES + 1 && forall t: Id :: |HashesFor(es, t)| <= STOCK_MAX_KEYWORD_INDEX + 1
  }

  lemma UpsertMembers<B>(es: seq<Stored<B>>, capacity: nat, same: Stored<B> -> bool, e: Stored<B>)
    ensures |Upsert(es, capacity, None, same, e)| <= |es| + 1
    ensures forall x :: x in Upsert(es, capacity, None, same, e) ==> x in es || x == e
  {
  }

  lemma PublishOneIndex(es: seq<Keyword>, capacity: nat, target: Id, p: Publish, at: Time)
    requires IndexOk(es)
    ensures IndexOk(PublishOne(es, capacity, target, p, at))
  {
    hide Upsert, Usable, Entry;
    if Accepted(es, target, p) {
      var e := Entry(target, p, at);
      EntryFields(target, p, at);
      var r := PublishOne(es, capacity, target, p, at);
      UpsertMembers(es, capacity, HasKey(KeyOf(e)), e);
      forall t: Id ensures |HashesFor(r, t)| <= STOCK_MAX_KEYWORD_INDEX + 1 {
        if t == target {
          SubsetCard(HashesFor(r, t), HashesFor(es, t) + {p.hash});
        } else {
          SubsetCard(HashesFor(r, t), HashesFor(es, t));
        }
      }
    }
  }

  lemma EntryFields(target: Id, p: Publish, at: Time)
    requires Usable(p)
    ensures Entry(target, p, at).target == target && Entry(target, p, at).at == at
    ensures Entry(target, p, at).body.hash == p.hash
  {
  }

  lemma {:induction false} PublishAllIndex(es: seq<Keyword>, capacity: nat, target: Id, ps: seq<Publish>, at: Time)
    requires IndexOk(es)
    ensures IndexOk(PublishAll(es, capacity, target, ps, at))
    decreases |ps|
  {
    hide IndexOk, PublishOne;
    if ps != [] {
      var n := |ps| - 1;
      PublishAllIndex(es, capacity, target, ps[..n], at);
      PublishOneIndex(PublishAll(es, capacity, target, ps[..n], at), capacity, target, ps[n], at);
    }
  }

  lemma PurgeIndex(es: seq<Keyword>, ttl: nat, now: Time)
    requires IndexOk(es)
    ensures IndexOk(Purge(es, ttl, now))
  {
    forall e ensures e in Purge(es, ttl, now) ==> e in es { FilterMember(es, IsLive(ttl, now), e); }
    forall t: Id ensures |HashesFor(Purge(es, ttl, now), t)| <= STOCK_MAX_KEYWORD_INDEX + 1 {
      SubsetCard(HashesFor(Purge(es, ttl, now), t), HashesFor(es, t));
    }
  }

  /** Whatever the configured capacity, no run indexes more. */
  lemma {:induction false} RunIndex(c: StoreConfig, ops: seq<Op>)
    ensures IndexOk(Run(c, ops).keywords)
  {
    hide IndexOk, Purge, PublishAll, StoreSource, StoreNote;
    if ops == [] {
      EmptyIndex();
    } else {
      var (s, op) := (Run(c, ops[..|ops| - 1]), ops[|ops| - 1]);
      RunIndex(c, ops[..|ops| - 1]);
      PurgeIndex(s.keywords, c.keywordTtl, op.at);
      if op.KeywordOp? {
        PublishAllIndex(Purge(s.keywords, c.keywordTtl, op.at), c.keywordCapacity, op.target, op.publishes, op.at);
      }
    }
  }

  lemma EmptyIndex()
    ensures IndexOk([])
  {
    forall t: Id ensures HashesFor([], t) == {} {}
  }

  /** With at most one entry over the quota the cast loses nothing, and whether the publish replaces an entry
      makes no difference to the load. */
  lemma TargetLoadFits(count: nat, max: nat, known: bool)
    requires max == STOCK_MAX_SOURCES_PER_FILE || max == STOCK_MAX_NOTES_PER_FILE
    requires count <= max + 1
    ensures TargetLoad(count, max, known) == if count == 0 then 1 else count * 100 / max
    ensures TargetLoad(count, max, known) <= 100
  {
  }

  lemma {:induction false} BatchLoadFits(es: seq<Keyword>, capacity: nat, target: Id, ps: seq<Publish>, at: Time)
    ensures BatchLoad(es, capacity, target, ps, at) <= 100
    decreases |ps|
  {
    if ps != [] {
      BatchLoadFits(es, capacity, target, ps[..|ps| - 1], at);
    }
  }

  /** After any run, every load any publish reports is a percentage: the narrowing cast never bites. */
  lemma LoadsFit(c: StoreConfig, ops: seq<Op>, op: Op)
    ensures var load := Load(c, Run(c, ops), op); load.Some? ==> load.value <= 100
    ensures op.SourceOp? && c.enabled && Storable(op.source) ==>
              var n := CountFor(Purge(Run(c, ops).sources, c.sourceTtl, op.at), op.source.target);
              Load(c, Run(c, ops), op) == Some(if n == 0 then 1 else n * 100 / STOCK_MAX_SOURCES_PER_FILE)
    ensures op.NotesOp? && c.enabled && Notable(op.note) ==>
              var n := CountFor(Purge(Run(c, ops).notes, c.notesTtl, op.at), op.note.target);
              Load(c, Run(c, ops), op) == Some(if n == 0 then 1 else n * 100 / STOCK_MAX_NOTES_PER_FILE)
  {
    hide Purge, TargetLoad, Run, CountFor, BatchLoad, Storable, Notable;
    RunOk(c, ops);
    var s := Run(c, ops);
    match op
    case KeywordOp(target, ps, at) =>
      BatchLoadFits(Purge(s.keywords, c.keywordTtl, at), c.keywordCapacity, target, ps, at);
    case SourceOp(p, at) =>
      var es := Purge(s.sources, c.sourceTtl, at);
      PurgeOk(s.sources, c.sourceCapacity, Some(STOCK_MAX_SOURCES_PER_FILE), c.sourceTtl, at);
      if Storable(p) {
        var e := SourceEntry(p, at);
        TargetLoadFits(CountFor(es, p.target), STOCK_MAX_SOURCES_PER_FILE,
                       First(es, SameSource(e.target, e.body.ip, e.body.tcp, e.body.udp)).Some?);
      }
    case NotesOp(p, at) =>
      var es := Purge(s.notes, c.notesTtl, at);
      PurgeOk(s.notes, c.notesCapacity, Some(STOCK_MAX_NOTES_PER_FILE), c.notesTtl, at);
      var e := NotesEntry(p, at);
      TargetLoadFits(CountFor(es, p.target), STOCK_MAX_NOTES_PER_FILE,
                     First(es, SameNote(e.target, e.body.publisher, e.body.ip)).Some?);
    case _ =>
  }
}

/** The keyword cache against its history of accepted publishes. */
module KeywordHistory {
  import opened Common
  import opened Sequences
  import opened Tags
  import opened SearchExpressions
  import opened EntryLists
  import opened PublishCache

  // ---- the history ----------------------------------------------------------------------------------------------

  /** The publishes of a batch that the decision accepts, as stored. */
  function BatchLog(es: seq<Keyword>, capacity: nat, target: Id, ps: seq<Publish>, at: Time): seq<Keyword>
    decreases |ps|
  {
    if ps == [] then []
    else
      var n := |ps| - 1;
      BatchLog(es, capacity, target, ps[..n], at)
      + (if Accepted(PublishAll(es, capacity, target, ps[..n], at), target, ps[n])
         then [Entry(target, ps[n], at)] else [])
  }

  predicate Displaces(es: seq<Keyword>, capacity: nat, target: Id, p: Publish, at: Time)
  {
    Accepted(es, target, p) && Victim(es, capacity, None, HasKey(KeyOf(Entry(target, p, at))), target).Some?
  }

  predicate BatchEvicts(es: seq<Keyword>, capacity: nat, target: Id, ps: seq<Publish>, at: Time)
    decreases |ps|
  {
    ps != []
    && var n := |ps| - 1;
       BatchEvicts(es, capacity, target, ps[..n], at)
       || Displaces(PublishAll(es, capacity, target, ps[..n], at), capacity, target, ps[n], at)
  }

  function Log(c: StoreConfig, ops: seq<Op>): seq<Keyword>
  {
    if ops == [] then []
    else
      var (front, op) := (ops[..|ops| - 1], ops[|ops| - 1]);
      var es := Purge(Run(c, front).keywords, c.keywordTtl, op.at);
      Log(c, front)
      + (if c.enabled && op.KeywordOp?
         then BatchLog(es, c.keywordCapacity, op.target, op.publishes, op.at) else [])
  }

  /** Some publish of the run pushed an entry out of a full keyword list. */
  predicate Evicts(c: StoreConfig, ops: seq<Op>)
  {
    ops != []
    && var (front, op) := (ops[..|ops| - 1], ops[|ops| - 1]);
       var es := Purge(Run(c, front).keywords, c.keywordTtl, op.at);
       Evicts(c, front)
       || (c.enabled && op.KeywordOp? && BatchEvicts(es, c.keywordCapacity, op.target, op.publishes, op.at))
  }

  /** `e` is the last publish of its key. */
  ghost predicate IsLatest(log: seq<Keyword>, e: Keyword)
  {
    exists i :: 0 <= i < |log| && log[i] == e && forall j :: i < j < |log| ==> KeyOf(log[j]) != KeyOf(e)
  }

  ghost predicate DistinctKeys(es: seq<Keyword>)
  {
    forall i, j :: 0 <= i < j < |es| ==> KeyOf(es[i]) != KeyOf(es[j])
  }

  ghost predicate Mirrors(es: seq<Keyword>, log: seq<Keyword>, ttl: nat, now: Time, complete: bool)
  {
    && DistinctKeys(es)
    && (forall e :: e in es ==> IsLatest(log, e))
    && (complete ==> forall e :: IsLatest(log, e) && e.at + ttl > now ==> e in es)
    && (forall x :: IsLatest(log, x) ==> x.at <= now)
    && (forall x, e :: IsLatest(log, x) && x !in es && e in es ==> x.at <= e.at)
  }

  lemma LatestStays(log: seq<Keyword>, e: Keyword, x: Keyword)
    requires IsLatest(log, x) && KeyOf(x) != KeyOf(e)
    ensures IsLatest(log + [e], x)
  {
    var all := log + [e];
    var i :| 0 <= i < |log| && log[i] == x && forall j :: i < j < |log| ==> KeyOf(log[j]) != KeyOf(x);
    assert all[i] == x;
  }

  lemma LatestBefore(log: seq<Keyword>, e: Keyword, x: Keyword)
    requires IsLatest(log + [e], x) && x != e
    ensures IsLatest(log, x) && KeyOf(x) != KeyOf(e)
  {
    var all := log + [e];
    var i :| 0 <= i < |all| && all[i] == x && forall j :: i < j < |all| ==> KeyOf(all[j]) != KeyOf(x);
    assert KeyOf(all[|log|]) != KeyOf(x) && log[i] == x;
    assert forall j :: i < j < |log| ==> log[j] == all[j];
  }

  lemma LatestSnoc(log: seq<Keyword>, e: Keyword, x: Keyword)
    ensures IsLatest(log + [e], x) <==> x == e || (IsLatest(log, x) && KeyOf(x) != KeyOf(e))
  {
    var all := log + [e];
    if x == e { assert all[|log|] == x; }
    if IsLatest(log, x) && KeyOf(x) != KeyOf(e) { LatestStays(log, e, x); }
    if IsLatest(all, x) && x != e { LatestBefore(log, e, x); }
  }

  lemma {:induction false} FilterDistinct(es: seq<Keyword>, p: Keyword -> bool)
    requires DistinctKeys(es)
    ensures DistinctKeys(Filter(es, p))
  {
    if es != [] {
      var (front, x) := (es[..|es| - 1], es[|es| - 1]);
      FilterDistinct(front, p);
      forall i | 0 <= i < |Filter(front, p)| ensures KeyOf(Filter(front, p)[i]) != KeyOf(x) {
        FilterMember(front, p, Filter(front, p)[i]);
      }
    }
  }

  /** Time passing and the purge that goes with it. */
  lemma PurgeMirrors(es: seq<Keyword>, log: seq<Keyword>, ttl: nat, now: Time, later: Time, complete: bool)
    requires Mirrors(es, log, ttl, now, complete) && now <= later
    ensures Mirrors(Purge(es, ttl, later), log, ttl, later, complete)
  {
    FilterDistinct(es, IsLive(ttl, later));
    forall e ensures e in Purge(es, ttl, later) <==> e in es && e.at + ttl > later {
      FilterMember(es, IsLive(ttl, later), e);
    }
  }

  lemma ReplaceMirrors(es: seq<Keyword>, log: seq<Keyword>, ttl: nat, now: Time, complete: bool, i: nat, e: Keyword)
    requires Mirrors(es, log, ttl, now, complete) && i < |es| && KeyOf(es[i]) == KeyOf(e) && e.at == now
    ensures Mirrors(es[i := e], log + [e], ttl, now, complete)
  {
    hide IsLatest;
    var r := es[i := e];
    forall x ensures IsLatest(log + [e], x) <==> x == e || (IsLatest(log, x) && KeyOf(x) != KeyOf(e)) {
      LatestSnoc(log, e, x);
    }
    forall x ensures x in r <==> x == e || (x in es && KeyOf(x) != KeyOf(e)) {
      if x in es && KeyOf(x) != KeyOf(e) {
        var k :| 0 <= k < |es| && es[k] == x;
        assert r[k] == x;
      }
      if x == e { assert r[i] == x; }
    }
  }

  lemma AppendMirrors(es: seq<Keyword>, log: seq<Keyword>, ttl: nat, now: Time, complete: bool, e: Keyword)
    requires Mirrors(es, log, ttl, now, complete) && e.at == now
    requires forall x :: x in es ==> KeyOf(x) != KeyOf(e)
    ensures Mirrors(es + [e], log + [e], ttl, now, complete)
  {
    hide IsLatest;
    forall x ensures IsLatest(log + [e], x) <==> x == e || (IsLatest(log, x) && KeyOf(x) != KeyOf(e)) {
      LatestSnoc(log, e, x);
    }
  }

  lemma RemoveMirrors(es: seq<Keyword>, log: seq<Keyword>, ttl: nat, now: Time, complete: bool, i: nat)
    requires Mirrors(es, log, ttl, now, complete) && i < |es| && forall e :: e in es ==> es[i].at <= e.at
    ensures Mirrors(RemoveAt(es, i), log, ttl, now, false)
  {
    hide IsLatest;
    var r := RemoveAt(es, i);
    forall x | x in es ensures x == es[i] || x in r {
      var k :| 0 <= k < |es| && es[k] == x;
      if k < i {
        assert r[k] == x;
      } else if k > i {
        assert r[k - 1] == x;
      }
    }
  }

  lemma VictimIsOldest(es: seq<Keyword>, capacity: nat, same: Keyword -> bool, target: Id)
    ensures var v := Victim(es, capacity, None, same, target);
            v.Some? ==> forall e :: e in es ==> es[v.value].at <= e.at
  {
  }

  lemma PublishMirrors(
    es: seq<Keyword>, log: seq<Keyword>, capacity: nat, ttl: nat, target: Id, p: Publish, at: Time, complete: bool)
    requires Mirrors(es, log, ttl, at, complete) && |es| <= capacity && Accepted(es, target, p)
    ensures Mirrors(PublishOne(es, capacity, target, p, at), log + [Entry(target, p, at)], ttl, at,
                    complete && !Displaces(es, capacity, target, p, at))
  {
    hide Mirrors, Upsert, Usable, Entry, Victim;
    var e := Entry(target, p, at);
    EntryFields(target, p, at);
    var same := HasKey(KeyOf(e));
    OneVictim(es, capacity, None, same, e);
    match First(es, same)
    case Some(i) =>
      ReplaceMirrors(es, log, ttl, at, complete, i, e);
      NoVictim(es, capacity, same, target);
    case None =>
      var v := Victim(es, capacity, None, same, target);
      if v.Some? {
        VictimIsOldest(es, capacity, same, target);
        RemoveMirrors(es, log, ttl, at, complete, v.value);
        AppendMirrors(RemoveAt(es, v.value), log, ttl, at, false, e);
      } else {
        AppendMirrors(es, log, ttl, at, complete, e);
      }
  }

  lemma NoVictim(es: seq<Keyword>, capacity: nat, same: Keyword -> bool, target: Id)
    requires First(es, same).Some?
    ensures Victim(es, capacity, None, same, target).None?
  {
  }

  lemma {:induction false} BatchMirrors(
    es: seq<Keyword>, log: seq<Keyword>, capacity: nat, ttl: nat,
    target: Id, ps: seq<Publish>, at: Time, complete: bool)
    requires Mirrors(es, log, ttl, at, complete) && 1 <= capacity && |es| <= capacity
    ensures Mirrors(PublishAll(es, capacity, target, ps, at), log + BatchLog(es, capacity, target, ps, at), ttl, at,
                    complete && !BatchEvicts(es, capacity, target, ps, at))
    decreases |ps|
  {
    hide Mirrors, Usable, PublishOne;
    if ps == [] {
      assert log + BatchLog(es, capacity, target, ps, at) == log;
    } else {
      var n := |ps| - 1;
      BatchMirrors(es, log, capacity, ttl, target, ps[..n], at, complete);
      PublishAllOk(es, capacity, target, ps[..n], at);
      var mid := PublishAll(es, capacity, target, ps[..n], at);
      var midLog := log + BatchLog(es, capacity, target, ps[..n], at);
      var midComplete := complete && !BatchEvicts(es, capacity, target, ps[..n], at);
      if Accepted(mid, target, ps[n]) {
        PublishMirrors(mid, midLog, capacity, ttl, target, ps[n], at, midComplete);
        assert midLog + [Entry(target, ps[n], at)] == log + BatchLog(es, capacity, target, ps, at);
      } else {
        RefusedPublish(mid, capacity, target, ps[n], at);
        assert midLog == log + BatchLog(es, capacity, target, ps, at);
      }
    }
  }

  lemma RefusedPublish(es: seq<Keyword>, capacity: nat, target: Id, p: Publish, at: Time)
    requires !Accepted(es, target, p)
    ensures PublishOne(es, capacity, target, p, at) == es
  {
  }

  ghost predicate Ordered(ops: seq<Op>) { forall i, j :: 0 <= i < j < |ops| ==> ops[i].at <= ops[j].at }

  /** `now` is no earlier than any operation. */
  ghost predicate NotBefore(ops: seq<Op>, now: Time) { forall i :: 0 <= i < |ops| ==> ops[i].at <= now }

  /** Between purges the list may hold stale entries, so the mirror is stated at the time of the last purge. */
  lemma {:induction false} RunMirrors(c: StoreConfig, ops: seq<Op>, now: Time)
    requires Ordered(ops) && NotBefore(ops, now)
    ensures Mirrors(Run(c, ops).keywords, Log(c, ops), c.keywordTtl, now, !Evicts(c, ops))
  {
    hide Mirrors, PublishAll, BatchLog, BatchEvicts, Purge, StoreSource, StoreNote;
    if ops == [] {
      EmptyMirrors(c.keywordTtl, now);
    } else {
      var (front, op) := (ops[..|ops| - 1], ops[|ops| - 1]);
      RunMirrors(c, front, op.at);
      var s := Run(c, front);
      if c.enabled && op.KeywordOp? {
        var es := Purge(s.keywords, c.keywordTtl, op.at);
        KeywordsFit(c, front, op.at);
        PurgeMirrors(s.keywords, Log(c, front), c.keywordTtl, op.at, op.at, !Evicts(c, front));
        BatchMirrors(es, Log(c, front), c.keywordCapacity, c.keywordTtl,
                     op.target, op.publishes, op.at, !Evicts(c, front));
      } else {
        assert Log(c, ops) == Log(c, front);
        PurgeMirrors(s.keywords, Log(c, front), c.keywordTtl, op.at, op.at, !Evicts(c, front));
      }
      LaterMirrors(Run(c, ops).keywords, Log(c, ops), c.keywordTtl, op.at, now, !Evicts(c, ops));
    }
  }

  lemma KeywordsFit(c: StoreConfig, ops: seq<Op>, at: Time)
    ensures |Purge(Run(c, ops).keywords, c.keywordTtl, at)| <= c.keywordCapacity
  {
    RunOk(c, ops);
  }

  lemma EmptyMirrors(ttl: nat, now: Time)
    ensures Mirrors([], [], ttl, now, true)
  {
  }

  lemma LaterMirrors(es: seq<Keyword>, log: seq<Keyword>, ttl: nat, now: Time, later: Time, complete: bool)
    requires Mirrors(es, log, ttl, now, complete) && now <= later
    ensures Mirrors(es, log, ttl, later, complete)
  {
  }

  // ---- searches ---------------------------------------------------------------------------------------------------

  /** What an unrestricted search pages through. */
  function Listing(es: seq<Keyword>, ttl: nat, target: Id, now: Time): seq<Keyword>
  {
    Filter(Purge(es, ttl, now), For(target))
  }

  /** After any run with non-decreasing times, a search lists only latest accepted publishes still within their
      life time, each key once; and all of them, unless a publish was evicted for lack of room. What eviction left
      out is no newer than anything kept under any target. */
  lemma SearchIsHistory(c: StoreConfig, ops: seq<Op>, target: Id, now: Time, e: Keyword)
    requires Ordered(ops) && NotBefore(ops, now)
    ensures var list := Listing(Run(c, ops).keywords, c.keywordTtl, target, now);
            var current := e.target == target && IsLatest(Log(c, ops), e) && e.at + c.keywordTtl > now;
            && DistinctKeys(list)
            && (e in list ==> current)
            && (!Evicts(c, ops) ==> (e in list <==> current))
            && (current && e !in list ==>
                  forall k :: k in Purge(Run(c, ops).keywords, c.keywordTtl, now) ==> e.at <= k.at)
  {
    hide IsLatest;
    var (es, ttl) := (Run(c, ops).keywords, c.keywordTtl);
    RunMirrors(c, ops, now);
    PurgeMirrors(es, Log(c, ops), ttl, now, now, !Evicts(c, ops));
    FilterDistinct(Purge(es, ttl, now), For(target));
    FilterMember(Purge(es, ttl, now), For(target), e);
    FilterMember(es, IsLive(ttl, now), e);
  }

  /** What a search pages through, restricted or not. */
  function Candidates(es: seq<Keyword>, target: Id, restricted: bool, payload: Bytes, fold: Fold): seq<Keyword>
  {
    if restricted then Filter(Filter(es, For(target)), MatchesPayload(payload, fold)) else Filter(es, For(target))
  }

  function StartAt(offset: nat, restricted: bool): u16
    requires offset < 0x8000
  {
    offset + (if restricted then 0x8000 else 0)
  }

  /** Where page `k` starts. */
  function Offset(k: nat, limit: nat): nat { k * limit }

  lemma NextOffset(k: nat, limit: nat)
    ensures Offset(k + 1, limit) == Offset(k, limit) + limit && Offset(0, limit) == 0
  {
  }

  /** Page `k`, starting at offset `k` times the limit. */
  function Page(es: seq<Keyword>, target: Id, restricted: bool, payload: Bytes, limit: nat, k: nat, fold: Fold)
    : seq<Keyword>
    requires Offset(k, limit) < 0x8000
  {
    KeywordResults(es, KeywordRequest(target, StartAt(Offset(k, limit), restricted), payload), limit, fold)
  }

  /** The pages at offsets 0, L, 2L, ... put together. */
  function Pages(es: seq<Keyword>, target: Id, restricted: bool, payload: Bytes, limit: nat, n: nat, fold: Fold)
    : seq<Keyword>
    requires forall k :: 0 <= k < n ==> Offset(k, limit) < 0x8000
    decreases n
  {
    if n == 0 then []
    else Pages(es, target, restricted, payload, limit, n - 1, fold)
         + Page(es, target, restricted, payload, limit, n - 1, fold)
  }

  lemma ResultsAt(es: seq<Keyword>, target: Id, offset: nat, restricted: bool, payload: Bytes, limit: nat, fold: Fold)
    requires offset < 0x8000
    ensures KeywordResults(es, KeywordRequest(target, StartAt(offset, restricted), payload), limit, fold)
            == Truncate(Skip(Candidates(es, target, restricted, payload, fold), offset), limit)
  {
    hide Filter, Truncate, Skip, MatchesPayload;
    assert StartAt(offset, restricted) % 0x8000 == offset;
  }

  lemma NextPage<T>(s: seq<T>, from: nat, limit: nat)
    ensures Truncate(s, from) + Truncate(Skip(s, from), limit) == Truncate(s, from + limit)
  {
  }

  /** Pages follow each other without gap or overlap, so once they reach the end they return every candidate
      exactly once, with or without a restriction; offsets must fit 15 bits. */
  lemma {:induction false} PagesCover(
    es: seq<Keyword>, target: Id, restricted: bool, payload: Bytes, limit: nat, n: nat, fold: Fold)
    requires forall k :: 0 <= k < n ==> Offset(k, limit) < 0x8000
    ensures var all := Candidates(es, target, restricted, payload, fold);
            && Pages(es, target, restricted, payload, limit, n, fold) == Truncate(all, Offset(n, limit))
            && (Offset(n, limit) >= |all| ==> Pages(es, target, restricted, payload, limit, n, fold) == all)
    decreases n
  {
    hide Candidates, KeywordResults, Skip, Offset;
    if n == 0 {
      NextOffset(0, limit);
    } else {
      PagesCover(es, target, restricted, payload, limit, n - 1, fold);
      ResultsAt(es, target, Offset(n - 1, limit), restricted, payload, limit, fold);
      NextPage(Candidates(es, target, restricted, payload, fold), Offset(n - 1, limit), limit);
      NextOffset(n - 1, limit);
    }
  }

  /** A restricted search finds the listed entries whose name and tags the payload selects. */
  lemma RestrictedCandidates(es: seq<Keyword>, target: Id, payload: Bytes, fold: Fold, e: Keyword)
    ensures e in Candidates(es, target, true, payload, fold) <==>
              && e in Candidates(es, target, false, payload, fold)
              && FirstFilename(e.body.tags).Some?
              && PayloadMatches(FirstFilename(e.body.tags).value, e.body.tags, payload, fold)
  {
    hide Filter, PayloadMatches, FirstFilename;
    FilterMember(Filter(es, For(target)), MatchesPayload(payload, fold), e);
  }

  /** An unrestricted request starting at `start` returns the i-th listed entry. */
  ghost predicate Serves(es: seq<Keyword>, target: Id, payload: Bytes, limit: nat, fold: Fold, i: nat, start: u16)
    requires i < CountFor(es, target)
  {
    start < 0x8000
    && Filter(es, For(target))[i] in KeywordResults(es, KeywordRequest(target, start, payload), limit, fold)
  }

  lemma ServesIff(es: seq<Keyword>, target: Id, payload: Bytes, limit: nat, fold: Fold, i: nat, start: u16)
    requires DistinctKeys(Filter(es, For(target))) && i < CountFor(es, target)
    ensures Serves(es, target, payload, limit, fold, i, start) <==> start < 0x8000 && start <= i < start + limit
  {
    hide Filter, KeywordResults, Truncate, Skip, DistinctKeys;
    if start < 0x8000 {
      ResultsAt(es, target, start, false, payload, limit, fold);
      ServedIff(Filter(es, For(target)), start, limit, i);
    }
  }

  /** The 15-bit offset is a real limit: with page size L, listed entry i can be served without a restriction
      exactly when i < 2^15 - 1 + L. */
  lemma ServableIff(es: seq<Keyword>, target: Id, payload: Bytes, limit: nat, fold: Fold, i: nat)
    requires DistinctKeys(Filter(es, For(target))) && i < CountFor(es, target)
    ensures (exists start: u16 :: Serves(es, target, payload, limit, fold, i, start))
            <==> limit > 0 && i < 0x7FFF + limit
  {
    hide Filter, Serves;
    forall start: u16
      ensures Serves(es, target, payload, limit, fold, i, start) <==> start < 0x8000 && start <= i < start + limit
    {
      ServesIff(es, target, payload, limit, fold, i, start);
    }
    if limit > 0 && i < 0x7FFF + limit {
      var start: u16 := if i < 0x8000 then i else 0x7FFF;
      assert Serves(es, target, payload, limit, fold, i, start);
    }
  }

  lemma ServedIff(list: seq<Keyword>, start: nat, limit: nat, i: nat)
    requires DistinctKeys(list) && i < |list|
    ensures list[i] in Truncate(Skip(list, start), limit) <==> start <= i < start + limit
  {
    var page := Truncate(Skip(list, start), limit);
    forall k | 0 <= k < |page| ensures page[k] == list[start + k] {}
    if start <= i < start + limit { assert page[i - start] == list[i]; }
  }

  /** Searching again at the same time finds the same list: the purge in between changes nothing. */
  lemma ListingStable(es: seq<Keyword>, ttl: nat, target: Id, now: Time)
    ensures Listing(Purge(es, ttl, now), ttl, target, now) == Listing(es, ttl, target, now)
  {
    FilterTwice(es, IsLive(ttl, now));
  }
}

/** What source and notes searches return. Both walk the entries from the last slot back to the first; a source
    search counts its offset before it tests sizes. */
module SearchAnswers {
  import opened Common
  import opened Sequences
  import opened EntryLists
  import opened PublishCache

  // ---- filters and order ----------------------------------------------------------------------------------------

  lemma {:induction false} FilterReversed<T>(s: seq<T>, p: T -> bool)
    ensures Filter(Reversed(s), p) == Reversed(Filter(s, p))
  {
    if s == [] {
      assert Reversed(s) == [] && Filter(s, p) == [];
    } else {
      var (front, x) := (s[..|s| - 1], s[|s| - 1]);
      FilterReversed(front, p);
      assert Reversed(s) == [x] + Reversed(front);
      FilterConcat([x], Reversed(front), p);
      FilterOne(x, p);
      assert Reversed(Filter(front, p) + [x]) == [x] + Reversed(Filter(front, p));
    }
  }

  lemma {:induction false} FilterBoth<T>(s: seq<T>, p: T -> bool, q: T -> bool, both: T -> bool)
    requires forall x :: x in s ==> both(x) == (p(x) && q(x))
    ensures Filter(Filter(s, p), q) == Filter(s, both)
  {
    if s != [] {
      var (front, x) := (s[..|s| - 1], s[|s| - 1]);
      FilterBoth(front, p, q, both);
      FilterSnoc(Filter(front, p), x, q);
    }
  }

  /** The live entries of a target from the last slot back: what an offset counts through. */
  function BackToFront<B>(es: seq<Stored<B>>, ttl: nat, now: Time, target: Id): seq<Stored<B>>
  {
    Reversed(Filter(es, Wanted(ttl, now, target)))
  }

  function Wanted<B>(ttl: nat, now: Time, target: Id): Stored<B> -> bool
  {
    (e: Stored<B>) => e.at + ttl > now && e.target == target
  }

  lemma BackToFrontIs<B>(es: seq<Stored<B>>, ttl: nat, now: Time, target: Id)
    ensures Filter(Reversed(Purge(es, ttl, now)), For(target)) == BackToFront(es, ttl, now, target)
  {
    hide Filter;
    FilterReversed(Purge(es, ttl, now), For(target));
    FilterBoth(es, IsLive(ttl, now), For(target), Wanted(ttl, now, target));
  }

  // ---- notes ----------------------------------------------------------------------------------------------------

  function WantedNote(ttl: nat, now: Time, target: Id, size: nat): Note -> bool
  {
    (e: Note) => e.at + ttl > now && e.target == target && SizeMatches(e.body.tags, size, false)
  }

  /** A notes search returns the last `limit` of the live notes of the file and size, the last slot first. */
  lemma NotesAnswer(es: seq<Note>, ttl: nat, now: Time, target: Id, size: nat, limit: nat)
    ensures NotesResults(Purge(es, ttl, now), target, size, limit)
            == Truncate(Reversed(Filter(es, WantedNote(ttl, now, target, size))), limit)
  {
    hide Filter, Truncate, SizeMatches;
    BackToFrontIs(es, ttl, now, target);
    FilterReversed(Filter(es, Wanted(ttl, now, target)), NoteOfSize(size));
    FilterBoth(es, Wanted(ttl, now, target), NoteOfSize(size), WantedNote(ttl, now, target, size));
  }

  // ---- sources --------------------------------------------------------------------------------------------------

  lemma SourceAnswer(es: seq<Source>, ttl: nat, now: Time, target: Id, start: u16, size: nat, limit: nat)
    ensures SourceResults(Purge(es, ttl, now), target, start, size, limit)
            == Truncate(Filter(Skip(BackToFront(es, ttl, now, target), start % 0x8000), SourceOfSize(size)), limit)
  {
    hide Filter, Truncate, Skip, BackToFront;
    BackToFrontIs(es, ttl, now, target);
  }

  /** Position by position: the source at index `i` of the backward list is answered right after the matching
      ones between the offset and it, if there is room; and nothing else is answered. */
  lemma SourceAnswerAt(list: seq<Source>, offset: nat, ok: Source -> bool, limit: nat, i: nat)
    requires offset <= i < |list| && ok(list[i])
    ensures var answer := Truncate(Filter(Skip(list, offset), ok), limit);
            var before := |Filter(list[offset..i], ok)|;
            before < limit ==> before < |answer| && answer[before] == list[i]
  {
    hide Filter;
    var rest := list[offset..];
    assert rest == list[offset..i] + [list[i]] + list[i + 1..];
    FilterConcat(list[offset..i] + [list[i]], list[i + 1..], ok);
    FilterSnoc(list[offset..i], list[i], ok);
  }

  /** The answers at offsets 0, L, 2L, ... when the size is tested after the offset. */
  function PagesFrom<T>(list: seq<T>, ok: T -> bool, limit: nat): seq<T>
    requires limit > 0
    decreases |list|
  {
    if list == [] then [] else Truncate(Filter(list, ok), limit) + PagesFrom(Skip(list, limit), ok, limit)
  }

  /** The window of `limit` entries that index `i` lies in. */
  function WindowOf(i: nat, limit: nat): nat
    requires limit > 0
  {
    if i < limit then 0 else 1 + WindowOf(i - limit, limit)
  }

  /** No mismatch stands before a match of a later window: every window before the one with the last match
      matches throughout. */
  ghost predicate WindowsMatch<T>(list: seq<T>, ok: T -> bool, limit: nat)
    requires limit > 0
  {
    forall i, j :: 0 <= i < j < |list| && !ok(list[i]) && ok(list[j]) ==> WindowOf(i, limit) == WindowOf(j, limit)
  }

  lemma {:induction false} FilterAll<T>(s: seq<T>, p: T -> bool)
    ensures |Filter(s, p)| == |s| <==> forall i :: 0 <= i < |s| ==> p(s[i])
    ensures |Filter(s, p)| == |s| ==> Filter(s, p) == s
  {
    if s != [] {
      hide Filter;
      var (front, x) := (s[..|s| - 1], s[|s| - 1]);
      FilterAll(front, p);
      FilterSnoc(front, x, p);
      assert s == front + [x];
      assert forall i :: 0 <= i < |front| ==> front[i] == s[i];
    }
  }

  lemma FilterNone<T>(s: seq<T>, p: T -> bool)
    ensures Filter(s, p) == [] <==> forall i :: 0 <= i < |s| ==> !p(s[i])
  {
    if i :| 0 <= i < |s| && p(s[i]) { FilterMember(s, p, s[i]); }
    if Filter(s, p) != [] { FilterMember(s, p, Filter(s, p)[0]); }
  }

  /** The first window is full of matches, or nothing matches after it. */
  ghost predicate FirstWindowFits<T>(list: seq<T>, ok: T -> bool, limit: nat)
    requires limit < |list|
  {
    (forall i :: 0 <= i < limit ==> ok(list[i])) || (forall j :: limit <= j < |list| ==> !ok(list[j]))
  }

  lemma FirstWindowFitsIff<T>(list: seq<T>, ok: T -> bool, limit: nat)
    requires 0 < limit < |list|
    ensures FirstWindowFits(list, ok, limit) <==>
              |Filter(list[..limit], ok)| == limit || Filter(list[limit..], ok) == []
  {
    hide Filter;
    FilterAll(list[..limit], ok);
    FilterNone(list[limit..], ok);
    var rest := list[limit..];
    forall j | limit <= j < |list| ensures rest[j - limit] == list[j] {}
  }

  lemma WindowsMatchStep<T>(list: seq<T>, ok: T -> bool, limit: nat)
    requires 0 < limit < |list|
    ensures WindowsMatch(list, ok, limit) <==>
              FirstWindowFits(list, ok, limit) && WindowsMatch(list[limit..], ok, limit)
  {
    if WindowsMatch(list, ok, limit) { WindowsMatchTail(list, ok, limit); }
    if FirstWindowFits(list, ok, limit) && WindowsMatch(list[limit..], ok, limit) {
      WindowsMatchCons(list, ok, limit);
    }
  }

  lemma WindowsMatchTail<T>(list: seq<T>, ok: T -> bool, limit: nat)
    requires 0 < limit < |list| && WindowsMatch(list, ok, limit)
    ensures FirstWindowFits(list, ok, limit) && WindowsMatch(list[limit..], ok, limit)
  {
    var rest := list[limit..];
    forall i, j | 0 <= i < j < |rest| && !ok(rest[i]) && ok(rest[j]) ensures WindowOf(i, limit) == WindowOf(j, limit) {
      assert !ok(list[limit + i]) && ok(list[limit + j]);
    }
    forall i, j | 0 <= i < limit <= j < |list| ensures ok(list[i]) || !ok(list[j]) {
      assert WindowOf(i, limit) == 0 && WindowOf(j, limit) > 0;
    }
  }

  lemma WindowsMatchCons<T>(list: seq<T>, ok: T -> bool, limit: nat)
    requires 0 < limit < |list| && FirstWindowFits(list, ok, limit) && WindowsMatch(list[limit..], ok, limit)
    ensures WindowsMatch(list, ok, limit)
  {
    var rest := list[limit..];
    forall i, j | 0 <= i < j < |list| && !ok(list[i]) && ok(list[j]) ensures WindowOf(i, limit) == WindowOf(j, limit) {
      if i >= limit { assert !ok(rest[i - limit]) && ok(rest[j - limit]); }
    }
  }

  /** The pages hold at least the matching entries; they are exactly those, in order and each once, if and only if
      every window before the last match matches throughout. */
  lemma {:induction false} PagesFromIff<T>(list: seq<T>, ok: T -> bool, limit: nat)
    requires limit > 0
    ensures |PagesFrom(list, ok, limit)| >= |Filter(list, ok)|
    ensures WindowsMatch(list, ok, limit) ==> PagesFrom(list, ok, limit) == Filter(list, ok)
    ensures !WindowsMatch(list, ok, limit) ==> |PagesFrom(list, ok, limit)| > |Filter(list, ok)|
    decreases |list|
  {
    hide Filter, WindowsMatch, FirstWindowFits;
    if |list| <= limit {
      OneWindow(list, ok, limit);
    } else {
      var (w, rest) := (list[..limit], list[limit..]);
      PagesFromIff(rest, ok, limit);
      WindowsMatchStep(list, ok, limit);
      FirstWindowFitsIff(list, ok, limit);
      assert list == w + rest;
      FilterConcat(w, rest, ok);
    }
  }

  lemma OneWindow<T>(list: seq<T>, ok: T -> bool, limit: nat)
    requires limit > 0 && |list| <= limit
    ensures WindowsMatch(list, ok, limit) && PagesFrom(list, ok, limit) == Filter(list, ok)
  {
    assert PagesFrom(Skip(list, limit), ok, limit) == [];
  }

  /** Every matching entry is on the page of its own window. */
  lemma ServedOnItsPage<T>(list: seq<T>, ok: T -> bool, limit: nat, offset: nat, i: nat)
    requires offset <= i < |list| && i < offset + limit && ok(list[i])
    ensures list[i] in Truncate(Filter(Skip(list, offset), ok), limit)
  {
    hide Filter;
    var before := Filter(list[offset..i], ok);
    assert list[offset..] == list[offset..i] + [list[i]] + list[i + 1..];
    FilterConcat(list[offset..i] + [list[i]], list[i + 1..], ok);
    FilterSnoc(list[offset..i], list[i], ok);
    assert Filter(list[offset..], ok)[|before|] == list[i];
    assert Truncate(Filter(list[offset..], ok), limit)[|before|] == list[i];
  }

  /** The answers of successive source searches at one time, from an offset on. */
  function SourcePages(es: seq<Source>, ttl: nat, now: Time, target: Id, size: nat, limit: nat, offset: nat)
    : seq<Source>
    requires limit > 0 && |BackToFront(es, ttl, now, target)| <= 0x8000
    decreases 0x8000 - offset
  {
    if offset >= |BackToFront(es, ttl, now, target)| then []
    else SourceResults(Purge(es, ttl, now), target, offset, size, limit)
         + SourcePages(es, ttl, now, target, size, limit, offset + limit)
  }

  lemma PagesStep<T>(list: seq<T>, ok: T -> bool, limit: nat)
    requires limit > 0 && list != []
    ensures PagesFrom(list, ok, limit) == Truncate(Filter(list, ok), limit) + PagesFrom(Skip(list, limit), ok, limit)
  {
  }

  lemma PagesEnd<T>(ok: T -> bool, limit: nat)
    requires limit > 0
    ensures PagesFrom([], ok, limit) == []
  {
  }

  lemma SkipTwice<T>(s: seq<T>, m: nat, n: nat)
    ensures Skip(Skip(s, m), n) == Skip(s, m + n) && (Skip(s, m) == [] <==> m >= |s|)
  {
  }

  lemma {:induction false} SourcePagesAre(
    es: seq<Source>, ttl: nat, now: Time, target: Id, size: nat, limit: nat, offset: nat)
    requires limit > 0 && |BackToFront(es, ttl, now, target)| <= 0x8000
    ensures SourcePages(es, ttl, now, target, size, limit, offset)
            == PagesFrom(Skip(BackToFront(es, ttl, now, target), offset), SourceOfSize(size), limit)
    decreases 0x8000 - offset
  {
    hide Filter, BackToFront, SourceResults, Skip, PagesFrom, Truncate, SourceOfSize;
    var list := BackToFront(es, ttl, now, target);
    SkipTwice(list, offset, limit);
    if offset < |list| {
      SourcePagesAre(es, ttl, now, target, size, limit, offset + limit);
      SourceAnswer(es, ttl, now, target, offset, size, limit);
      PagesStep(Skip(list, offset), SourceOfSize(size), limit);
    } else {
      PagesEnd<Source>(SourceOfSize(size), limit);
    }
  }

  lemma SourceServed(
    es: seq<Source>, ttl: nat, now: Time, target: Id, size: nat, limit: nat, offset: nat, i: nat)
    requires |BackToFront(es, ttl, now, target)| <= 0x8000 && offset <= i < |BackToFront(es, ttl, now, target)|
    requires i < offset + limit && SourceOfSize(size)(BackToFront(es, ttl, now, target)[i])
    ensures BackToFront(es, ttl, now, target)[i] in SourceResults(Purge(es, ttl, now), target, offset, size, limit)
  {
    hide Filter, BackToFront, SourceResults, Skip, Truncate;
    ServedOnItsPage(BackToFront(es, ttl, now, target), SourceOfSize(size), limit, offset, i);
    SourceAnswer(es, ttl, now, target, offset, size, limit);
  }

  lemma BackToFrontFits(c: StoreConfig, ops: seq<Op>, now: Time, target: Id)
    ensures |BackToFront(Run(c, ops).sources, c.sourceTtl, now, target)| <= STOCK_MAX_SOURCES_PER_FILE + 1
  {
    hide Filter, Run, ListOk;
    var es := Run(c, ops).sources;
    RunOk(c, ops);
    PurgeOk(es, c.sourceCapacity, Some(STOCK_MAX_SOURCES_PER_FILE), c.sourceTtl, now);
    TargetWithin(Purge(es, c.sourceTtl, now), c.sourceCapacity, target);
    FilterBoth(es, IsLive(c.sourceTtl, now), For(target), Wanted(c.sourceTtl, now, target));
  }

  lemma TargetWithin(es: seq<Source>, capacity: nat, target: Id)
    requires ListOk(es, capacity, Some(STOCK_MAX_SOURCES_PER_FILE))
    ensures |Filter(es, For(target))| <= STOCK_MAX_SOURCES_PER_FILE + 1
  {
    assert CountFor(es, target) <= STOCK_MAX_SOURCES_PER_FILE + 1;
  }

  /** After any run, searching a target's sources page by page at one time serves every live source of the wanted
      size, on the page of its own window; and each exactly once if and only if no mismatch stands before a match
      of a later window. */
  lemma SourcesServed(c: StoreConfig, ops: seq<Op>, now: Time, target: Id, size: nat, limit: nat)
    requires limit > 0
    ensures var (es, ttl, ok) := (Run(c, ops).sources, c.sourceTtl, SourceOfSize(size));
            var list := BackToFront(es, ttl, now, target);
            && |list| <= 0x8000
            && (forall offset: nat, i: nat :: offset <= i < |list| && i < offset + limit && ok(list[i]) ==>
                  list[i] in SourceResults(Purge(es, ttl, now), target, offset, size, limit))
            && (SourcePages(es, ttl, now, target, size, limit, 0) == Filter(list, ok)
                <==> WindowsMatch(list, ok, limit))
  {
    hide Filter, Run, BackToFront, SourceResults, PagesFrom, WindowsMatch, SourcePages;
    var (es, ttl, ok) := (Run(c, ops).sources, c.sourceTtl, SourceOfSize(size));
    var list := BackToFront(es, ttl, now, target);
    BackToFrontFits(c, ops, now, target);
    forall offset: nat, i: nat | offset <= i < |list| && i < offset + limit && ok(list[i])
      ensures list[i] in SourceResults(Purge(es, ttl, now), target, offset, size, limit)
    {
      SourceServed(es, ttl, now, target, size, limit, offset, i);
    }
    SourcePagesAre(es, ttl, now, target, size, limit, 0);
    assert Skip(list, 0) == list;
    PagesFromIff(list, ok, limit);
  }

  /** With pages of one entry, a mismatch in front makes the next source come twice. */
  lemma PagesRepeat(m: Source, a: Source, b: Source, size: nat)
    requires var ok := SourceOfSize(size); !ok(m) && ok(a) && ok(b)
    ensures PagesFrom([m, a, b], SourceOfSize(size), 1) == [a, a, b]
  {
    var ok := SourceOfSize(size);
    hide SourceOfSize, Filter, PagesFrom;
    var three := [m, a, b];
    assert Skip(three, 1) == [a, b] && Skip([a, b], 1) == [b] && Skip([b], 1) == [];
    FilterOne(m, ok);
    FilterOne(a, ok);
    FilterOne(b, ok);
    FilterConcat([a], [b], ok);
    FilterConcat([m], [a, b], ok);
    assert [a] + [b] == [a, b] && [m] + [a, b] == three;
    PagesStep([b], ok, 1);
    PagesStep([a, b], ok, 1);
    PagesStep(three, ok, 1);
    PagesEnd<Source>(ok, 1);
  }

  lemma PurgeNothing<B>(es: seq<Stored<B>>, ttl: nat, now: Time)
    requires forall i :: 0 <= i < |es| ==> es[i].at + ttl > now
    ensures Purge(es, ttl, now) == es
  {
    FilterAll(es, IsLive(ttl, now));
  }

  /** A source with an address of its own is stored behind the others. */
  lemma NewSource(c: StoreConfig, ops: seq<Op>, p: SourcePublish, at: Time)
    requires c.enabled && Storable(p) && |Run(c, ops).sources| < Min(c.sourceCapacity, STOCK_MAX_SOURCES_PER_FILE)
    requires forall e :: e in Run(c, ops).sources ==> e.at + c.sourceTtl > at && e.body.ip != p.ip
    ensures Run(c, ops + [SourceOp(p, at)]).sources == Run(c, ops).sources + [SourceEntry(p, at)]
  {
    hide Run, Storable, Upsert, First;
    var (es, e) := (Run(c, ops).sources, SourceEntry(p, at));
    RunSnoc(c, ops, SourceOp(p, at));
    PurgeNothing(es, c.sourceTtl, at);
    StoredBehind(es, c.sourceCapacity, STOCK_MAX_SOURCES_PER_FILE,
                 SameSource(e.target, e.body.ip, e.body.tcp, e.body.udp), e);
  }

  /** Three sources published one after the other under different addresses. */
  function ThreeSources(b: SourcePublish, a: SourcePublish, m: SourcePublish, at: Time): seq<Op>
  {
    [SourceOp(b, at), SourceOp(a, at), SourceOp(m, at)]
  }

  lemma ThreeSourcesStored(c: StoreConfig, b: SourcePublish, a: SourcePublish, m: SourcePublish, at: Time)
    requires c.enabled && c.sourceCapacity >= 3 && Storable(b) && Storable(a) && Storable(m)
    requires b.ip != a.ip && a.ip != m.ip && b.ip != m.ip
    ensures Run(c, ThreeSources(b, a, m, at)).sources
            == [SourceEntry(b, at), SourceEntry(a, at), SourceEntry(m, at)]
  {
    hide Run, Storable;
    EmptyRun(c);
    NewSource(c, [], b, at);
    NewSource(c, [] + [SourceOp(b, at)], a, at);
    NewSource(c, [] + [SourceOp(b, at)] + [SourceOp(a, at)], m, at);
    assert [] + [SourceOp(b, at)] + [SourceOp(a, at)] + [SourceOp(m, at)] == ThreeSources(b, a, m, at);
  }

  lemma EmptyRun(c: StoreConfig)
    ensures Run(c, []) == State([], [], [])
  {
  }

  /** The smallest failure: three sources of one file, the last of another size than the first two. Paging one by
      one serves the second twice. */
  lemma SourceServedTwice(
    c: StoreConfig, b: SourcePublish, a: SourcePublish, m: SourcePublish, at: Time, size: nat)
    requires c.enabled && c.sourceCapacity >= 3 && Storable(b) && Storable(a) && Storable(m)
    requires b.ip != a.ip && a.ip != m.ip && b.ip != m.ip && b.target == a.target == m.target
    requires var ok := SourceOfSize(size);
             ok(SourceEntry(b, at)) && ok(SourceEntry(a, at)) && !ok(SourceEntry(m, at))
    ensures var es := Run(c, ThreeSources(b, a, m, at)).sources;
            && |BackToFront(es, c.sourceTtl, at, a.target)| == 3
            && SourcePages(es, c.sourceTtl, at, a.target, size, 1, 0)
               == [SourceEntry(a, at), SourceEntry(a, at), SourceEntry(b, at)]
  {
    hide Run, Storable, SourceOfSize, SourcePages, PagesFrom, Filter;
    var (x, y, z) := (SourceEntry(b, at), SourceEntry(a, at), SourceEntry(m, at));
    ThreeSourcesStored(c, b, a, m, at);
    var es := Run(c, ThreeSources(b, a, m, at)).sources;
    FilterAll(es, Wanted(c.sourceTtl, at, a.target));
    var list := BackToFront(es, c.sourceTtl, at, a.target);
    assert list == [z, y, x];
    SourcePagesAre(es, c.sourceTtl, at, a.target, size, 1, 0);
    assert Skip(list, 0) == list;
    PagesRepeat(z, y, x, size);
  }
}

/** `KadLocalStore`: the three entry vectors updated in place. The ghost log lists every call, and `Valid` says
    the vectors are what that run produces. */
module LocalStore {
  import opened Common
  import opened Sequences
  import opened SearchExpressions
  import opened EntryLists
  import opened PublishCache
  import opened KeywordHistory
  import opened SearchAnswers
  import opened ReplyTags

  class KadLocalStore {
    const config: StoreConfig
    var keywordEntries: seq<Keyword>
    var sourceEntries: seq<Source>
    var notesEntries: seq<Note>
    ghost var ops: seq<Op>

    ghost function Contents(): State
      reads this
    {
      State(keywordEntries, sourceEntries, notesEntries)
    }

    ghost predicate Valid()
      reads this
    {
      Contents() == Run(config, ops)
    }

    constructor (c: StoreConfig)
      ensures Valid() && config == c && ops == []
    {
      config := c;
      keywordEntries, sourceEntries, notesEntries, ops := [], [], [], [];
    }

    method UpsertKeyword(e: Keyword)
      modifies `keywordEntries
      ensures keywordEntries == Upsert(old(keywordEntries), config.keywordCapacity, None, HasKey(KeyOf(e)), e)
    {
      var existing := First(keywordEntries, HasKey(KeyOf(e)));
      if existing.Some? {
        keywordEntries := keywordEntries[existing.value := e];
        return;
      }
      if |keywordEntries| >= config.keywordCapacity && keywordEntries != [] {
        keywordEntries := RemoveAt(keywordEntries, Oldest(keywordEntries));
      }
      keywordEntries := keywordEntries + [e];
    }

    method UpsertSource(e: Source)
      modifies `sourceEntries
      ensures sourceEntries == StoreSource(old(sourceEntries), config.sourceCapacity, e)
    {
      var existing := First(sourceEntries, SameSource(e.target, e.body.ip, e.body.tcp, e.body.udp));
      if existing.Some? {
        sourceEntries := sourceEntries[existing.value := e];
        return;
      }
      if CountFor(sourceEntries, e.target) > STOCK_MAX_SOURCES_PER_FILE {
        var first := First(sourceEntries, For(e.target));
        if first.Some? { sourceEntries := RemoveAt(sourceEntries, first.value); }
      }
      if |sourceEntries| >= config.sourceCapacity && sourceEntries != [] {
        sourceEntries := RemoveAt(sourceEntries, Oldest(sourceEntries));
      }
      sourceEntries := sourceEntries + [e];
    }

    method UpsertNote(e: Note)
      modifies `notesEntries
      ensures notesEntries == StoreNote(old(notesEntries), config.notesCapacity, e)
    {
      var existing := First(notesEntries, SameNote(e.target, e.body.publisher, e.body.ip));
      if existing.Some? {
        notesEntries := notesEntries[existing.value := e];
        return;
      }
      if CountFor(notesEntries, e.target) > STOCK_MAX_NOTES_PER_FILE {
        var first := First(notesEntries, For(e.target));
        if first.Some? { notesEntries := RemoveAt(notesEntries, first.value); }
      }
      if |notesEntries| >= config.notesCapacity && notesEntries != [] {
        notesEntries := RemoveAt(notesEntries, Oldest(notesEntries));
      }
      notesEntries := notesEntries + [e];
    }

    method RecordKeywordPublishBatch(target: Id, publishes: seq<Publish>, at: Time) returns (load: nat)
      requires Valid()
      modifies `keywordEntries, `ops
      ensures Valid() && ops == old(ops) + [KeywordOp(target, publishes, at)]
      ensures Load(config, old(Contents()), KeywordOp(target, publishes, at)) == Some(load) && load <= 100
    {
      hide Run, Purge, Upsert, Usable, Entry, Decision;
      ghost var op := KeywordOp(target, publishes, at);
      RunSnoc(config, ops, op);
      LoadsFit(config, ops, op);
      ops := ops + [op];
      load := 0;
      if !config.enabled { return; }
      keywordEntries := Purge(keywordEntries, config.keywordTtl, at);
      ghost var purged := keywordEntries;
      for i := 0 to |publishes|
        invariant ops == old(ops) + [op]
        invariant keywordEntries == PublishAll(purged, config.keywordCapacity, target, publishes[..i], at)
        invariant load == BatchLoad(purged, config.keywordCapacity, target, publishes[..i], at)
      {
        assert publishes[..i + 1][..i] == publishes[..i];
        if !Usable(publishes[i]) { continue; }
        var (entryLoad, shouldStore) := Decision(keywordEntries, target, publishes[i].hash);
        load := entryLoad;
        if !shouldStore { continue; }
        UpsertKeyword(Entry(target, publishes[i], at));
        EntryFields(target, publishes[i], at);
      }
      assert publishes[..|publishes|] == publishes;
    }

    method RecordSourcePublish(p: SourcePublish, at: Time) returns (load: Option<nat>)
      requires Valid()
      modifies `sourceEntries, `ops
      ensures Valid() && ops == old(ops) + [SourceOp(p, at)]
      ensures load == Load(config, old(Contents()), SourceOp(p, at)) && (load.Some? ==> load.value <= 100)
    {
      hide Run, Purge, StoreSource, SourceLoad, SourceEntry;
      RunSnoc(config, ops, SourceOp(p, at));
      LoadsFit(config, ops, SourceOp(p, at));
      ops := ops + [SourceOp(p, at)];
      if !config.enabled || !IsSourcePublish(p.tags) { return None; }
      if p.ip == UNSPECIFIED || p.udp == 0 { return None; }
      if SourceTcpPort(p.tags).None? { return None; }
      sourceEntries := Purge(sourceEntries, config.sourceTtl, at);
      var e := SourceEntry(p, at);
      load := Some(SourceLoad(sourceEntries, e));
      UpsertSource(e);
    }

    method RecordNotesPublish(p: NotesPublish, at: Time) returns (load: Option<nat>)
      requires Valid()
      modifies `notesEntries, `ops
      ensures Valid() && ops == old(ops) + [NotesOp(p, at)]
      ensures load == Load(config, old(Contents()), NotesOp(p, at)) && (load.Some? ==> load.value <= 100)
    {
      hide Run, Purge, StoreNote, NotesLoad, NotesEntry;
      RunSnoc(config, ops, NotesOp(p, at));
      LoadsFit(config, ops, NotesOp(p, at));
      ops := ops + [NotesOp(p, at)];
      if !config.enabled { return None; }
      if p.ip == UNSPECIFIED || !HasNoteTags(p.tags) { return None; }
      notesEntries := Purge(notesEntries, config.notesTtl, at);
      var e := NotesEntry(p, at);
      load := Some(NotesLoad(notesEntries, e));
      UpsertNote(e);
    }

    /** `None` when there is nothing to send. */
    method KeywordSearchResponse(req: KeywordRequest, limit: nat, now: Time, fold: Fold) returns (r: Option<seq<Reply>>)
      requires Valid()
      modifies `keywordEntries, `ops
      ensures Valid() && ops == old(ops) + [KeywordSearch(limit, now)]
      ensures var purged := Purge(old(keywordEntries), config.keywordTtl, now);
              var matching := Candidates(purged, req.target, req.start >= 0x8000, req.payload, fold);
              var found := if config.enabled then Truncate(Skip(matching, req.start % 0x8000), limit) else [];
              r == if found == [] then None else Some(MapAll(found, KeywordReply))
    {
      hide Run, Purge, Filter, KeywordResults, Candidates, Skip, KeywordReply, MapAll;
      RunSnoc(config, ops, KeywordSearch(limit, now));
      ops := ops + [KeywordSearch(limit, now)];
      if !config.enabled || limit == 0 { return None; }
      keywordEntries := Purge(keywordEntries, config.keywordTtl, now);
      var results := KeywordResults(keywordEntries, req, limit, fold);
      ResultsAt(keywordEntries, req.target, req.start % 0x8000, req.start >= 0x8000, req.payload, limit, fold);
      if results == [] { return None; }
      var replies := KeywordReplies(results);
      return Some(replies);
    }

    method SourceSearchResponse(target: Id, start: u16, size: nat, limit: nat, now: Time)
      returns (r: Option<seq<Reply>>)
      requires Valid()
      modifies `sourceEntries, `ops
      ensures Valid() && ops == old(ops) + [SourceSearch(limit, now)]
      ensures var list := BackToFront(old(sourceEntries), config.sourceTtl, now, target);
              var matching := Filter(Skip(list, start % 0x8000), SourceOfSize(size));
              var found := if config.enabled then Truncate(matching, limit) else [];
              r == if found == [] then None else Some(MapAll(found, SourceReply))
    {
      hide Run, Purge, Filter, SourceResults, BackToFront, Skip, SourceReply, MapAll;
      RunSnoc(config, ops, SourceSearch(limit, now));
      ops := ops + [SourceSearch(limit, now)];
      if !config.enabled || limit == 0 { return None; }
      sourceEntries := Purge(sourceEntries, config.sourceTtl, now);
      var results := SourceResults(sourceEntries, target, start, size, limit);
      SourceAnswer(old(sourceEntries), config.sourceTtl, now, target, start, size, limit);
      if results == [] { return None; }
      var replies := SourceReplies(results);
      return Some(replies);
    }

    method NotesSearchResponse(target: Id, size: nat, limit: nat, now: Time) returns (r: Option<seq<Reply>>)
      requires Valid()
      modifies `notesEntries, `ops
      ensures Valid() && ops == old(ops) + [NotesSearch(limit, now)]
      ensures var matching := Reversed(Filter(old(notesEntries), WantedNote(config.notesTtl, now, target, size)));
              var found := if config.enabled then Truncate(matching, limit) else [];
              r == if found == [] then None else Some(MapAll(found, NotesReply))
    {
      hide Run, Purge, Filter, NotesResults, Reversed, NotesReply, MapAll;
      RunSnoc(config, ops, NotesSearch(limit, now));
      ops := ops + [NotesSearch(limit, now)];
      if !config.enabled || limit == 0 { return None; }
      notesEntries := Purge(notesEntries, config.notesTtl, now);
      var results := NotesResults(notesEntries, target, size, limit);
      NotesAnswer(old(notesEntries), config.notesTtl, now, target, size, limit);
      if results == [] { return None; }
      var replies := NotesReplies(results);
      return Some(replies);
    }
  }
}
