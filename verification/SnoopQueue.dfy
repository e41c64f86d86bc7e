/** The harvested-request scheduler, `crates/overlord-agent-emule/src/snoop_queue.rs`: entries, the order in which
    they are replayed, and what each call does to the queue. */
module SnoopScheduling {
  import opened Common
  import opened Tags

  type Time = int
  type Key = seq<byte>
  type Id = Hash16

  const WINDOW := 600

  datatype Family = Keywords | Sources | Notes

  /** What a stored entry asks for. `target` and `payload` are what the stored texts decode to, if they do. */
  datatype Shape =
    | KeywordShape(key: Key, target: Option<Id>, start: u16, payload: Option<Bytes>)
    | SourceShape(key: Key, target: Option<Id>, start: u16, size: u64)
    | NotesShape(key: Key, target: Option<Id>, size: u64)

  datatype Entry = Entry(shape: Shape, hits: u32, firstSeen: Time, lastSeen: Time, drained: Option<Time>)

  datatype Feedback = Feedback(streak: u32, lastResultCount: u32, lastOutcomeAt: Option<Time>)

  datatype Queue = Queue(
    entries: map<Key, Entry>, feedback: map<Key, Feedback>, general: seq<Time>, source: seq<Time>)

  datatype Config = Config(
    dedupWindow: nat, generalMax: u32, sourceMax: u32, generalCooldown: nat, sourceCooldown: nat)

  datatype Request =
    | KeywordRequest(target: Id, start: u16, payload: Bytes)
    | SourceRequest(target: Id, start: u16, size: u64)
    | NotesRequest(target: Id, size: u64)

  function FamilyOf(shape: Shape): Family
  {
    match shape
    case KeywordShape(_, _, _, _) => Keywords
    case SourceShape(_, _, _, _) => Sources
    case NotesShape(_, _, _) => Notes
  }

  function KeysOf(entries: map<Key, Entry>, family: Family): set<Key>
  {
    set k | k in entries && FamilyOf(entries[k].shape) == family
  }

  /** `keyword_request`, `source_request` and `notes_request`. */
  function RequestOf(shape: Shape, family: Family): Option<Request>
  {
    match (shape, family)
    case (KeywordShape(_, target, start, payload), Keywords) =>
      if target.Some? && payload.Some? then Some(KeywordRequest(target.value, start, payload.value)) else None
    case (SourceShape(_, target, start, size), Sources) =>
      if size != 0 && target.Some? then Some(SourceRequest(target.value, start, size)) else None
    case (NotesShape(_, target, size), Notes) =>
      if size != 0 && target.Some? then Some(NotesRequest(target.value, size)) else None
    case (_, _) => None
  }

  function MaxQueries(c: Config, family: Family): nat { if family.Sources? then c.sourceMax else c.generalMax }

  function Cooldown(c: Config, family: Family): nat { if family.Sources? then c.sourceCooldown else c.generalCooldown }

  function Drains(q: Queue, family: Family): seq<Time> { if family.Sources? then q.source else q.general }

  function WithDrains(q: Queue, family: Family, drains: seq<Time>): Queue
  {
    if family.Sources? then q.(source := drains) else q.(general := drains)
  }

  function FeedbackOf(q: Queue, k: Key): Feedback { if k in q.feedback then q.feedback[k] else Feedback(0, 0, None) }

  /** How many cooldowns a drained entry must wait: more after replays that found nothing, unless seen since. */
  function Backoff(e: Entry, f: Feedback): nat
  {
    if f.lastOutcomeAt.None? || f.streak == 0 || e.lastSeen > f.lastOutcomeAt.value then 1 else Min(f.streak + 1, 4)
  }

  predicate Ready(c: Config, q: Queue, family: Family, now: Time, k: Key)
  {
    && k in q.entries && RequestOf(q.entries[k].shape, family).Some?
    && (q.entries[k].drained.Some? ==>
          q.entries[k].drained.value <= now - Cooldown(c, family) * Backoff(q.entries[k], FeedbackOf(q, k)))
  }

  // ---- the order of candidates ----------------------------------------------------------------------------------

  datatype Candidate = Candidate(key: Key, hits: u32, lastSeen: Time, streak: u32, lastResultCount: u32, observed: bool)

  function CandidateOf(q: Queue, k: Key): Candidate
    requires k in q.entries
  {
    var (e, f) := (q.entries[k], FeedbackOf(q, k));
    Candidate(k, e.hits, e.lastSeen, f.streak, f.lastResultCount,
              f.lastOutcomeAt.None? || e.lastSeen > f.lastOutcomeAt.value)
  }

  predicate HighQuality(a: Candidate) { a.hits >= 2 || a.lastResultCount > 0 }

  /** Byte-wise lexicographic order of the logical keys. */
  predicate KeyLess(a: Key, b: Key)
  {
    if b == [] then false
    else if a == [] then true
    else a[0] < b[0] || (a[0] == b[0] && KeyLess(a[1..], b[1..]))
  }

  /** The three comparators say "less". */
  predicate Before(family: Family, a: Candidate, b: Candidate)
  {
    if a.observed != b.observed then a.observed
    else if family.Sources? && HighQuality(a) != HighQuality(b) then HighQuality(a)
    else if a.streak != b.streak then a.streak < b.streak
    else if a.lastResultCount != b.lastResultCount then a.lastResultCount > b.lastResultCount
    else if a.hits != b.hits then a.hits > b.hits
    else if a.lastSeen != b.lastSeen then a.lastSeen > b.lastSeen
    else KeyLess(a.key, b.key)
  }

  lemma {:induction false} KeyLessTotal(a: Key, b: Key)
    ensures a != b ==> KeyLess(a, b) != KeyLess(b, a)
    ensures !KeyLess(a, a)
  {
    if a != [] && b != [] && a[0] == b[0] {
      KeyLessTotal(a[1..], b[1..]);
      assert a == [a[0]] + a[1..] && b == [b[0]] + b[1..];
    }
    if a != [] { KeyLessTotal(a[1..], a[1..]); }
  }

  lemma {:induction false} KeyLessTrans(a: Key, b: Key, c: Key)
    requires KeyLess(a, b) && KeyLess(b, c)
    ensures KeyLess(a, c)
  {
    if a != [] && a[0] == b[0] == c[0] { KeyLessTrans(a[1..], b[1..], c[1..]); }
  }

  /** Candidates with different keys never tie, whatever else they share. */
  lemma BeforeTotal(family: Family, a: Candidate, b: Candidate)
    ensures a.key != b.key ==> Before(family, a, b) != Before(family, b, a)
    ensures !Before(family, a, a)
  {
    KeyLessTotal(a.key, b.key);
    KeyLessTotal(a.key, a.key);
  }

  lemma BeforeTrans(family: Family, a: Candidate, b: Candidate, c: Candidate)
    requires Before(family, a, b) && Before(family, b, c)
    ensures Before(family, a, c)
  {
    if KeyLess(a.key, b.key) && KeyLess(b.key, c.key) { KeyLessTrans(a.key, b.key, c.key); }
  }

  // ---- selection ----------------------------------------------------------------------------------------------------

  function Eligible(c: Config, q: Queue, family: Family, now: Time): set<Key>
  {
    set k | k in q.entries && Ready(c, q, family, now, k)
  }

  /** Sources keep to high-quality candidates as soon as there is one, recent or stale. */
  function Pool(c: Config, q: Queue, family: Family, now: Time): set<Key>
  {
    var good := set k | k in Eligible(c, q, family, now) && HighQuality(CandidateOf(q, k));
    if family.Sources? && good != {} then good else Eligible(c, q, family, now)
  }

  predicate Recent(c: Config, q: Queue, now: Time, k: Key)
    requires k in q.entries
  {
    q.entries[k].lastSeen >= now - c.dedupWindow
  }

  /** Recent candidates go first; stale ones only when there is no recent one. */
  function Tier(c: Config, q: Queue, family: Family, now: Time): set<Key>
  {
    var recent := set k | k in Pool(c, q, family, now) && Recent(c, q, now, k);
    if recent != {} then recent else Pool(c, q, family, now)
  }

  ghost predicate IsBest(q: Queue, family: Family, keys: set<Key>, k: Key)
    requires forall j :: j in keys ==> j in q.entries
  {
    k in keys && forall j :: j in keys && j != k ==> Before(family, CandidateOf(q, k), CandidateOf(q, j))
  }

  lemma {:induction false} BestExists(q: Queue, family: Family, keys: set<Key>) returns (k: Key)
    requires keys != {} && forall j :: j in keys ==> j in q.entries
    ensures IsBest(q, family, keys, k)
  {
    hide Before, CandidateOf;
    var x :| x in keys;
    k := x;
    var rest := keys - {x};
    if rest != {} {
      var best := BestExists(q, family, rest);
      BeforeTotal(family, CandidateOf(q, x), CandidateOf(q, best));
      KeyOfCandidate(q, x);
      KeyOfCandidate(q, best);
      if Before(family, CandidateOf(q, best), CandidateOf(q, x)) {
        k := best;
      } else {
        forall j | j in keys && j != x ensures Before(family, CandidateOf(q, x), CandidateOf(q, j)) {
          if j != best { BeforeTrans(family, CandidateOf(q, x), CandidateOf(q, best), CandidateOf(q, j)); }
        }
      }
    } else {
      assert keys == {x};
    }
  }

  lemma KeyOfCandidate(q: Queue, k: Key)
    requires k in q.entries
    ensures CandidateOf(q, k).key == k
  {
  }

  /** There is at most one best candidate, so no iteration order of the map can change the choice. */
  lemma BestUnique(q: Queue, family: Family, keys: set<Key>, k: Key, j: Key)
    requires forall x :: x in keys ==> x in q.entries
    requires IsBest(q, family, keys, k) && IsBest(q, family, keys, j)
    ensures k == j
  {
    BeforeTotal(family, CandidateOf(q, k), CandidateOf(q, j));
  }

  /** The candidate to replay, if the window has room and there is one. */
  ghost function Choice(c: Config, q: Queue, family: Family, now: Time): (r: Option<Key>)
    ensures r.Some? ==> IsBest(q, family, Tier(c, q, family, now), r.value)
    ensures r.None? ==> Tier(c, q, family, now) == {}
  {
    var keys := Tier(c, q, family, now);
    if keys == {} then None
    else
      assert exists k :: IsBest(q, family, keys, k) by { var k := BestExists(q, family, keys); }
      var k :| IsBest(q, family, keys, k);
      Some(k)
  }

  // ---- the calls ------------------------------------------------------------------------------------------------

  function PruneFront(drains: seq<Time>, cutoff: Time): (r: seq<Time>)
    ensures |r| <= |drains|
  {
    if drains != [] && drains[0] < cutoff then PruneFront(drains[1..], cutoff) else drains
  }

  function Drained(q: Queue, family: Family, k: Key, now: Time): Queue
    requires k in q.entries
  {
    WithDrains(q.(entries := q.entries[k := q.entries[k].(drained := Some(now))]), family, Drains(q, family) + [now])
  }

  function Pruned(q: Queue, family: Family, now: Time): Queue
  {
    WithDrains(q, family, PruneFront(Drains(q, family), now - WINDOW))
  }

  /** `select_next_*_request`: the key drained, if any. */
  ghost function Selected(c: Config, q: Queue, family: Family, now: Time): Option<Key>
  {
    if |Drains(Pruned(q, family, now), family)| >= MaxQueries(c, family) then None else Choice(c, q, family, now)
  }

  ghost function Select(c: Config, q: Queue, family: Family, now: Time): Queue
  {
    var k := Selected(c, q, family, now);
    if k.None? then Pruned(q, family, now) else Drained(Pruned(q, family, now), family, k.value, now)
  }

  function SatAdd(a: u32, b: u32): u32 { if a + b <= U32_MAX then a + b else U32_MAX }

  function LaterOf(a: Option<Time>, b: Option<Time>): Option<Time>
  {
    if a.None? then b else if b.None? then a else Some(Max(a.value, b.value))
  }

  function Combined(old_: Entry, e: Entry): Entry
  {
    Entry(old_.shape, SatAdd(old_.hits, e.hits), Min(old_.firstSeen, e.firstSeen), Max(old_.lastSeen, e.lastSeen),
          LaterOf(old_.drained, e.drained))
  }

  function MergeEntry(entries: map<Key, Entry>, e: Entry): map<Key, Entry>
  {
    var k := e.shape.key;
    entries[k := if k in entries then Combined(entries[k], e) else e]
  }

  /** `should_skip_restored_entry`: served or one-off source demand is not restored. */
  predicate Skipped(e: Entry)
  {
    e.shape.SourceShape? && ((e.drained.Some? && e.lastSeen <= e.drained.value) || e.hits <= 1)
  }

  function RestoreOne(entries: map<Key, Entry>, e: Entry): map<Key, Entry>
  {
    if Skipped(e) then entries else MergeEntry(entries, e)
  }

  function Restore(entries: map<Key, Entry>, saved: seq<Entry>): map<Key, Entry>
    decreases |saved|
  {
    if saved == [] then entries else RestoreOne(Restore(entries, saved[..|saved| - 1]), saved[|saved| - 1])
  }

  predicate Served(e: Entry) { e.shape.SourceShape? && e.drained.Some? && e.lastSeen <= e.drained.value }

  function Without(q: Queue, k: Key): Queue { q.(entries := q.entries - {k}, feedback := q.feedback - {k}) }

  /** `record_replay_outcome`: success forgets the entry; a second failure in a row evicts a served source. */
  function Outcome(q: Queue, k: Key, at: Time, resultCount: nat): Queue
  {
    if resultCount > 0 then Without(q, k)
    else
      var f := Feedback(SatAdd(FeedbackOf(q, k).streak, 1), 0, Some(at));
      if f.streak >= 2 && k in q.entries && Served(q.entries[k]) then Without(q, k)
      else q.(feedback := q.feedback[k := f])
  }

  // ---- restoring in any order -----------------------------------------------------------------------------------

  /** Both entries would be stored first under one new key, but ask for different things. */
  predicate Clash(entries: map<Key, Entry>, x: Entry, y: Entry)
  {
    !Skipped(x) && !Skipped(y) && x.shape.key == y.shape.key && x.shape.key !in entries && x.shape != y.shape
  }

  ghost predicate NoClash(entries: map<Key, Entry>, saved: seq<Entry>)
  {
    forall x, y :: x in saved && y in saved ==> !Clash(entries, x, y)
  }

  lemma CombinedCommutes(e: Entry, x: Entry, y: Entry)
    ensures Combined(Combined(e, x), y) == Combined(Combined(e, y), x)
    ensures x.shape == y.shape ==> Combined(x, y) == Combined(y, x)
  {
  }

  lemma RestoreSwap(entries: map<Key, Entry>, x: Entry, y: Entry)
    requires !Clash(entries, x, y)
    ensures RestoreOne(RestoreOne(entries, x), y) == RestoreOne(RestoreOne(entries, y), x)
  {
    if x.shape.key == y.shape.key {
      if x.shape.key in entries { CombinedCommutes(entries[x.shape.key], x, y); }
      CombinedCommutes(x, x, y);
    }
  }

  lemma {:induction false} RestoreKeepsKeys(entries: map<Key, Entry>, saved: seq<Entry>)
    ensures entries.Keys <= Restore(entries, saved).Keys
    decreases |saved|
  {
    if saved != [] { RestoreKeepsKeys(entries, saved[..|saved| - 1]); }
  }

  /** An entry may be restored last instead of where it stands. */
  lemma {:induction false} RestoreLast(entries: map<Key, Entry>, saved: seq<Entry>, i: nat)
    requires i < |saved| && NoClash(entries, saved)
    ensures Restore(entries, saved) == RestoreOne(Restore(entries, RemoveAt(saved, i)), saved[i])
    decreases |saved|
  {
    hide RestoreOne, Skipped;
    var n := |saved| - 1;
    var (x, y) := (saved[i], saved[n]);
    if i == n {
      assert RemoveAt(saved, i) == saved[..n];
    } else {
      var front := saved[..n];
      RestoreLast(entries, front, i);
      var rest := RemoveAt(saved, i);
      assert rest[..|rest| - 1] == RemoveAt(front, i) && rest[|rest| - 1] == y;
      assert !Clash(entries, x, y);
      RestoreKeepsKeys(entries, RemoveAt(front, i));
      RestoreSwap(Restore(entries, RemoveAt(front, i)), x, y);
    }
  }

  /** Without a clash, restoring saved entries in any order gives the same queue. */
  lemma {:induction false} RestoreAnyOrder(entries: map<Key, Entry>, a: seq<Entry>, b: seq<Entry>)
    requires multiset(a) == multiset(b) && NoClash(entries, a)
    ensures Restore(entries, a) == Restore(entries, b)
    decreases |a|
  {
    hide Restore, RestoreOne, NoClash, RemoveAt;
    if a == [] {
      assert |multiset(b)| == 0;
      assert b == a;
    } else {
      var n := |a| - 1;
      assert a[n] in multiset(a);
      var i :| 0 <= i < |b| && b[i] == a[n];
      SameWithout(a, b, i);
      NoClashSame(entries, a, b);
      NoClashWithout(entries, a, n);
      RestoreAnyOrder(entries, RemoveAt(a, n), RemoveAt(b, i));
      RestoreLast(entries, b, i);
      RestoreLast(entries, a, n);
    }
  }

  lemma SameWithout(a: seq<Entry>, b: seq<Entry>, i: nat)
    requires multiset(a) == multiset(b) && a != [] && i < |b| && b[i] == a[|a| - 1]
    ensures multiset(RemoveAt(a, |a| - 1)) == multiset(RemoveAt(b, i))
  {
    MultisetWithout(a, |a| - 1);
    MultisetWithout(b, i);
  }

  lemma MultisetWithout(s: seq<Entry>, i: nat)
    requires i < |s|
    ensures multiset(RemoveAt(s, i)) == multiset(s) - multiset{s[i]}
  {
    assert s == s[..i] + [s[i]] + s[i + 1..];
  }

  lemma NoClashSame(entries: map<Key, Entry>, a: seq<Entry>, b: seq<Entry>)
    requires multiset(a) == multiset(b) && NoClash(entries, a)
    ensures NoClash(entries, b)
  {
    forall e | e in b ensures e in a { assert e in multiset(a); }
  }

  lemma NoClashWithout(entries: map<Key, Entry>, a: seq<Entry>, i: nat)
    requires i < |a| && NoClash(entries, a)
    ensures NoClash(entries, RemoveAt(a, i))
  {
  }

  /** Every permutation of the saved entries restores alike. */
  ghost predicate OrderFree(entries: map<Key, Entry>, saved: seq<Entry>)
  {
    forall b :: multiset(b) == multiset(saved) ==> Restore(entries, b) == Restore(entries, saved)
  }

  /** The first restored entry of a new key settles what the key asks for. */
  lemma {:induction false} FirstDecides(entries: map<Key, Entry>, x: Entry, rest: seq<Entry>)
    requires !Skipped(x) && x.shape.key !in entries
    ensures var q := Restore(entries, [x] + rest);
            x.shape.key in q && q[x.shape.key].shape == x.shape
    decreases |rest|
  {
    var all := [x] + rest;
    if rest == [] {
      assert all == [x] && all[..0] == [];
    } else {
      FirstDecides(entries, x, rest[..|rest| - 1]);
      assert all[..|all| - 1] == [x] + rest[..|rest| - 1];
    }
  }

  lemma MovedFirst(saved: seq<Entry>, x: Entry) returns (rest: seq<Entry>)
    requires x in saved
    ensures multiset([x] + rest) == multiset(saved)
  {
    var i :| 0 <= i < |saved| && saved[i] == x;
    rest := RemoveAt(saved, i);
    MultisetWithout(saved, i);
    assert multiset([x] + rest) == multiset{x} + multiset(rest);
  }

  /** Restoring does not depend on the order exactly when no two saved entries clash: skipped entries and keys
      already queued may differ in shape as they like. */
  lemma OrderFreeIff(entries: map<Key, Entry>, saved: seq<Entry>)
    ensures OrderFree(entries, saved) <==> NoClash(entries, saved)
  {
    hide Restore;
    if NoClash(entries, saved) {
      forall b | multiset(b) == multiset(saved) ensures Restore(entries, b) == Restore(entries, saved) {
        RestoreAnyOrder(entries, saved, b);
      }
    } else {
      var x, y :| x in saved && y in saved && Clash(entries, x, y);
      var xs := MovedFirst(saved, x);
      var ys := MovedFirst(saved, y);
      FirstDecides(entries, x, xs);
      FirstDecides(entries, y, ys);
      assert Restore(entries, [x] + xs) != Restore(entries, [y] + ys);
    }
  }

  predicate Counts(e: Entry, k: Key) { !Skipped(e) && e.shape.key == k }

  function HitSum(saved: seq<Entry>, k: Key): nat
  {
    if saved == [] then 0
    else HitSum(saved[..|saved| - 1], k) + (if Counts(saved[|saved| - 1], k) then saved[|saved| - 1].hits else 0)
  }

  ghost predicate Covers(e: Entry, x: Entry)
  {
    e.firstSeen <= x.firstSeen && x.lastSeen <= e.lastSeen
    && (x.drained.Some? ==> e.drained.Some? && x.drained.value <= e.drained.value)
  }

  /** Total hits up to saturation, and the extreme times among the saved entries of the key, each attained. */
  ghost predicate Sums(e: Entry, saved: seq<Entry>, k: Key)
  {
    && e.hits == Min(HitSum(saved, k), U32_MAX)
    && (forall x :: x in saved && Counts(x, k) ==> Covers(e, x))
    && (exists x :: x in saved && Counts(x, k) && x.firstSeen == e.firstSeen)
    && (exists x :: x in saved && Counts(x, k) && x.lastSeen == e.lastSeen)
    && (e.drained.Some? ==> exists x :: x in saved && Counts(x, k) && x.drained == e.drained)
  }

  /** What restoring into an empty queue leaves for each key. */
  lemma {:induction false} RestoredSums(saved: seq<Entry>, k: Key)
    ensures k in Restore(map[], saved) <==> exists x :: x in saved && Counts(x, k)
    ensures k in Restore(map[], saved) ==> Sums(Restore(map[], saved)[k], saved, k)
    ensures k !in Restore(map[], saved) ==> HitSum(saved, k) == 0
    decreases |saved|
  {
    if saved != [] {
      var (front, x) := (saved[..|saved| - 1], saved[|saved| - 1]);
      RestoredSums(front, k);
      assert saved == front + [x];
      if Counts(x, k) {
        if k in Restore(map[], front) {
          SumsMore(Restore(map[], front)[k], front, x, k);
        } else {
          SumsFirst(front, x, k);
        }
      } else if k in Restore(map[], front) {
        SumsOther(Restore(map[], front)[k], front, x, k);
      }
    }
  }

  lemma SumsFirst(front: seq<Entry>, x: Entry, k: Key)
    requires Counts(x, k) && HitSum(front, k) == 0 && forall y :: y in front ==> !Counts(y, k)
    ensures Sums(x, front + [x], k)
  {
    assert (front + [x])[..|front|] == front;
    assert x in front + [x];
  }

  lemma SumsMore(e: Entry, front: seq<Entry>, x: Entry, k: Key)
    requires Sums(e, front, k) && Counts(x, k)
    ensures Sums(Combined(e, x), front + [x], k)
  {
    var all := front + [x];
    assert all[..|front|] == front;
    assert x in all && forall y :: y in front ==> y in all;
    var r := Combined(e, x);
    var a :| a in front && Counts(a, k) && a.firstSeen == e.firstSeen;
    var b :| b in front && Counts(b, k) && b.lastSeen == e.lastSeen;
    assert a in all && b in all;
    assert r.firstSeen == a.firstSeen || r.firstSeen == x.firstSeen;
    assert r.lastSeen == b.lastSeen || r.lastSeen == x.lastSeen;
    if e.drained.Some? {
      var d :| d in front && Counts(d, k) && d.drained == e.drained;
      assert d in all && (r.drained == d.drained || r.drained == x.drained);
    }
  }

  lemma SumsOther(e: Entry, front: seq<Entry>, x: Entry, k: Key)
    requires Sums(e, front, k) && !Counts(x, k)
    ensures Sums(e, front + [x], k)
  {
    assert (front + [x])[..|front|] == front;
    assert forall y :: y in front ==> y in front + [x];
  }

  /** Two entries restore alike in both orders exactly when they do not clash. */
  lemma ShapesMatter(entries: map<Key, Entry>, x: Entry, y: Entry)
    ensures Restore(entries, [x, y]) == Restore(entries, [y, x]) <==> !Clash(entries, x, y)
  {
    TwoRestored(entries, x, y);
    TwoRestored(entries, y, x);
    if Clash(entries, x, y) {
      FirstDecides(entries, x, [y]);
      FirstDecides(entries, y, [x]);
      assert [x] + [y] == [x, y] && [y] + [x] == [y, x];
    } else {
      RestoreSwap(entries, x, y);
    }
  }

  lemma TwoRestored(entries: map<Key, Entry>, x: Entry, y: Entry)
    ensures Restore(entries, [x, y]) == RestoreOne(RestoreOne(entries, x), y)
  {
    var two := [x, y];
    assert two[..1] == [x] && [x][..0] == [];
    assert Restore(entries, [x]) == RestoreOne(entries, x);
  }
}

/** What every run of the scheduler keeps: the sliding-window rate and the spacing of replays. */
module SnoopRuns {
  import opened Common
  import opened SnoopScheduling

  datatype Op =
    | RecordOp(entry: Entry)
    | RestoreOp(saved: seq<Entry>)
    | SelectOp(family: Family, at: Time)
    | OutcomeOp(key: Key, at: Time, resultCount: nat)

  ghost function Step(c: Config, q: Queue, op: Op): Queue
  {
    match op
    case RecordOp(e) => q.(entries := MergeEntry(q.entries, e))
    case RestoreOp(saved) => q.(entries := Restore(q.entries, saved))
    case SelectOp(family, at) => Select(c, q, family, at)
    case OutcomeOp(k, at, resultCount) => Outcome(q, k, at, resultCount)
  }

  ghost function Run(c: Config, ops: seq<Op>): Queue
  {
    if ops == [] then Queue(map[], map[], [], []) else Step(c, Run(c, ops[..|ops| - 1]), ops[|ops| - 1])
  }

  /** The key the last operation drained from state `q`. */
  ghost function DrainedBy(c: Config, q: Queue, op: Op): Option<Key>
  {
    if op.SelectOp? then Selected(c, q, op.family, op.at) else None
  }

  // ---- the rate window ------------------------------------------------------------------------------------------

  /** Families that share a window: keywords with notes, sources alone. */
  predicate Shares(family: Family, other: Family) { family.Sources? == other.Sources? }

  /** Times of all drains that count against the window of `family`, in order. */
  ghost function DrainLog(c: Config, ops: seq<Op>, family: Family): seq<Time>
  {
    if ops == [] then []
    else
      var (front, op) := (ops[..|ops| - 1], ops[|ops| - 1]);
      DrainLog(c, front, family)
      + (if DrainedBy(c, Run(c, front), op).Some? && Shares(op.family, family) then [op.at] else [])
  }

  /** Selection times do not decrease. */
  ghost predicate Ordered(ops: seq<Op>)
  {
    forall i, j :: 0 <= i < j < |ops| && ops[i].SelectOp? && ops[j].SelectOp? ==> ops[i].at <= ops[j].at
  }

  ghost predicate NotBefore(ops: seq<Op>, now: Time)
  {
    forall i :: 0 <= i < |ops| && ops[i].SelectOp? ==> ops[i].at <= now
  }

  /** The deque is a suffix of the log, and what was dropped is out of the window for good. */
  ghost predicate WindowOk(log: seq<Time>, drains: seq<Time>, now: Time)
  {
    && |drains| <= |log| && log[|log| - |drains|..] == drains
    && (forall i :: 0 <= i < |log| - |drains| ==> log[i] < now - WINDOW)
    && (forall i :: 0 <= i < |log| ==> log[i] <= now)
    && (forall i, j :: 0 <= i < j < |log| ==> log[i] <= log[j])
  }

  lemma {:induction false} PruneWindow(log: seq<Time>, drains: seq<Time>, now: Time)
    requires WindowOk(log, drains, now)
    ensures WindowOk(log, PruneFront(drains, now - WINDOW), now)
    decreases |drains|
  {
    if drains != [] && drains[0] < now - WINDOW {
      assert log[|log| - |drains|] == drains[0];
      PruneWindow(log, drains[1..], now);
    }
  }

  lemma PushWindow(log: seq<Time>, drains: seq<Time>, now: Time)
    requires WindowOk(log, drains, now)
    ensures WindowOk(log + [now], drains + [now], now)
  {
    var (l, d) := (log + [now], drains + [now]);
    assert l[|l| - |d|..] == log[|log| - |drains|..] + [now];
  }

  lemma {:induction false} RunWindow(c: Config, ops: seq<Op>, family: Family, now: Time)
    requires Ordered(ops) && NotBefore(ops, now)
    ensures WindowOk(DrainLog(c, ops, family), Drains(Run(c, ops), family), now)
  {
    hide Selected, PruneFront, Restore, MergeEntry, WindowOk;
    if ops == [] {
      EmptyWindow(now);
    } else {
      var (front, op) := (ops[..|ops| - 1], ops[|ops| - 1]);
      RunWindow(c, front, family, now);
      if op.SelectOp? && Shares(op.family, family) {
        RunWindow(c, front, family, op.at);
        SelectWindow(c, front, op.family, family, op.at);
        LaterWindow(DrainLog(c, ops, family), Drains(Run(c, ops), family), op.at, now);
      } else {
        assert DrainLog(c, ops, family) == DrainLog(c, front, family);
        OtherStep(c, Run(c, front), op, family);
      }
    }
  }

  lemma OtherStep(c: Config, q: Queue, op: Op, family: Family)
    requires !(op.SelectOp? && Shares(op.family, family))
    ensures Drains(Step(c, q, op), family) == Drains(q, family)
  {
    hide Selected;
  }

  lemma EmptyWindow(now: Time)
    ensures WindowOk([], [], now)
  {
  }

  lemma LaterWindow(log: seq<Time>, drains: seq<Time>, now: Time, later: Time)
    requires WindowOk(log, drains, now) && now <= later
    ensures WindowOk(log, drains, later)
  {
  }

  lemma SelectWindow(c: Config, front: seq<Op>, asked: Family, family: Family, now: Time)
    requires Shares(asked, family)
    requires WindowOk(DrainLog(c, front, family), Drains(Run(c, front), family), now)
    ensures var q := Run(c, front);
            WindowOk(DrainLog(c, front, family) + (if Selected(c, q, asked, now).Some? then [now] else []),
                     Drains(Select(c, q, asked, now), family), now)
  {
    hide Selected, WindowOk, PruneFront, Run, DrainLog;
    var log := DrainLog(c, front, family);
    var drains := Drains(Run(c, front), family);
    PruneWindow(log, drains, now);
    PushWindow(log, PruneFront(drains, now - WINDOW), now);
    assert log + [] == log;
  }

  function CountIn(log: seq<Time>, lo: Time, hi: Time): nat
  {
    if log == [] then 0
    else CountIn(log[..|log| - 1], lo, hi) + (if lo <= log[|log| - 1] <= hi then 1 else 0)
  }

  /** Entries before position `n` are too old to count. */
  lemma {:induction false} CountSuffix(log: seq<Time>, n: nat, lo: Time, hi: Time)
    requires n <= |log| && forall i :: 0 <= i < n ==> log[i] < lo
    ensures CountIn(log, lo, hi) <= |log| - n
  {
    if log != [] {
      CountSuffix(log[..|log| - 1], if n < |log| then n else n - 1, lo, hi);
    }
  }

  /** In every run with non-decreasing times, the closed 600-second span that ends at any drain holds at most the
      configured number of drains of that window, however the calls interleave. */
  lemma {:induction false} RateBound(c: Config, ops: seq<Op>, family: Family, i: nat)
    requires Ordered(ops) && i < |DrainLog(c, ops, family)|
    ensures var log := DrainLog(c, ops, family);
            CountIn(log, log[i] - WINDOW, log[i]) <= MaxQueries(c, family)
  {
    hide Selected, Run, WindowOk, CountIn;
    var (front, op) := (ops[..|ops| - 1], ops[|ops| - 1]);
    var (before, log) := (DrainLog(c, front, family), DrainLog(c, ops, family));
    if DrainedBy(c, Run(c, front), op).Some? && Shares(op.family, family) {
      RunWindow(c, front, family, op.at);
      NewSpan(c, front, op.family, family, op.at);
      if log[i] != op.at {
        RunWindowBound(c, front, family, op.at, i);
        RateBound(c, front, family, i);
        CountLater(before, op.at, log[i] - WINDOW, log[i]);
      }
    } else {
      assert log == before;
      RateBound(c, front, family, i);
    }
  }

  lemma CountLater(log: seq<Time>, t: Time, lo: Time, hi: Time)
    requires hi < t
    ensures CountIn(log + [t], lo, hi) == CountIn(log, lo, hi)
  {
    assert (log + [t])[..|log|] == log;
  }

  lemma RunWindowBound(c: Config, front: seq<Op>, family: Family, now: Time, i: nat)
    requires WindowOk(DrainLog(c, front, family), Drains(Run(c, front), family), now)
    requires i < |DrainLog(c, front, family)|
    ensures DrainLog(c, front, family)[i] <= now
  {
  }

  /** The span ending at a new drain. */
  lemma NewSpan(c: Config, front: seq<Op>, asked: Family, family: Family, now: Time)
    requires Shares(asked, family)
    requires WindowOk(DrainLog(c, front, family), Drains(Run(c, front), family), now)
    requires Selected(c, Run(c, front), asked, now).Some?
    ensures CountIn(DrainLog(c, front, family) + [now], now - WINDOW, now) <= MaxQueries(c, family)
  {
    hide DrainLog, Run, PruneFront, Choice;
    var (log, drains) := (DrainLog(c, front, family), Drains(Run(c, front), family));
    var kept := PruneFront(drains, now - WINDOW);
    PruneWindow(log, drains, now);
    assert (log + [now])[..|log|] == log;
    CountSuffix(log, |log| - |kept|, now - WINDOW, now);
  }

  /** Once pruned, everything left in the deque is inside the window. */
  lemma {:induction false} PrunedIsInside(drains: seq<Time>, cutoff: Time)
    requires forall i, j :: 0 <= i < j < |drains| ==> drains[i] <= drains[j]
    ensures forall i :: 0 <= i < |PruneFront(drains, cutoff)| ==> cutoff <= PruneFront(drains, cutoff)[i]
  {
    if drains != [] && drains[0] < cutoff { PrunedIsInside(drains[1..], cutoff); }
  }

  lemma {:induction false} CountAll(log: seq<Time>, n: nat, lo: Time, hi: Time)
    requires n <= |log| && forall i :: n <= i < |log| ==> lo <= log[i] <= hi
    ensures CountIn(log, lo, hi) >= |log| - n
  {
    if n < |log| { CountAll(log[..|log| - 1], n, lo, hi); }
  }

  /** The pruned deque has exactly the drains of the closed span ending now. */
  lemma DequeCounts(c: Config, ops: seq<Op>, family: Family, now: Time)
    requires Ordered(ops) && NotBefore(ops, now)
    ensures |PruneFront(Drains(Run(c, ops), family), now - WINDOW)|
            == CountIn(DrainLog(c, ops, family), now - WINDOW, now)
  {
    hide Run, DrainLog, PruneFront;
    var (log, drains) := (DrainLog(c, ops, family), Drains(Run(c, ops), family));
    RunWindow(c, ops, family, now);
    PruneWindow(log, drains, now);
    var kept := PruneFront(drains, now - WINDOW);
    var n := |log| - |kept|;
    assert log[n..] == kept;
    CountSuffix(log, n, now - WINDOW, now);
    SuffixSorted(log, drains);
    PrunedIsInside(drains, now - WINDOW);
    forall i | n <= i < |log| ensures now - WINDOW <= log[i] <= now { assert log[i] == kept[i - n]; }
    CountAll(log, n, now - WINDOW, now);
  }

  lemma SuffixSorted(log: seq<Time>, drains: seq<Time>)
    requires |drains| <= |log| && log[|log| - |drains|..] == drains
    requires forall i, j :: 0 <= i < j < |log| ==> log[i] <= log[j]
    ensures forall i, j :: 0 <= i < j < |drains| ==> drains[i] <= drains[j]
  {
    var n := |log| - |drains|;
    assert forall i :: 0 <= i < |drains| ==> drains[i] == log[n + i];
  }

  /** A selection drains something exactly when some entry is ready and the span holds fewer than the maximum:
      neither the window nor the choice ever blocks without cause. */
  lemma SelectedIff(c: Config, ops: seq<Op>, family: Family, now: Time)
    requires Ordered(ops) && NotBefore(ops, now)
    ensures Selected(c, Run(c, ops), family, now).Some? <==>
              && CountIn(DrainLog(c, ops, family), now - WINDOW, now) < MaxQueries(c, family)
              && exists k :: Ready(c, Run(c, ops), family, now, k)
  {
    hide Run, DrainLog, Ready, PruneFront;
    DequeCounts(c, ops, family, now);
    TierEmptyIff(c, Run(c, ops), family, now);
  }

  lemma TierEmptyIff(c: Config, q: Queue, family: Family, now: Time)
    ensures Tier(c, q, family, now) == {} <==> forall k :: !Ready(c, q, family, now, k)
  {
    if k :| Ready(c, q, family, now, k) { assert k in Eligible(c, q, family, now); }
    if Tier(c, q, family, now) != {} {
      var k :| k in Tier(c, q, family, now);
      assert k in Eligible(c, q, family, now);
    }
  }

  /** No backoff lasts longer than four cooldowns, and an entry never drained is ready at once. */
  lemma ReadyAgain(c: Config, q: Queue, family: Family, now: Time, k: Key)
    requires k in q.entries && RequestOf(q.entries[k].shape, family).Some?
    requires q.entries[k].drained.Some? ==> q.entries[k].drained.value <= now - 4 * Cooldown(c, family)
    ensures Ready(c, q, family, now, k)
  {
    var b := Backoff(q.entries[k], FeedbackOf(q, k));
    assert 1 <= b <= 4;
    assert Cooldown(c, family) * b <= Cooldown(c, family) * 4;
  }

  // ---- spacing of replays ------------------------------------------------------------------------------------------

  /** When `k` was last drained, as long as it has stayed queued since. */
  ghost function LastDrain(c: Config, ops: seq<Op>, k: Key): Option<Time>
  {
    if ops == [] || k !in Run(c, ops).entries then None
    else
      var (front, op) := (ops[..|ops| - 1], ops[|ops| - 1]);
      if DrainedBy(c, Run(c, front), op) == Some(k) then Some(op.at) else LastDrain(c, front, k)
  }

  predicate DrainedSince(entries: map<Key, Entry>, k: Key, t: Time)
  {
    k in entries && entries[k].drained.Some? && t <= entries[k].drained.value
  }

  lemma {:induction false} RestoreRemembers(entries: map<Key, Entry>, saved: seq<Entry>, k: Key, t: Time)
    requires DrainedSince(entries, k, t)
    ensures DrainedSince(Restore(entries, saved), k, t)
    decreases |saved|
  {
    if saved != [] {
      RestoreRemembers(entries, saved[..|saved| - 1], k, t);
    }
  }

  lemma StepRemembers(c: Config, q: Queue, op: Op, k: Key, t: Time)
    requires DrainedSince(q.entries, k, t) && k in Step(c, q, op).entries && DrainedBy(c, q, op) != Some(k)
    ensures DrainedSince(Step(c, q, op).entries, k, t)
  {
    hide Selected;
    if op.RestoreOp? { RestoreRemembers(q.entries, op.saved, k, t); }
  }

  lemma DrainMarks(c: Config, q: Queue, op: Op, k: Key)
    requires DrainedBy(c, q, op) == Some(k)
    ensures DrainedSince(Step(c, q, op).entries, k, op.at)
  {
    hide Selected;
  }

  /** New keys appear undrained or with the mark they were saved with; a queued key keeps its latest mark. */
  lemma {:induction false} RunRemembers(c: Config, ops: seq<Op>, k: Key, t: Time)
    requires LastDrain(c, ops, k) == Some(t)
    ensures DrainedSince(Run(c, ops).entries, k, t)
  {
    hide Step, DrainedBy, DrainedSince;
    var (front, op) := (ops[..|ops| - 1], ops[|ops| - 1]);
    if DrainedBy(c, Run(c, front), op) == Some(k) {
      DrainMarks(c, Run(c, front), op, k);
    } else {
      RunRemembers(c, front, k, t);
      StepRemembers(c, Run(c, front), op, k, t);
    }
  }

  /** Two drains of an entry that stayed queued are at least one cooldown apart, and `min(streak + 1, 4)`
      cooldowns if the entry has not been seen again since its last outcome. */
  lemma CooldownKept(c: Config, ops: seq<Op>, family: Family, now: Time, k: Key, t: Time)
    requires LastDrain(c, ops, k) == Some(t) && Selected(c, Run(c, ops), family, now) == Some(k)
    ensures k in Run(c, ops).entries
    ensures var q := Run(c, ops);
            var f := FeedbackOf(q, k);
            && now - t >= Cooldown(c, family)
            && (f.lastOutcomeAt.Some? && q.entries[k].lastSeen <= f.lastOutcomeAt.value ==>
                  now - t >= Cooldown(c, family) * Min(f.streak + 1, 4))
  {
    hide Run, LastDrain;
    RunRemembers(c, ops, k, t);
    var q := Run(c, ops);
    SelectedIsReady(c, q, family, now, k);
    BackoffAtLeastOne(c, family, q.entries[k], FeedbackOf(q, k));
  }

  lemma SelectedIsReady(c: Config, q: Queue, family: Family, now: Time, k: Key)
    requires Selected(c, q, family, now) == Some(k)
    ensures Ready(c, q, family, now, k)
  {
    hide Ready;
  }

  lemma BackoffAtLeastOne(c: Config, family: Family, e: Entry, f: Feedback)
    ensures Cooldown(c, family) <= Cooldown(c, family) * Backoff(e, f)
    ensures f.lastOutcomeAt.Some? && e.lastSeen <= f.lastOutcomeAt.value ==> Backoff(e, f) == Min(f.streak + 1, 4)
  {
    Multiple(Cooldown(c, family), Backoff(e, f));
  }

  lemma Multiple(a: nat, b: nat)
    requires b >= 1
    ensures a <= a * b
  {
    assert a * b == a * (b - 1) + a;
  }

  /** Failed replays of `k` since its feedback was last forgotten. */
  ghost function Failures(c: Config, ops: seq<Op>, k: Key): nat
  {
    if ops == [] || k !in Run(c, ops).feedback then 0
    else
      var (front, op) := (ops[..|ops| - 1], ops[|ops| - 1]);
      Failures(c, front, k) + (if op.OutcomeOp? && op.key == k then 1 else 0)
  }

  /** The streak is that number, saturating; the recorded result count is always zero. */
  lemma {:induction false} StreakCounts(c: Config, ops: seq<Op>, k: Key)
    ensures FeedbackOf(Run(c, ops), k).streak == Min(Failures(c, ops, k), U32_MAX)
    ensures FeedbackOf(Run(c, ops), k).lastResultCount == 0
  {
    hide Selected, Restore, MergeEntry, Pruned;
    if ops != [] {
      StreakCounts(c, ops[..|ops| - 1], k);
      SelectKeepsFeedback(c, Run(c, ops[..|ops| - 1]), ops[|ops| - 1]);
    }
  }

  lemma SelectKeepsFeedback(c: Config, q: Queue, op: Op)
    ensures !op.OutcomeOp? ==> Step(c, q, op).feedback == q.feedback
  {
    hide Selected;
  }
}

/** `SnoopQueue`: its maps and deques updated in place. The ghost log lists every call, and `Valid` says the
    fields are what that run produces. */
module SnoopQueues {
  import opened Common
  import opened SnoopScheduling
  import opened SnoopRuns
  import opened Sequences

  lemma RunSnoc(c: Config, ops: seq<Op>, op: Op)
    ensures Run(c, ops + [op]) == Step(c, Run(c, ops), op)
  {
    assert (ops + [op])[..|ops|] == ops;
  }

  /** `cands` are the ready candidates on one side of the recency cutoff, in whatever order. */
  ghost predicate Collected(
    c: Config, q: Queue, family: Family, now: Time, seen: set<Key>, recent: bool, cands: seq<Candidate>)
  {
    && (forall a :: a in cands ==>
          && a.key in seen && a.key in q.entries && a == CandidateOf(q, a.key)
          && Ready(c, q, family, now, a.key) && Recent(c, q, now, a.key) == recent)
    && (forall k :: k in seen && k in q.entries && Ready(c, q, family, now, k) && Recent(c, q, now, k) == recent
          ==> CandidateOf(q, k) in cands)
  }

  lemma CollectOne(
    c: Config, q: Queue, family: Family, now: Time, seen: set<Key>, recent: bool, cands: seq<Candidate>, k: Key)
    requires Collected(c, q, family, now, seen, recent, cands) && k in q.entries
    ensures var belongs := Ready(c, q, family, now, k) && Recent(c, q, now, k) == recent;
            Collected(c, q, family, now, seen + {k}, recent, if belongs then cands + [CandidateOf(q, k)] else cands)
  {
    hide Ready, CandidateOf, Recent;
    KeyOfCandidate(q, k);
  }

  /** Walks the map in an arbitrary order. */
  method Gather(c: Config, q: Queue, family: Family, now: Time) returns (recent: seq<Candidate>, stale: seq<Candidate>)
    ensures Collected(c, q, family, now, q.entries.Keys, true, recent)
    ensures Collected(c, q, family, now, q.entries.Keys, false, stale)
  {
    hide Ready, CandidateOf, Recent, Collected;
    recent, stale := [], [];
    var remaining := q.entries.Keys;
    NothingCollected(c, q, family, now);
    assert q.entries.Keys - remaining == {};
    while remaining != {}
      invariant remaining <= q.entries.Keys
      invariant Collected(c, q, family, now, q.entries.Keys - remaining, true, recent)
      invariant Collected(c, q, family, now, q.entries.Keys - remaining, false, stale)
      decreases |remaining|
    {
      var k :| k in remaining;
      CollectOne(c, q, family, now, q.entries.Keys - remaining, true, recent, k);
      CollectOne(c, q, family, now, q.entries.Keys - remaining, false, stale, k);
      assert q.entries.Keys - (remaining - {k}) == q.entries.Keys - remaining + {k};
      remaining := remaining - {k};
      if !Ready(c, q, family, now, k) { continue; }
      if Recent(c, q, now, k) { recent := recent + [CandidateOf(q, k)]; } else { stale := stale + [CandidateOf(q, k)]; }
    }
    assert q.entries.Keys - remaining == q.entries.Keys;
  }

  lemma NothingCollected(c: Config, q: Queue, family: Family, now: Time)
    ensures Collected(c, q, family, now, {}, true, []) && Collected(c, q, family, now, {}, false, [])
  {
  }

  ghost predicate KeysIdentify(cands: seq<Candidate>)
  {
    forall a, b :: a in cands && b in cands && a.key == b.key ==> a == b
  }

  ghost predicate IsFirst(family: Family, cands: seq<Candidate>, best: Candidate)
  {
    best in cands && forall a :: a in cands && a != best ==> Before(family, best, a)
  }

  /** The first of the list sorted by the comparator: the candidate before all others. */
  method Best(family: Family, cands: seq<Candidate>) returns (best: Candidate)
    requires cands != [] && KeysIdentify(cands)
    ensures IsFirst(family, cands, best)
  {
    hide Before;
    best := cands[0];
    for i := 1 to |cands|
      invariant IsFirst(family, cands[..i], best)
    {
      assert cands[..i + 1] == cands[..i] + [cands[i]];
      ghost var was := best;
      BeforeTotal(family, best, cands[i]);
      if Before(family, cands[i], best) {
        best := cands[i];
        forall a | a in cands[..i] && a != best ensures Before(family, best, a) {
          if a != was { BeforeTrans(family, best, was, a); }
        }
      }
    }
    assert cands[..|cands|] == cands;
  }

  predicate Promoted(family: Family, recent: seq<Candidate>, stale: seq<Candidate>)
  {
    family.Sources? && (First(recent, HighQuality).Some? || First(stale, HighQuality).Some?)
  }

  function Retained(promoted: bool, cands: seq<Candidate>): seq<Candidate>
  {
    if promoted then Filter(cands, HighQuality) else cands
  }

  ghost predicate IsPick(family: Family, recent: seq<Candidate>, stale: seq<Candidate>, r: Option<Candidate>)
  {
    var p := Promoted(family, recent, stale);
    if Retained(p, recent) != [] then r.Some? && IsFirst(family, Retained(p, recent), r.value)
    else if Retained(p, stale) != [] then r.Some? && IsFirst(family, Retained(p, stale), r.value)
    else r.None?
  }

  lemma RetainedMember(promoted: bool, cands: seq<Candidate>, a: Candidate)
    ensures a in Retained(promoted, cands) <==> a in cands && (promoted ==> HighQuality(a))
  {
    FilterMember(cands, HighQuality, a);
  }

  lemma RetainedIdentify(promoted: bool, cands: seq<Candidate>)
    requires KeysIdentify(cands)
    ensures KeysIdentify(Retained(promoted, cands))
  {
    forall a ensures a in Retained(promoted, cands) ==> a in cands { RetainedMember(promoted, cands, a); }
  }

  /** `select_best_source_candidate`; the other families sort and take the first the same way, unpromoted. */
  method Pick(family: Family, recent: seq<Candidate>, stale: seq<Candidate>) returns (r: Option<Candidate>)
    requires KeysIdentify(recent) && KeysIdentify(stale)
    ensures IsPick(family, recent, stale, r)
  {
    hide KeysIdentify, IsFirst, Retained;
    var promoted := Promoted(family, recent, stale);
    var (best, others) := (Retained(promoted, recent), Retained(promoted, stale));
    RetainedIdentify(promoted, recent);
    RetainedIdentify(promoted, stale);
    if best != [] {
      var first := Best(family, best);
      return Some(first);
    }
    if others != [] {
      var first := Best(family, others);
      return Some(first);
    }
    return None;
  }

  /** The candidate lists as sets of keys. */
  lemma TierKeys(c: Config, q: Queue, family: Family, now: Time, recent: seq<Candidate>, stale: seq<Candidate>, k: Key)
    requires Collected(c, q, family, now, q.entries.Keys, true, recent)
    requires Collected(c, q, family, now, q.entries.Keys, false, stale)
    ensures var p := Promoted(family, recent, stale);
            k in Pool(c, q, family, now) <==>
              k in q.entries && (CandidateOf(q, k) in Retained(p, recent) || CandidateOf(q, k) in Retained(p, stale))
    ensures var p := Promoted(family, recent, stale);
            k in q.entries && CandidateOf(q, k) in Retained(p, recent) ==> Recent(c, q, now, k)
    ensures var p := Promoted(family, recent, stale);
            k in q.entries && CandidateOf(q, k) in Retained(p, stale) ==> !Recent(c, q, now, k)
  {
    hide Ready, CandidateOf, Recent, HighQuality, Retained, Promoted;
    PromotedIff(c, q, family, now, recent, stale);
    if k in q.entries {
      KeyOfCandidate(q, k);
      RetainedMember(Promoted(family, recent, stale), recent, CandidateOf(q, k));
      RetainedMember(Promoted(family, recent, stale), stale, CandidateOf(q, k));
    }
  }

  ghost function Good(c: Config, q: Queue, family: Family, now: Time): set<Key>
  {
    set k | k in Eligible(c, q, family, now) && HighQuality(CandidateOf(q, k))
  }

  lemma PromotedIff(c: Config, q: Queue, family: Family, now: Time, recent: seq<Candidate>, stale: seq<Candidate>)
    requires Collected(c, q, family, now, q.entries.Keys, true, recent)
    requires Collected(c, q, family, now, q.entries.Keys, false, stale)
    ensures Promoted(family, recent, stale) <==> family.Sources? && Good(c, q, family, now) != {}
  {
    hide Ready, CandidateOf, Recent, HighQuality;
    if Good(c, q, family, now) != {} {
      var k :| k in Good(c, q, family, now);
      assert CandidateOf(q, k) in recent || CandidateOf(q, k) in stale;
    }
    var (i, j) := (First(recent, HighQuality), First(stale, HighQuality));
    if i.Some? { assert recent[i.value].key in Good(c, q, family, now); }
    if j.Some? { assert stale[j.value].key in Good(c, q, family, now); }
  }

  /** The list the pick is taken from. */
  function Front(family: Family, recent: seq<Candidate>, stale: seq<Candidate>): seq<Candidate>
  {
    var p := Promoted(family, recent, stale);
    if Retained(p, recent) != [] then Retained(p, recent) else Retained(p, stale)
  }

  lemma FromQueue(
    c: Config, q: Queue, family: Family, now: Time, seen: set<Key>, recent: bool, cands: seq<Candidate>,
    promoted: bool, a: Candidate)
    requires Collected(c, q, family, now, seen, recent, cands) && a in Retained(promoted, cands)
    ensures a.key in q.entries && a == CandidateOf(q, a.key)
  {
    RetainedMember(promoted, cands, a);
  }

  lemma FrontFromQueue(
    c: Config, q: Queue, family: Family, now: Time, recent: seq<Candidate>, stale: seq<Candidate>, a: Candidate)
    requires Collected(c, q, family, now, q.entries.Keys, true, recent)
    requires Collected(c, q, family, now, q.entries.Keys, false, stale)
    requires a in Front(family, recent, stale)
    ensures a.key in q.entries && a == CandidateOf(q, a.key)
  {
    hide Collected, Retained, Promoted;
    var p := Promoted(family, recent, stale);
    if Retained(p, recent) != [] {
      FromQueue(c, q, family, now, q.entries.Keys, true, recent, p, a);
    } else {
      FromQueue(c, q, family, now, q.entries.Keys, false, stale, p, a);
    }
  }

  lemma TierIsFront(c: Config, q: Queue, family: Family, now: Time, recent: seq<Candidate>, stale: seq<Candidate>)
    requires Collected(c, q, family, now, q.entries.Keys, true, recent)
    requires Collected(c, q, family, now, q.entries.Keys, false, stale)
    ensures forall k :: k in Tier(c, q, family, now) <==>
              k in q.entries && CandidateOf(q, k) in Front(family, recent, stale)
  {
    hide Collected, Pool, Retained, Promoted, CandidateOf, Recent;
    var p := Promoted(family, recent, stale);
    var (r, s) := (Retained(p, recent), Retained(p, stale));
    forall k
      ensures k in Pool(c, q, family, now) <==> k in q.entries && (CandidateOf(q, k) in r || CandidateOf(q, k) in s)
      ensures k in q.entries && CandidateOf(q, k) in r ==> Recent(c, q, now, k)
      ensures k in q.entries && CandidateOf(q, k) in s ==> !Recent(c, q, now, k)
    {
      TierKeys(c, q, family, now, recent, stale, k);
    }
    var fresh_ := set k | k in Pool(c, q, family, now) && Recent(c, q, now, k);
    if r != [] {
      FromQueue(c, q, family, now, q.entries.Keys, true, recent, p, r[0]);
      assert r[0].key in fresh_;
    } else {
      assert fresh_ == {};
    }
  }

  /** Whatever order the map was walked in, the pick is the one best candidate of the tier. */
  lemma PickIsChoice(
    c: Config, q: Queue, family: Family, now: Time,
    recent: seq<Candidate>, stale: seq<Candidate>, r: Option<Candidate>)
    requires Collected(c, q, family, now, q.entries.Keys, true, recent)
    requires Collected(c, q, family, now, q.entries.Keys, false, stale)
    requires IsPick(family, recent, stale, r)
    ensures r.Some? ==> r.value.key in q.entries
    ensures Choice(c, q, family, now) == if r.Some? then Some(r.value.key) else None
  {
    hide Collected, Tier, CandidateOf, Retained, Promoted, Before;
    TierIsFront(c, q, family, now, recent, stale);
    var list := Front(family, recent, stale);
    forall k | k in q.entries ensures CandidateOf(q, k).key == k { KeyOfCandidate(q, k); }
    if r.Some? {
      FrontFromQueue(c, q, family, now, recent, stale, r.value);
      assert IsBest(q, family, Tier(c, q, family, now), r.value.key);
      BestUnique(q, family, Tier(c, q, family, now), r.value.key, Choice(c, q, family, now).value);
    } else {
      assert list == [];
    }
  }

  class SnoopQueue {
    const config: Config
    var entries: map<Key, Entry>
    var replayFeedback: map<Key, Feedback>
    var recentGeneralDrains: seq<Time>
    var recentSourceDrains: seq<Time>
    ghost var ops: seq<Op>

    function Contents(): Queue
      reads this
    {
      Queue(entries, replayFeedback, recentGeneralDrains, recentSourceDrains)
    }

    ghost predicate Valid()
      reads this
    {
      Contents() == Run(config, ops)
    }

    constructor (c: Config)
      ensures Valid() && config == c && ops == []
    {
      config := c;
      entries, replayFeedback, recentGeneralDrains, recentSourceDrains, ops := map[], map[], [], [], [];
    }

    /** `merge_entry`: a first sighting reports one hit, whatever count it carries. */
    method Merge(e: Entry) returns (isNew: bool, hits: u32)
      modifies `entries
      ensures entries == MergeEntry(old(entries), e)
      ensures isNew == (e.shape.key !in old(entries))
      ensures hits == if isNew then 1 else entries[e.shape.key].hits
    {
      var k := e.shape.key;
      if k in entries {
        var existing := entries[k];
        var nextHits := SatAdd(existing.hits, e.hits);
        existing := existing.(hits := nextHits);
        existing := existing.(lastSeen := Max(existing.lastSeen, e.lastSeen));
        existing := existing.(firstSeen := Min(existing.firstSeen, e.firstSeen));
        existing := existing.(drained := LaterOf(existing.drained, e.drained));
        entries := entries[k := existing];
        return false, nextHits;
      }
      entries := entries[k := e];
      return true, 1;
    }

    method MergeSnapshot(saved: seq<Entry>)
      requires Valid()
      modifies `entries, `ops
      ensures Valid() && ops == old(ops) + [RestoreOp(saved)]
    {
      hide Run;
      RunSnoc(config, ops, RestoreOp(saved));
      ops := ops + [RestoreOp(saved)];
      for i := 0 to |saved|
        invariant ops == old(ops) + [RestoreOp(saved)]
        invariant entries == Restore(old(entries), saved[..i])
      {
        assert saved[..i + 1][..i] == saved[..i];
        if Skipped(saved[i]) { continue; }
        var _, _ := Merge(saved[i]);
      }
      assert saved[..|saved|] == saved;
    }

    method Record(e: Entry) returns (isNew: bool, hits: u32, depth: nat, familyDepth: nat)
      requires Valid()
      modifies `entries, `ops
      ensures Valid() && ops == old(ops) + [RecordOp(e)]
      ensures isNew == (e.shape.key !in old(entries)) && depth == old(|entries|) + (if isNew then 1 else 0)
      ensures hits == if isNew then 1 else entries[e.shape.key].hits
      ensures familyDepth == |KeysOf(old(entries), FamilyOf(e.shape))| + (if isNew then 1 else 0)
    {
      hide Run, MergeEntry, KeysOf;
      RunSnoc(config, ops, RecordOp(e));
      ops := ops + [RecordOp(e)];
      isNew, hits := Merge(e);
      depth := |entries|;
      familyDepth := |KeysOf(entries, FamilyOf(e.shape))|;
      MergedKeys(old(entries), e);
      MergedFamily(old(entries), e);
    }

    method PruneRecentDrains(family: Family, now: Time)
      modifies `recentGeneralDrains, `recentSourceDrains
      ensures Contents() == Pruned(old(Contents()), family, now)
    {
      var drains := Drains(Contents(), family);
      while drains != [] && drains[0] < now - WINDOW
        invariant PruneFront(drains, now - WINDOW) == PruneFront(Drains(old(Contents()), family), now - WINDOW)
        decreases |drains|
      {
        drains := drains[1..];
      }
      if family.Sources? { recentSourceDrains := drains; } else { recentGeneralDrains := drains; }
    }

    /** The three `select_next_*_request` methods, which differ in the family's request, comparator and limits. */
    method SelectNext(family: Family, now: Time) returns (r: Option<(Key, Request)>)
      requires Valid()
      modifies `entries, `recentGeneralDrains, `recentSourceDrains, `ops
      ensures Valid() && ops == old(ops) + [SelectOp(family, now)]
      ensures var k := Selected(config, old(Contents()), family, now);
              && (r.Some? <==> k.Some?)
              && (k.Some? ==>
                    && k.value in old(entries) && r.value.0 == k.value
                    && RequestOf(old(entries)[k.value].shape, family) == Some(r.value.1))
    {
      hide Run, Choice, Collected, IsPick, KeysIdentify, PruneFront;
      var q := Contents();
      RunSnoc(config, ops, SelectOp(family, now));
      ops := ops + [SelectOp(family, now)];
      PruneRecentDrains(family, now);
      if |Drains(Contents(), family)| >= MaxQueries(config, family) { return None; }
      var recent, stale := Gather(config, q, family, now);
      CollectedIdentify(config, q, family, now, true, recent);
      CollectedIdentify(config, q, family, now, false, stale);
      var picked := Pick(family, recent, stale);
      PickIsChoice(config, q, family, now, recent, stale, picked);
      if picked.None? { return None; }
      var k := picked.value.key;
      SelectedIsReady(config, q, family, now, k);
      r := Some((k, RequestOf(entries[k].shape, family).value));
      entries := entries[k := entries[k].(drained := Some(now))];
      if family.Sources? {
        recentSourceDrains := recentSourceDrains + [now];
      } else {
        recentGeneralDrains := recentGeneralDrains + [now];
      }
    }

    method RecordReplayOutcome(k: Key, completedAt: Time, resultCount: nat)
      requires Valid()
      modifies `entries, `replayFeedback, `ops
      ensures Valid() && ops == old(ops) + [OutcomeOp(k, completedAt, resultCount)]
    {
      hide Run;
      RunSnoc(config, ops, OutcomeOp(k, completedAt, resultCount));
      ops := ops + [OutcomeOp(k, completedAt, resultCount)];
      if resultCount > 0 {
        entries := entries - {k};
        replayFeedback := replayFeedback - {k};
        return;
      }
      var feedback := FeedbackOf(Contents(), k);
      feedback := Feedback(SatAdd(feedback.streak, 1), 0, Some(completedAt));
      replayFeedback := replayFeedback[k := feedback];
      if feedback.streak >= 2 && k in entries && Served(entries[k]) {
        entries := entries - {k};
        replayFeedback := replayFeedback - {k};
      }
    }
  }

  lemma MergedKeys(entries: map<Key, Entry>, e: Entry)
    ensures |MergeEntry(entries, e)| == |entries| + (if e.shape.key in entries then 0 else 1)
    ensures e.shape.key in MergeEntry(entries, e)
  {
    assert MergeEntry(entries, e).Keys == entries.Keys + {e.shape.key};
  }

  lemma MergedShape(entries: map<Key, Entry>, e: Entry, x: Key)
    ensures x in MergeEntry(entries, e) <==> x in entries || x == e.shape.key
    ensures x in MergeEntry(entries, e) ==>
              MergeEntry(entries, e)[x].shape == if x in entries then entries[x].shape else e.shape
  {
  }

  /** Merging adds a key to its family or leaves every family as it was. */
  lemma MergedFamily(entries: map<Key, Entry>, e: Entry)
    ensures |KeysOf(MergeEntry(entries, e), FamilyOf(e.shape))|
            == |KeysOf(entries, FamilyOf(e.shape))| + (if e.shape.key in entries then 0 else 1)
  {
    hide MergeEntry;
    var (k, f, merged) := (e.shape.key, FamilyOf(e.shape), MergeEntry(entries, e));
    forall x ensures x in KeysOf(merged, f) <==> x in KeysOf(entries, f) || (x == k && k !in entries) {
      MergedShape(entries, e, x);
    }
    if k in entries {
      assert KeysOf(merged, f) == KeysOf(entries, f);
    } else {
      assert KeysOf(merged, f) == KeysOf(entries, f) + {k};
    }
  }

  lemma CollectedIdentify(c: Config, q: Queue, family: Family, now: Time, recent: bool, cands: seq<Candidate>)
    requires Collected(c, q, family, now, q.entries.Keys, recent, cands)
    ensures KeysIdentify(cands)
  {
  }
}
