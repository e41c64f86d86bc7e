/** What the walk's verdicts say about its result, and the loop itself. */
module WalkResults {
  import opened Common
  import opened NodeIds
  import opened Contacts
  import opened Nearest
  import opened Traversals
  import opened WalkProofs

  // ---- convergence ------------------------------------------------------------------------------------

  /** Every candidate still pending or in flight lies beyond distance `t`. */
  ghost predicate UnsettledBeyond(cs: seq<Candidate>, t: nat)
  {
    forall i :: 0 <= i < |cs| && cs[i].state in {Pending, Inflight} ==> cs[i].distance > t
  }

  lemma {:induction false} SelectMembers(cs: seq<Candidate>, keep: CandidateState -> bool)
    ensures forall c :: c in Select(cs, keep) <==> c in cs && keep(c.state)
  {
    if cs != [] {
      SelectMembers(cs[1..], keep);
      assert forall c :: c in cs <==> c == cs[0] || c in cs[1..];
    }
  }

  lemma SelectCons(c: Candidate, rest: seq<Candidate>, keep: CandidateState -> bool)
    ensures Select([c] + rest, keep) == (if keep(c.state) then [c] else []) + Select(rest, keep)
  {
    assert ([c] + rest)[1..] == rest;
  }

  lemma TailSorted(cs: seq<Candidate>)
    requires Sorted(cs) && cs != []
    ensures Sorted(cs[1..]) && forall c :: c in cs[1..] ==> cs[0].distance < c.distance
  {
    forall i | 0 <= i < |cs[1..]| ensures cs[0].distance < cs[1..][i].distance { assert cs[1..][i] == cs[i + 1]; }
  }

  lemma SelectLater(cs: seq<Candidate>, n: nat)
    requires Sorted(cs) && cs != [] && n < |Select(cs[1..], IsResponded)|
    ensures cs[0].distance < Select(cs[1..], IsResponded)[n].distance
  {
    TailSorted(cs);
    SelectMembers(cs[1..], IsResponded);
    assert Select(cs[1..], IsResponded)[n] in cs[1..];
  }

  lemma UnsettledBeyondHead(cs: seq<Candidate>, t: nat)
    requires cs != []
    ensures UnsettledBeyond(cs, t) <==>
              (cs[0].state in {Pending, Inflight} ==> cs[0].distance > t) && UnsettledBeyond(cs[1..], t)
  {
    assert forall i :: 0 < i < |cs| ==> cs[i] == cs[1..][i - 1];
    assert forall i :: 0 <= i < |cs[1..]| ==> cs[1..][i] == cs[i + 1];
  }

  lemma BeyondFirst(cs: seq<Candidate>)
    requires Sorted(cs) && cs != []
    ensures UnsettledBeyond(cs[1..], cs[0].distance)
  {
    TailSorted(cs);
    forall i | 0 <= i < |cs[1..]| ensures cs[1..][i].distance > cs[0].distance { assert cs[1..][i] in cs[1..]; }
  }

  lemma UnsettledHeadDiffers(cs: seq<Candidate>, n: nat)
    requires cs != [] && cs[0].state in {Pending, Inflight} && 1 <= n <= |Select(cs, IsResponded)|
    ensures Truncate(Select(cs, IsResponded), n) != Truncate(Select(cs, NotFailed), n)
  {
    SelectMembers(cs, IsResponded);
    assert Select(cs, IsResponded)[0] in Select(cs, IsResponded);
    assert Truncate(Select(cs, IsResponded), n)[0].state == Responded;
    assert Select(cs, NotFailed)[0] == cs[0];
    assert Truncate(Select(cs, NotFailed), n)[0] == cs[0];
  }

  /** The first `n` responders are exactly the first `n` candidates that have not failed, if and only if every
      unsettled candidate lies beyond the `n`-th responder. */
  lemma {:induction false} ConvergedIff(cs: seq<Candidate>, n: nat)
    requires Sorted(cs) && 1 <= n <= |Select(cs, IsResponded)|
    ensures UnsettledBeyond(cs, Select(cs, IsResponded)[n - 1].distance) <==>
              Truncate(Select(cs, IsResponded), n) == Truncate(Select(cs, NotFailed), n)
  {
    hide UnsettledBeyond, Sorted, Truncate;
    assert cs != [];
    hide Select;
    var t := Select(cs, IsResponded)[n - 1].distance;
    UnsettledBeyondHead(cs, t);
    TailSorted(cs);
    var (resp, alive) := (Select(cs[1..], IsResponded), Select(cs[1..], NotFailed));
    assert cs == [cs[0]] + cs[1..];
    SelectCons(cs[0], cs[1..], IsResponded);
    SelectCons(cs[0], cs[1..], NotFailed);
    match cs[0].state
    case Failed =>
      assert Select(cs, NotFailed) == alive && Select(cs, IsResponded) == resp;
      ConvergedIff(cs[1..], n);
    case Responded =>
      assert Select(cs, NotFailed) == [cs[0]] + alive && Select(cs, IsResponded) == [cs[0]] + resp;
      TruncateCons(cs[0], resp, n);
      TruncateCons(cs[0], alive, n);
      if n >= 2 {
        ConvergedIff(cs[1..], n - 1);
        ConsEqual(cs[0], Truncate(resp, n - 1), Truncate(alive, n - 1));
      } else {
        BeyondFirst(cs);
        TruncateNone(resp);
        TruncateNone(alive);
      }
    case _ =>
      assert Select(cs, IsResponded) == resp;
      SelectLater(cs, n - 1);
      UnsettledHeadDiffers(cs, n);
  }

  lemma ConsEqual(c: Candidate, a: seq<Candidate>, b: seq<Candidate>)
    ensures [c] + a == [c] + b <==> a == b
  {
    assert ([c] + a)[1..] == a && ([c] + b)[1..] == b;
  }

  lemma TruncateNone(s: seq<Candidate>)
    ensures Truncate(s, 0) == []
  {
  }

  lemma TruncateCons(c: Candidate, rest: seq<Candidate>, n: nat)
    requires n >= 1
    ensures Truncate([c] + rest, n) == [c] + Truncate(rest, n - 1)
  {
  }

  /** `find_node_lookup_converged` holds exactly when `K` candidates have responded and they are the `K`
      nearest of all candidates that have not failed. */
  lemma LookupConvergedIff(cs: seq<Candidate>)
    requires Sorted(cs)
    ensures LookupConverged(cs) <==>
              |Select(cs, IsResponded)| >= K
              && ClosestResponders(cs, K) == Truncate(Select(cs, NotFailed), K)
  {
    var responded := Select(cs, IsResponded);
    if |responded| >= K {
      ConvergedIff(cs, K);
      assert Truncate(responded, K)[K - 1] == responded[K - 1];
    }
  }

  /** When a node lookup stops by convergence, its answer is the `K` nearest non-failed candidates known, in
      order: a known candidate nearer than the last one returned was returned or has failed. */
  lemma ConvergedAnswer(s: WalkState, events: seq<Event>, fanout: nat, d: Rank)
    requires WalkOk(s, d) && Separating(d) && RunWalk(s, events, FindNode, fanout, d).1 == Converged
    ensures var cs := RunWalk(s, events, FindNode, fanout, d).0.candidates;
            var answer := ClosestResponders(cs, ClosestLimit(FindNode, fanout));
            && |answer| == K && Sorted(answer)
            && answer == Truncate(Select(cs, NotFailed), K)
            && forall c :: c in cs && c.distance <= answer[K - 1].distance ==> c in answer || c.state == Failed
  {
    hide WalkOk, Separating, LookupConverged, Iterate;
    RunKeeps(s, events, FindNode, fanout, d);
    var s' := RunWalk(s, events, FindNode, fanout, d).0;
    ConvergedVerdict(s, events, fanout, d);
    OkSorted(s', d);
    LookupConvergedIff(s'.candidates);
    NearerAccounted(s'.candidates);
  }

  lemma OkSorted(s: WalkState, d: Rank)
    requires WalkOk(s, d)
    ensures Sorted(s.candidates)
  {
  }

  lemma {:induction false} ConvergedVerdict(s: WalkState, events: seq<Event>, fanout: nat, d: Rank)
    requires RunWalk(s, events, FindNode, fanout, d).1 == Converged
    ensures LookupConverged(RunWalk(s, events, FindNode, fanout, d).0.candidates)
  {
    hide LaunchStep, FinishStep, LookupConverged, WindowSettled;
    var n := |events| - 1;
    if RunWalk(s, events[..n], FindNode, fanout, d).1 != Continue {
      ConvergedVerdict(s, events[..n], fanout, d);
    }
  }

  lemma {:induction false} SelectSorted(cs: seq<Candidate>, keep: CandidateState -> bool)
    requires Sorted(cs)
    ensures Sorted(Select(cs, keep))
  {
    if cs != [] {
      TailSorted(cs);
      SelectSorted(cs[1..], keep);
      SelectMembers(cs[1..], keep);
      var rest := Select(cs[1..], keep);
      forall i | 0 <= i < |rest| ensures cs[0].distance < rest[i].distance { assert rest[i] in cs[1..]; }
    }
  }

  lemma NearerAccounted(cs: seq<Candidate>)
    requires Sorted(cs) && |Select(cs, IsResponded)| >= K
    requires ClosestResponders(cs, K) == Truncate(Select(cs, NotFailed), K)
    ensures var answer := ClosestResponders(cs, K);
            |answer| == K && Sorted(answer)
            && forall c :: c in cs && c.distance <= answer[K - 1].distance ==> c in answer || c.state == Failed
  {
    var alive := Select(cs, NotFailed);
    var answer := ClosestResponders(cs, K);
    SelectSorted(cs, IsResponded);
    SelectSorted(cs, NotFailed);
    SelectMembers(cs, NotFailed);
    forall c | c in cs && c.distance <= answer[K - 1].distance && c.state != Failed ensures c in answer {
      var i :| 0 <= i < |alive| && alive[i] == c;
      assert answer[K - 1] == alive[K - 1];
      if i < K { assert answer[i] == c; }
    }
  }

  // ---- the settled window -----------------------------------------------------------------------------------

  /** Nothing is in flight, each of the `limit` nearest known candidates is in the answer or has failed, and the
      answer begins with those of them that responded, in order. */
  ghost predicate WindowAnswer(cs: seq<Candidate>, limit: nat, answer: seq<Candidate>)
  {
    && (forall c :: c in cs ==> c.state != Inflight)
    && (forall c :: c in Truncate(cs, limit) ==> c in answer || c.state == Failed)
    && Select(Truncate(cs, limit), IsResponded) <= answer
    && Sorted(answer) && |answer| <= limit
  }

  lemma {:induction false} SelectPrefix(cs: seq<Candidate>, n: nat, keep: CandidateState -> bool)
    ensures Select(Truncate(cs, n), keep) <= Select(cs, keep)
    ensures |Select(Truncate(cs, n), keep)| <= n
  {
    if cs == [] || n == 0 {
      assert Truncate(cs, n) == [];
    } else {
      hide Select;
      var (c, rest) := (cs[0], cs[1..]);
      SelectPrefix(rest, n - 1, keep);
      assert cs == [c] + rest && Truncate(cs, n) == [c] + Truncate(rest, n - 1);
      SelectCons(c, rest, keep);
      SelectCons(c, Truncate(rest, n - 1), keep);
    }
  }

  lemma PrefixTruncated<T>(a: seq<T>, b: seq<T>, n: nat)
    requires a <= b && |a| <= n
    ensures a <= Truncate(b, n)
  {
  }

  /** A walk that stops because its window is settled, as every store and search does. */
  lemma WindowDoneAnswer(s: WalkState, events: seq<Event>, kind: Kind, fanout: nat, d: Rank)
    requires WalkOk(s, d) && Separating(d) && RunWalk(s, events, kind, fanout, d).1 == WindowDone
    ensures var (cs, limit) := (RunWalk(s, events, kind, fanout, d).0.candidates, ClosestLimit(kind, fanout));
            WindowAnswer(cs, limit, ClosestResponders(cs, limit))
  {
    hide WalkOk, Separating, RunWalk, Select;
    var (cs, limit) := (RunWalk(s, events, kind, fanout, d).0.candidates, ClosestLimit(kind, fanout));
    RunKeeps(s, events, kind, fanout, d);
    OkSorted(RunWalk(s, events, kind, fanout, d).0, d);
    WindowVerdict(s, events, kind, fanout, d);
    SettledAnswer(cs, limit);
  }

  lemma {:induction false} WindowVerdict(s: WalkState, events: seq<Event>, kind: Kind, fanout: nat, d: Rank)
    requires RunWalk(s, events, kind, fanout, d).1 == WindowDone
    ensures WindowSettled(RunWalk(s, events, kind, fanout, d).0.candidates, ClosestLimit(kind, fanout))
    decreases |events|
  {
    hide LaunchStep, FinishStep, LookupConverged, WindowSettled;
    var n := |events| - 1;
    if RunWalk(s, events[..n], kind, fanout, d).1 == WindowDone { WindowVerdict(s, events[..n], kind, fanout, d); }
  }

  lemma SettledAnswer(cs: seq<Candidate>, limit: nat)
    requires Sorted(cs) && WindowSettled(cs, limit)
    ensures WindowAnswer(cs, limit, ClosestResponders(cs, limit))
  {
    hide Select;
    var (head, all) := (Truncate(cs, limit), Select(cs, IsResponded));
    SelectPrefix(cs, limit, IsResponded);
    SelectSorted(cs, IsResponded);
    SelectMembers(head, IsResponded);
    PrefixTruncated(Select(head, IsResponded), all, limit);
    forall c | c in head ensures c in ClosestResponders(cs, limit) || c.state == Failed {
      var i :| 0 <= i < |head| && head[i] == c;
      assert cs[i] == c;
      if c.state != Failed { assert c in Select(head, IsResponded); }
    }
  }

  // ---- running out of tasks ---------------------------------------------------------------------------------

  /** Every candidate in flight still has its task. */
  ghost predicate NoOrphans(s: WalkState)
  {
    forall c :: c in s.candidates && c.state == Inflight ==> c.peer.id in s.tasks
  }

  /** Unless a task panicked, a walk that runs out of tasks has settled every candidate it knows. */
  lemma NoTasksMeansSettled(s: WalkState, d: Rank)
    requires WalkOk(s, d) && NoOrphans(s) && LaunchStep(s).tasks == []
    ensures forall c :: c in LaunchStep(s).candidates ==> c.state in {Responded, Failed}
  {
    hide WalkOk, Launch, Launched, CountInflight;
    var n := Max(0, ALPHA - CountInflight(s.candidates));
    LaunchKeeps(s, d);
    assert s.tasks == [] && Launch(s.candidates, n).1 == [];
    NoInflightCount(s.candidates);
    NothingLaunched(s.candidates, n, Launch(s.candidates, n).0);
  }

  lemma NothingLaunched(cs: seq<Candidate>, n: nat, cs': seq<Candidate>)
    requires Launched(cs, n, cs', []) && n > 0 && forall c :: c in cs ==> c.state != Inflight
    ensures forall c :: c in cs' ==> c.state in {Responded, Failed}
  {
    hide CountInflight, Ids, Distinct;
    forall c | c in cs' ensures c.state in {Responded, Failed} {
      var i :| 0 <= i < |cs'| && cs'[i] == c;
      assert cs'[i].state == cs[i].state && cs[i] in cs;
    }
  }

  lemma {:induction false} NoInflightCount(cs: seq<Candidate>)
    requires forall c :: c in cs ==> c.state != Inflight
    ensures CountInflight(cs) == 0
  {
    if cs != [] { NoInflightCount(cs[1..]); }
  }

  lemma LaunchKeepsTasks(s: WalkState, d: Rank)
    requires WalkOk(s, d) && NoOrphans(s)
    ensures NoOrphans(LaunchStep(s))
  {
    hide WalkOk, Launch, Launched, CountInflight;
    LaunchKeeps(s, d);
    var n := Max(0, ALPHA - CountInflight(s.candidates));
    var (cs', ids) := Launch(s.candidates, n);
    LaunchedHaveTasks(s.candidates, n, cs', s.tasks, ids);
  }

  lemma LaunchedHaveTasks(cs: seq<Candidate>, n: nat, cs': seq<Candidate>, tasks: seq<NodeId>, ids: seq<NodeId>)
    requires Launched(cs, n, cs', ids) && forall c :: c in cs && c.state == Inflight ==> c.peer.id in tasks
    ensures forall c :: c in cs' && c.state == Inflight ==> c.peer.id in tasks + ids
  {
    hide CountInflight, Ids, Distinct;
    forall c | c in cs' && c.state == Inflight ensures c.peer.id in tasks + ids {
      var i :| 0 <= i < |cs'| && cs'[i] == c;
      assert cs[i] in cs;
    }
  }

  lemma FinishKeepsTasks(s: WalkState, ev: Event, kind: Kind, d: Rank)
    requires WalkOk(s, d) && NoOrphans(s) && ev.task < |s.tasks| && Separating(d) && !ev.outcome.Panicked?
    ensures NoOrphans(FinishStep(s, ev, kind, d))
  {
    hide Separating, Sanitize, AbsorbAll, ListOk, Agree;
    var id := s.tasks[ev.task];
    var state := if ev.outcome.Answered? then Responded else Failed;
    TaskIsKnown(s, ev.task, d);
    WithStateSpec(s.candidates, id, state, d);
    DroppedTask(s.tasks, ev.task);
    var cs := WithState(s.candidates, id, state);
    forall c | c in cs && c.state == Inflight ensures c.peer.id in RemoveAt(s.tasks, ev.task) {
      var i :| 0 <= i < |cs| && cs[i] == c;
      assert s.candidates[i] in s.candidates;
    }
    if ev.outcome.Answered? {
      var es := Sanitize(ev.outcome.contacts, ResponderIp(cs, id), RequestCount(kind));
      if es.Some? { AbsorbAllSpec(cs, es.value, d); }
    }
  }

  lemma {:induction false} RunKeepsTasks(s: WalkState, events: seq<Event>, kind: Kind, fanout: nat, d: Rank)
    requires WalkOk(s, d) && NoOrphans(s) && Separating(d)
    requires forall i :: 0 <= i < |events| ==> !events[i].outcome.Panicked?
    ensures NoOrphans(RunWalk(s, events, kind, fanout, d).0)
  {
    hide WalkOk, NoOrphans, Separating, LaunchStep, FinishStep, Launched, Judge;
    if events != [] {
      var n := |events| - 1;
      RunKeeps(s, events[..n], kind, fanout, d);
      RunKeepsTasks(s, events[..n], kind, fanout, d);
      var (s1, v) := RunWalk(s, events[..n], kind, fanout, d);
      if v == Continue {
        LaunchKeeps(s1, d);
        LaunchKeepsTasks(s1, d);
        if events[n].task < |LaunchStep(s1).tasks| { FinishKeepsTasks(LaunchStep(s1), events[n], kind, d); }
      }
    }
  }

  lemma OrphanAfterLaunch(s: WalkState, d: Rank)
    requires WalkOk(s, d) && !NoOrphans(s)
    ensures !NoOrphans(LaunchStep(s))
  {
    hide WalkOk, Launch, CountInflight, Ids, Distinct;
    LaunchKeeps(s, d);
    var c :| c in s.candidates && c.state == Inflight && c.peer.id !in s.tasks;
    var i :| 0 <= i < |s.candidates| && s.candidates[i] == c;
    assert LaunchStep(s).candidates[i] == c;
  }

  /** A panicked task leaves its candidate without one. */
  lemma PanicOrphans(s: WalkState, i: nat, d: Rank)
    requires WalkOk(s, d) && i < |s.tasks|
    ensures !NoOrphans(s.(tasks := RemoveAt(s.tasks, i), finished := s.finished + 1))
  {
    hide ListOk, Agree, CountInflight, RemoveAt;
    TaskIsKnown(s, i, d);
    TaskInFlight(s, i, d);
    DroppedTask(s.tasks, i);
    var c :| c in s.candidates && c.peer.id == s.tasks[i];
    assert c.state == Inflight;
  }

  /** Settling another candidate does not help one without a task. */
  lemma OrphanUnsettled(s: WalkState, i: nat, state: CandidateState, d: Rank, c: Candidate)
    requires WalkOk(s, d) && i < |s.tasks| && state in {Responded, Failed}
    requires c in s.candidates && c.peer.id !in s.tasks
    ensures c in WithState(s.candidates, s.tasks[i], state) && c.peer.id !in RemoveAt(s.tasks, i)
    ensures ListOk(WithState(s.candidates, s.tasks[i], state), d)
    ensures Ids(WithState(s.candidates, s.tasks[i], state)) == s.seen
  {
    hide ListOk, Agree, CountInflight, WithState;
    TaskIsKnown(s, i, d);
    WithStateSpec(s.candidates, s.tasks[i], state, d);
    DroppedTask(s.tasks, i);
    var k :| 0 <= k < |s.candidates| && s.candidates[k] == c;
    assert s.tasks[i] in s.tasks && WithState(s.candidates, s.tasks[i], state)[k] == c;
  }

  /** Nothing gives a candidate in flight a task again. */
  lemma OrphanAfterFinish(s: WalkState, ev: Event, kind: Kind, d: Rank)
    requires WalkOk(s, d) && ev.task < |s.tasks| && Separating(d) && (!NoOrphans(s) || ev.outcome.Panicked?)
    ensures !NoOrphans(FinishStep(s, ev, kind, d))
  {
    hide Separating, Sanitize, AbsorbAll, WalkOk, ListOk, WithState, Ids;
    if ev.outcome.Panicked? {
      PanicOrphans(s, ev.task, d);
    } else {
      var id := s.tasks[ev.task];
      var state := if ev.outcome.Answered? then Responded else Failed;
      var cs := WithState(s.candidates, id, state);
      var c :| c in s.candidates && c.state == Inflight && c.peer.id !in s.tasks;
      OrphanUnsettled(s, ev.task, state, d, c);
      if ev.outcome.Answered? {
        var es := Sanitize(ev.outcome.contacts, ResponderIp(cs, id), RequestCount(kind));
        if es.Some? { AbsorbAllSpec(cs, es.value, d); }
      }
      assert c in FinishStep(s, ev, kind, d).candidates;
    }
  }

  lemma TaskInFlight(s: WalkState, i: nat, d: Rank)
    requires WalkOk(s, d) && i < |s.tasks|
    ensures forall c :: c in s.candidates && c.peer.id == s.tasks[i] ==> c.state == Inflight
  {
    assert s.tasks[i] in s.tasks;
  }

  /** Some task the walk waited for panicked. */
  predicate Panics(s: WalkState, events: seq<Event>, kind: Kind, fanout: nat, d: Rank)
    decreases |events|
  {
    events != []
    && var n := |events| - 1;
       || Panics(s, events[..n], kind, fanout, d)
       || (events[n].outcome.Panicked? && RunWalk(s, events, kind, fanout, d).1 == Continue)
  }

  /** A panicked task never ends the walk, and one that is not waited for does. */
  lemma PanicContinues(s: WalkState, ev: Event, kind: Kind, fanout: nat, d: Rank)
    requires ev.outcome.Panicked?
    ensures Iterate(s, ev, kind, fanout, d).1 == Continue <==> ev.task < |LaunchStep(s).tasks|
  {
    hide LaunchStep, FinishStep;
  }

  /** Every candidate in flight has its task exactly as long as no task panicked. */
  lemma {:induction false} OrphansIff(s: WalkState, events: seq<Event>, kind: Kind, fanout: nat, d: Rank)
    requires WalkOk(s, d) && NoOrphans(s) && Separating(d)
    ensures NoOrphans(RunWalk(s, events, kind, fanout, d).0) <==> !Panics(s, events, kind, fanout, d)
  {
    hide WalkOk, NoOrphans, Separating, Iterate;
    if events != [] {
      var n := |events| - 1;
      RunKeeps(s, events[..n], kind, fanout, d);
      OrphansIff(s, events[..n], kind, fanout, d);
      var (s1, v) := RunWalk(s, events[..n], kind, fanout, d);
      if v == Continue { OrphansStep(s1, events[n], kind, fanout, d); }
    }
  }

  lemma OrphansStep(s: WalkState, ev: Event, kind: Kind, fanout: nat, d: Rank)
    requires WalkOk(s, d) && Separating(d)
    ensures NoOrphans(Iterate(s, ev, kind, fanout, d).0) <==>
              NoOrphans(s) && !(ev.outcome.Panicked? && Iterate(s, ev, kind, fanout, d).1 == Continue)
  {
    hide WalkOk, NoOrphans, Separating, LaunchStep, FinishStep, Launched, Judge;
    LaunchKeeps(s, d);
    if NoOrphans(s) {
      LaunchKeepsTasks(s, d);
    } else {
      OrphanAfterLaunch(s, d);
    }
    var s1 := LaunchStep(s);
    if ev.outcome.Panicked? { PanicContinues(s, ev, kind, fanout, d); }
    if ev.task < |s1.tasks| {
      if NoOrphans(s1) && !ev.outcome.Panicked? {
        FinishKeepsTasks(s1, ev, kind, d);
      } else {
        OrphanAfterFinish(s1, ev, kind, d);
      }
    }
  }

  /** The launch after which a walk had no task left. */
  lemma {:induction false} LastLaunch(s: WalkState, events: seq<Event>, kind: Kind, fanout: nat, d: Rank)
    returns (i: nat)
    requires RunWalk(s, events, kind, fanout, d).1 == NoTasks
    ensures i < |events| && RunWalk(s, events[..i], kind, fanout, d).1 == Continue
    ensures var s1 := RunWalk(s, events[..i], kind, fanout, d).0;
            RunWalk(s, events, kind, fanout, d).0 == LaunchStep(s1) && LaunchStep(s1).tasks == []
    decreases |events|
  {
    hide LaunchStep, FinishStep, LookupConverged, WindowSettled;
    i := |events| - 1;
    if RunWalk(s, events[..i], kind, fanout, d).1 == NoTasks {
      var n := i;
      i := LastLaunch(s, events[..n], kind, fanout, d);
      assert events[..n][..i] == events[..i];
    }
  }

  /** A walk that runs out of tasks has settled every candidate it knows, if and only if no task panicked; and then
      it reports the nearest known candidates that have not failed. */
  lemma NoTasksAnswer(s: WalkState, events: seq<Event>, kind: Kind, fanout: nat, d: Rank)
    requires WalkOk(s, d) && NoOrphans(s) && Separating(d) && RunWalk(s, events, kind, fanout, d).1 == NoTasks
    ensures var (cs, limit) := (RunWalk(s, events, kind, fanout, d).0.candidates, ClosestLimit(kind, fanout));
            && (AllSettled(cs) <==> !Panics(s, events, kind, fanout, d))
            && (AllSettled(cs) ==> ClosestResponders(cs, limit) == Truncate(Select(cs, NotFailed), limit))
  {
    hide WalkOk, Separating, RunWalk, LaunchStep, Select, Panics;
    var final := RunWalk(s, events, kind, fanout, d).0;
    OrphansIff(s, events, kind, fanout, d);
    if NoOrphans(final) {
      var i := LastLaunch(s, events, kind, fanout, d);
      var s1 := RunWalk(s, events[..i], kind, fanout, d).0;
      RunKeeps(s, events[..i], kind, fanout, d);
      if !NoOrphans(s1) { OrphanAfterLaunch(s1, d); }
      NoTasksMeansSettled(s1, d);
    }
    if AllSettled(final.candidates) { SettledSelect(final.candidates); }
  }

  ghost predicate AllSettled(cs: seq<Candidate>) { forall c :: c in cs ==> c.state in {Responded, Failed} }

  lemma {:induction false} SettledSelect(cs: seq<Candidate>)
    requires AllSettled(cs)
    ensures Select(cs, IsResponded) == Select(cs, NotFailed)
  {
    if cs != [] {
      assert cs[0] in cs;
      SettledSelect(cs[1..]);
    }
  }

  lemma StartNoOrphans(peers: seq<Peer>, d: Rank)
    requires Separating(d)
    ensures NoOrphans(StartWalk(peers, d))
  {
    hide ListOk, Separating, DedupAdjacent, SortCandidates, AsCandidates;
    StartOk(peers, d);
  }

  // ---- states only move forward ---------------------------------------------------------------------------------

  function Stage(s: CandidateState): nat { match s case Pending => 0 case Inflight => 1 case _ => 2 }

  /** `c'` is `c` later in the walk: the same peer, and a settled state is final. */
  predicate Evolves(c: Candidate, c': Candidate)
  {
    && c'.peer == c.peer && c'.distance == c.distance
    && Stage(c.state) <= Stage(c'.state) && (Stage(c.state) == 2 ==> c' == c)
  }

  ghost predicate Forward(cs: seq<Candidate>, cs': seq<Candidate>)
  {
    forall c :: c in cs ==> exists c' :: c' in cs' && Evolves(c, c')
  }

  lemma ForwardTrans(a: seq<Candidate>, b: seq<Candidate>, c: seq<Candidate>)
    requires Forward(a, b) && Forward(b, c)
    ensures Forward(a, c)
  {
    forall x | x in a ensures exists z :: z in c && Evolves(x, z) {
      var y :| y in b && Evolves(x, y);
      var z :| z in c && Evolves(y, z);
      assert Evolves(x, z);
    }
  }

  /** One step: nothing, a query sent, or a query settled. */
  predicate Moves(c: Candidate, c': Candidate)
  {
    && c'.peer == c.peer && c'.distance == c.distance
    && (c'.state == c.state
        || (c.state == Pending && c'.state == Inflight)
        || (c.state == Inflight && c'.state in {Responded, Failed}))
  }

  /** Every known candidate makes one step, and every other one is new and pending. */
  ghost predicate OneStep(cs: seq<Candidate>, cs': seq<Candidate>)
  {
    && (forall c :: c in cs ==> exists c' :: c' in cs' && Moves(c, c'))
    && (forall c' :: c' in cs' ==> Enters(cs, c') || exists c :: c in cs && Moves(c, c'))
  }

  predicate Enters(cs: seq<Candidate>, c: Candidate) { c.state == Pending && c.peer.id !in Ids(cs) }

  lemma OneStepForward(cs: seq<Candidate>, cs': seq<Candidate>)
    requires OneStep(cs, cs')
    ensures Forward(cs, cs')
  {
    hide Moves, Enters, Evolves;
    forall c | c in cs ensures exists c' :: c' in cs' && Evolves(c, c') {
      var c' :| c' in cs' && Moves(c, c');
      MoveEvolves(c, c');
    }
  }

  lemma MoveEvolves(c: Candidate, c': Candidate)
    requires Moves(c, c')
    ensures Evolves(c, c')
  {
  }

  lemma IndexwiseOneStep(cs: seq<Candidate>, cs': seq<Candidate>)
    requires |cs| == |cs'| && forall i :: 0 <= i < |cs| ==> Moves(cs[i], cs'[i])
    ensures OneStep(cs, cs')
  {
    forall c | c in cs ensures exists c' :: c' in cs' && Moves(c, c') {
      var i :| 0 <= i < |cs| && cs[i] == c;
      assert cs'[i] in cs' && Moves(c, cs'[i]);
    }
    forall c' | c' in cs' ensures exists c :: c in cs && Moves(c, c') {
      var i :| 0 <= i < |cs| && cs'[i] == c';
      assert cs[i] in cs && Moves(cs[i], c');
    }
  }

  /** New candidates do not disturb a step. */
  lemma OneStepWithin(cs: seq<Candidate>, mid: seq<Candidate>, cs': seq<Candidate>)
    requires OneStep(cs, mid) && forall c :: c in mid ==> c in cs'
    requires forall c :: c in cs' ==> c in mid || Enters(cs, c)
    ensures OneStep(cs, cs')
  {
    forall c | c in cs ensures exists c' :: c' in cs' && Moves(c, c') {
      var c' :| c' in mid && Moves(c, c');
      assert c' in cs';
    }
  }

  lemma OneStepStays(cs: seq<Candidate>)
    ensures OneStep(cs, cs)
  {
    forall c | c in cs ensures exists c' :: c' in cs && Moves(c, c') { assert Moves(c, c); }
    forall c | c in cs ensures exists c' :: c' in cs && Moves(c', c) { assert Moves(c, c); }
  }

  lemma LaunchMoves(s: WalkState, d: Rank)
    requires WalkOk(s, d)
    ensures OneStep(s.candidates, LaunchStep(s).candidates)
  {
    hide WalkOk, Distinct, CountInflight, Launch;
    LaunchKeeps(s, d);
    IndexwiseOneStep(s.candidates, LaunchStep(s).candidates);
  }

  lemma SettleMoves(s: WalkState, i: nat, state: CandidateState, d: Rank)
    requires WalkOk(s, d) && i < |s.tasks| && state in {Responded, Failed}
    ensures OneStep(s.candidates, WithState(s.candidates, s.tasks[i], state))
  {
    hide ListOk, Distinct, CountInflight, WithState;
    TaskIsKnown(s, i, d);
    WithStateSpec(s.candidates, s.tasks[i], state, d);
    var cs' := WithState(s.candidates, s.tasks[i], state);
    forall k | 0 <= k < |cs'| ensures Moves(s.candidates[k], cs'[k]) {
      assert s.tasks[i] in s.tasks && s.candidates[k] in s.candidates;
    }
    IndexwiseOneStep(s.candidates, cs');
  }

  lemma FinishMoves(s: WalkState, ev: Event, kind: Kind, d: Rank)
    requires WalkOk(s, d) && ev.task < |s.tasks| && Separating(d)
    ensures OneStep(s.candidates, FinishStep(s, ev, kind, d).candidates)
  {
    hide Separating, Sanitize, AbsorbAll, Agree, OneStep, WithState, ListOk;
    match ev.outcome
    case Panicked => OneStepStays(s.candidates);
    case QueryFailed => SettleMoves(s, ev.task, Failed, d);
    case OtherPacket => SettleMoves(s, ev.task, Failed, d);
    case Answered(contacts) =>
      SettleMoves(s, ev.task, Responded, d);
      TaskIsKnown(s, ev.task, d);
      WithStateSpec(s.candidates, s.tasks[ev.task], Responded, d);
      var cs := WithState(s.candidates, s.tasks[ev.task], Responded);
      var es := Sanitize(contacts, ResponderIp(cs, s.tasks[ev.task]), RequestCount(kind));
      if es.Some? {
        AbsorbAllSpec(cs, es.value, d);
        OneStepWithin(s.candidates, cs, AbsorbAll(cs, Ids(cs), es.value, d).0);
      }
  }

  /** The candidate lists a run goes through: after each launch and after each finished task. */
  function Visits(s: WalkState, events: seq<Event>, kind: Kind, fanout: nat, d: Rank): seq<seq<Candidate>>
    decreases |events|
  {
    if events == [] then [s.candidates]
    else
      var n := |events| - 1;
      var (s1, v) := RunWalk(s, events[..n], kind, fanout, d);
      var visited := Visits(s, events[..n], kind, fanout, d);
      if v != Continue then visited
      else visited + [LaunchStep(s1).candidates, Iterate(s1, events[n], kind, fanout, d).0.candidates]
  }

  ghost predicate StepByStep(visits: seq<seq<Candidate>>)
  {
    forall i :: 0 < i < |visits| ==> OneStep(visits[i - 1], visits[i])
  }

  lemma StepByStepMore(visits: seq<seq<Candidate>>, a: seq<Candidate>, b: seq<Candidate>)
    requires visits != [] && StepByStep(visits) && OneStep(visits[|visits| - 1], a) && OneStep(a, b)
    ensures StepByStep(visits + [a, b])
  {
    hide OneStep;
  }

  /** Along every run no candidate skips a state: it is sent before it is settled, one move at a time. */
  lemma {:induction false} RunMoves(s: WalkState, events: seq<Event>, kind: Kind, fanout: nat, d: Rank)
    requires WalkOk(s, d) && Separating(d)
    ensures var visits := Visits(s, events, kind, fanout, d);
            && visits != [] && StepByStep(visits)
            && visits[|visits| - 1] == RunWalk(s, events, kind, fanout, d).0.candidates
    decreases |events|
  {
    hide WalkOk, OneStep, Separating, LaunchStep, FinishStep, Launched, Judge, StepByStep;
    if events == [] {
      SingleVisit(s.candidates);
    } else {
      var n := |events| - 1;
      RunKeeps(s, events[..n], kind, fanout, d);
      RunMoves(s, events[..n], kind, fanout, d);
      var (s1, v) := RunWalk(s, events[..n], kind, fanout, d);
      if v == Continue {
        IterateMoves(s1, events[n], kind, fanout, d);
        StepByStepMore(Visits(s, events[..n], kind, fanout, d), LaunchStep(s1).candidates,
                       Iterate(s1, events[n], kind, fanout, d).0.candidates);
      }
    }
  }

  lemma SingleVisit(cs: seq<Candidate>)
    ensures StepByStep([cs])
  {
  }

  lemma IterateMoves(s: WalkState, ev: Event, kind: Kind, fanout: nat, d: Rank)
    requires WalkOk(s, d) && Separating(d)
    ensures OneStep(s.candidates, LaunchStep(s).candidates)
    ensures OneStep(LaunchStep(s).candidates, Iterate(s, ev, kind, fanout, d).0.candidates)
  {
    hide WalkOk, OneStep, Separating, LaunchStep, FinishStep, Launched, Judge;
    LaunchKeeps(s, d);
    LaunchMoves(s, d);
    var s1 := LaunchStep(s);
    if ev.task < |s1.tasks| {
      FinishMoves(s1, ev, kind, d);
    } else {
      OneStepStays(s1.candidates);
    }
  }

  /** Along every run each candidate stays known and its state only moves Pending, Inflight, settled. */
  lemma {:induction false} RunForward(s: WalkState, events: seq<Event>, kind: Kind, fanout: nat, d: Rank)
    requires WalkOk(s, d) && Separating(d)
    ensures Forward(s.candidates, RunWalk(s, events, kind, fanout, d).0.candidates)
  {
    hide WalkOk, Forward, OneStep, Separating, LaunchStep, Iterate;
    if events == [] {
      OneStepStays(s.candidates);
      OneStepForward(s.candidates, s.candidates);
    } else {
      var n := |events| - 1;
      RunKeeps(s, events[..n], kind, fanout, d);
      RunForward(s, events[..n], kind, fanout, d);
      var (s1, v) := RunWalk(s, events[..n], kind, fanout, d);
      if v == Continue {
        IterateMoves(s1, events[n], kind, fanout, d);
        var (launched, final) := (LaunchStep(s1).candidates, Iterate(s1, events[n], kind, fanout, d).0.candidates);
        OneStepForward(s1.candidates, launched);
        OneStepForward(launched, final);
        ForwardTrans(s.candidates, s1.candidates, launched);
        ForwardTrans(s.candidates, launched, final);
      }
    }
  }

  // ---- a bounded network ends every walk -------------------------------------------------------------------------

  ghost predicate DrawnFromPopulation(events: seq<Event>, population: set<NodeId>)
  {
    forall i :: 0 <= i < |events| ==> EntriesIn(events[i].outcome, population)
  }

  ghost predicate EntriesIn(outcome: Outcome, population: set<NodeId>)
  {
    outcome.Answered? ==> forall e :: e in outcome.contacts ==> e.nodeId in population
  }

  lemma {:induction false} SieveKeepsEntries(responder: Ipv4, es: seq<Entry>)
    ensures forall e :: e in SieveAll(responder, es).kept ==> e in es
  {
    if es != [] {
      var n := |es| - 1;
      SieveKeepsEntries(responder, es[..n]);
      assert forall e :: e in es <==> e in es[..n] || e == es[n];
    }
  }

  lemma {:induction false} AbsorbSeen(
    cs: seq<Candidate>, seen: set<NodeId>, es: seq<Entry>, d: Rank, population: set<NodeId>)
    requires seen <= population && forall e :: e in es ==> e.nodeId in population
    ensures AbsorbAll(cs, seen, es, d).1 <= population
  {
    if es != [] { AbsorbSeen(cs, seen, es[..|es| - 1], d, population); }
  }

  lemma IterateSeen(s: WalkState, ev: Event, kind: Kind, fanout: nat, d: Rank, population: set<NodeId>)
    requires s.seen <= population && EntriesIn(ev.outcome, population)
    ensures Iterate(s, ev, kind, fanout, d).0.seen <= population
  {
    hide AbsorbAll, Judge, WithState, Launch, SieveAll;
    var s1 := LaunchStep(s);
    if ev.task < |s1.tasks| && ev.outcome.Answered? {
      var cs := WithState(s1.candidates, s1.tasks[ev.task], Responded);
      var ip := ResponderIp(cs, s1.tasks[ev.task]);
      var es := SieveAll(ip, ev.outcome.contacts).kept;
      SieveKeepsEntries(ip, ev.outcome.contacts);
      AbsorbSeen(cs, s1.seen, es, d, population);
    }
  }

  lemma {:induction false} RunSeen(s: WalkState, events: seq<Event>, kind: Kind, fanout: nat, d: Rank,
                                   population: set<NodeId>)
    requires s.seen <= population && DrawnFromPopulation(events, population)
    ensures RunWalk(s, events, kind, fanout, d).0.seen <= population
  {
    hide Iterate;
    if events != [] {
      var n := |events| - 1;
      RunSeen(s, events[..n], kind, fanout, d, population);
      var (s1, v) := RunWalk(s, events[..n], kind, fanout, d);
      if v == Continue { IterateSeen(s1, events[n], kind, fanout, d, population); }
    }
  }

  /** If all IDs ever named come from a finite population, the walk stops after at most one iteration per
      member of it plus one, whatever the answers. */
  lemma WalkStopsInPopulation(peers: seq<Peer>, events: seq<Event>, kind: Kind, fanout: nat, d: Rank,
                              population: set<NodeId>)
    requires Separating(d) && DrawnFromPopulation(events, population)
    requires forall p :: p in peers ==> p.id in population
    requires |events| > |population|
    ensures RunWalk(StartWalk(peers, d), events, kind, fanout, d).1 != Continue
  {
    hide WalkOk, Iterate, StartWalk, Separating, DrawnFromPopulation;
    StartOk(peers, d);
    RunSeen(StartWalk(peers, d), events, kind, fanout, d, population);
    RunKeeps(StartWalk(peers, d), events, kind, fanout, d);
    var (s, v) := RunWalk(StartWalk(peers, d), events, kind, fanout, d);
    WalkEnds(peers, events, kind, fanout, d, Event(0, Panicked));
    QueriedBound(s, d);
    SubsetCard(s.seen, population);
  }
}
