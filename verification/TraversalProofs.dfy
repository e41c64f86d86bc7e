/** What every run of the lookup walk keeps, that it ends, and what its verdicts mean. */
module WalkProofs {
  import opened Common
  import opened NodeIds
  import opened Nearest
  import opened Traversals

  // ---- candidate lists -------------------------------------------------------------------------------

  ghost predicate Sorted(cs: seq<Candidate>)
  {
    forall i, j :: 0 <= i < j < |cs| ==> cs[i].distance < cs[j].distance
  }

  ghost predicate Keyed(cs: seq<Candidate>, d: Rank)
  {
    forall i :: 0 <= i < |cs| ==> cs[i].distance == d(cs[i].peer.id)
  }

  ghost predicate DistinctIds(cs: seq<Candidate>)
  {
    forall i, j :: 0 <= i < j < |cs| ==> cs[i].peer.id != cs[j].peer.id
  }

  ghost predicate Distinct<T>(s: seq<T>)
  {
    forall i, j :: 0 <= i < j < |s| ==> s[i] != s[j]
  }

  /** Nearest first, no two candidates alike, distances as the ranking says. */
  ghost predicate ListOk(cs: seq<Candidate>, d: Rank) { Sorted(cs) && Keyed(cs, d) && DistinctIds(cs) }

  lemma SortedDistinct(cs: seq<Candidate>, d: Rank)
    requires Sorted(cs) && Keyed(cs, d)
    ensures DistinctIds(cs)
  {
    forall i, j | 0 <= i < j < |cs| ensures cs[i].peer.id != cs[j].peer.id {
      assert cs[i].distance < cs[j].distance;
    }
  }

  lemma {:induction false} IdsCard(cs: seq<Candidate>)
    requires DistinctIds(cs)
    ensures |Ids(cs)| == |cs|
  {
    if cs != [] {
      IdsCard(cs[1..]);
      assert forall c :: c in cs <==> c == cs[0] || c in cs[1..];
      assert Ids(cs) == {cs[0].peer.id} + Ids(cs[1..]);
    }
  }

  lemma {:induction false} SeqSetCard<T>(s: seq<T>)
    requires Distinct(s)
    ensures |set x | x in s| == |s|
  {
    if s != [] {
      SeqSetCard(s[1..]);
      assert (set x | x in s) == {s[0]} + (set x | x in s[1..]);
    }
  }

  /** Same candidates in the same places; only states may differ. */
  ghost predicate SamePeers(cs: seq<Candidate>, cs': seq<Candidate>)
  {
    |cs| == |cs'| && forall i :: 0 <= i < |cs| ==> cs'[i].peer == cs[i].peer && cs'[i].distance == cs[i].distance
  }

  lemma SamePeersKeep(cs: seq<Candidate>, cs': seq<Candidate>, d: Rank)
    requires SamePeers(cs, cs') && ListOk(cs, d)
    ensures ListOk(cs', d) && Ids(cs') == Ids(cs)
  {
    forall c | c in cs ensures c.peer.id in Ids(cs') {
      var i :| 0 <= i < |cs| && cs[i] == c;
      assert cs'[i] in cs';
    }
    forall c | c in cs' ensures c.peer.id in Ids(cs) {
      var i :| 0 <= i < |cs'| && cs'[i] == c;
      assert cs[i] in cs;
    }
  }

  // ---- launching ----------------------------------------------------------------------------------------

  /** Launching marks the nearest pending candidates, and as many of them as there are slots. */
  ghost predicate Launched(cs: seq<Candidate>, n: nat, cs': seq<Candidate>, ids: seq<NodeId>)
  {
    && SamePeers(cs, cs')
    && Distinct(ids) && |ids| <= n
    && (forall id :: id in ids ==> id in Ids(cs))
    && (forall i :: 0 <= i < |cs| ==> cs'[i].state == if cs[i].peer.id in ids then Inflight else cs[i].state)
    && (forall i :: 0 <= i < |cs| && cs[i].peer.id in ids ==> cs[i].state == Pending)
    && (forall i, j :: 0 <= i < j < |cs| && cs[j].peer.id in ids ==> cs'[i].state != Pending)
    && (|ids| < n ==> forall i :: 0 <= i < |cs| ==> cs'[i].state != Pending)
    && CountInflight(cs') == CountInflight(cs) + |ids|
  }

  lemma IdsHead(cs: seq<Candidate>)
    requires cs != []
    ensures Ids(cs) == {cs[0].peer.id} + Ids(cs[1..])
  {
    assert forall c :: c in cs <==> c == cs[0] || c in cs[1..];
  }

  lemma {:induction false} LaunchSpec(cs: seq<Candidate>, n: nat)
    requires DistinctIds(cs)
    ensures Launched(cs, n, Launch(cs, n).0, Launch(cs, n).1)
  {
    if cs != [] && n != 0 {
      IdsHead(cs);
      var tail := cs[1..];
      assert cs[0].peer.id !in Ids(tail);
      if cs[0].state == Pending {
        LaunchSpec(tail, n - 1);
        var (rest, ids) := Launch(tail, n - 1);
        LaunchedCons(cs, n, rest, ids);
      } else {
        LaunchSpec(tail, n);
        var (rest, ids) := Launch(tail, n);
        SkippedCons(cs, n, rest, ids);
      }
    }
  }

  lemma LaunchedCons(cs: seq<Candidate>, n: nat, rest: seq<Candidate>, ids: seq<NodeId>)
    requires cs != [] && n > 0 && cs[0].state == Pending && Launched(cs[1..], n - 1, rest, ids)
    requires cs[0].peer.id !in Ids(cs[1..]) && Ids(cs) == {cs[0].peer.id} + Ids(cs[1..])
    ensures Launched(cs, n, [cs[0].(state := Inflight)] + rest, [cs[0].peer.id] + ids)
  {
    var cs' := [cs[0].(state := Inflight)] + rest;
    assert cs'[1..] == rest;
    forall i | 1 <= i < |cs|
      ensures cs[i] == cs[1..][i - 1] && cs'[i] == rest[i - 1] && cs[i].peer.id != cs[0].peer.id
    {
      assert cs[1..][i - 1] in cs[1..];
    }
  }

  lemma SkippedCons(cs: seq<Candidate>, n: nat, rest: seq<Candidate>, ids: seq<NodeId>)
    requires cs != [] && cs[0].state != Pending && Launched(cs[1..], n, rest, ids)
    requires cs[0].peer.id !in Ids(cs[1..]) && Ids(cs) == {cs[0].peer.id} + Ids(cs[1..])
    ensures Launched(cs, n, [cs[0]] + rest, ids)
  {
    var cs' := [cs[0]] + rest;
    assert cs'[1..] == rest;
    forall i | 1 <= i < |cs| ensures cs[i] == cs[1..][i - 1] && cs'[i] == rest[i - 1] { }
  }

  // ---- changing one state -----------------------------------------------------------------------------------

  lemma {:induction false} CountUpdate(cs: seq<Candidate>, i: nat, c: Candidate)
    requires i < |cs|
    ensures CountInflight(cs[i := c]) == CountInflight(cs) - (if cs[i].state == Inflight then 1 else 0)
                                         + (if c.state == Inflight then 1 else 0)
  {
    if i == 0 {
      assert cs[i := c][1..] == cs[1..];
    } else {
      assert cs[i := c][1..] == cs[1..][i - 1 := c];
      CountUpdate(cs[1..], i - 1, c);
    }
  }

  lemma {:induction false} CountInsert(cs: seq<Candidate>, i: nat, c: Candidate)
    requires i <= |cs| && c.state != Inflight
    ensures CountInflight(InsertAt(cs, i, c)) == CountInflight(cs)
  {
    if i == 0 {
      assert InsertAt(cs, i, c)[1..] == cs;
    } else {
      assert InsertAt(cs, i, c)[1..] == InsertAt(cs[1..], i - 1, c);
      CountInsert(cs[1..], i - 1, c);
    }
  }

  /** The candidate of a live task settles; nothing else changes. */
  lemma WithStateSpec(cs: seq<Candidate>, id: NodeId, state: CandidateState, d: Rank)
    requires ListOk(cs, d) && id in Ids(cs) && state in {Responded, Failed}
    ensures var cs' := WithState(cs, id, state);
            && SamePeers(cs, cs') && ListOk(cs', d) && Ids(cs') == Ids(cs)
            && CountInflight(cs') <= CountInflight(cs)
            && forall i :: 0 <= i < |cs| ==> cs'[i].state == if cs[i].peer.id == id then state else cs[i].state
  {
    hide ListOk, CountInflight;
    assert exists c :: c in cs && c.peer.id == id;
    var c :| c in cs && c.peer.id == id;
    var i := Find(cs, id);
    ListDistinct(cs, d);
    CountUpdate(cs, i, cs[i].(state := state));
    SamePeersKeep(cs, WithState(cs, id, state), d);
  }

  // ---- absorbing an answer -------------------------------------------------------------------------------------

  lemma InsertMembers(cs: seq<Candidate>, i: nat, c: Candidate)
    requires i <= |cs|
    ensures forall x :: x in InsertAt(cs, i, c) <==> x in cs || x == c
    ensures Ids(InsertAt(cs, i, c)) == Ids(cs) + {c.peer.id}
  {
    assert cs == cs[..i] + cs[i..];
    assert forall x :: x in cs <==> x in cs[..i] || x in cs[i..];
    assert c in InsertAt(cs, i, c);
  }

  lemma GlueSorted(a: seq<Candidate>, c: Candidate, b: seq<Candidate>)
    requires Sorted(a) && Sorted(b)
    requires a != [] ==> a[|a| - 1].distance < c.distance
    requires b != [] ==> c.distance < b[0].distance
    ensures Sorted(a + [c] + b)
  {
    forall i | 0 <= i < |a| ensures a[i].distance < c.distance {
      if i < |a| - 1 { assert a[i].distance < a[|a| - 1].distance; }
    }
    forall i | 0 <= i < |b| ensures c.distance < b[i].distance {
      if i > 0 { assert b[0].distance < b[i].distance; }
    }
  }

  lemma InsertSortedAt(cs: seq<Candidate>, c: Candidate)
    requires Sorted(cs) && forall i :: 0 <= i < |cs| ==> cs[i].distance != c.distance
    ensures Sorted(InsertAt(cs, PartitionPoint(cs, c.distance), c))
  {
    var p := PartitionPoint(cs, c.distance);
    GlueSorted(cs[..p], c, cs[p..]);
  }

  lemma InsertKeyed(cs: seq<Candidate>, i: nat, c: Candidate, d: Rank)
    requires i <= |cs| && Keyed(cs, d) && c.distance == d(c.peer.id)
    ensures Keyed(InsertAt(cs, i, c), d)
  {
  }

  lemma InsertKeepsOrder(cs: seq<Candidate>, c: Candidate, d: Rank)
    requires ListOk(cs, d) && c.distance == d(c.peer.id)
    requires forall i :: 0 <= i < |cs| ==> cs[i].distance != c.distance
    ensures ListOk(InsertAt(cs, PartitionPoint(cs, c.distance), c), d)
  {
    hide DistinctIds, Sorted, PartitionPoint, InsertAt, Keyed;
    InsertSortedAt(cs, c);
    InsertKeyed(cs, PartitionPoint(cs, c.distance), c, d);
    SortedDistinct(InsertAt(cs, PartitionPoint(cs, c.distance), c), d);
  }

  /** Absorbing adds only unseen candidates, all pending, and keeps the list sorted. */
  ghost predicate Absorbed(cs: seq<Candidate>, cs': seq<Candidate>, seen': set<NodeId>, d: Rank)
  {
    && ListOk(cs', d) && seen' == Ids(cs') && CountInflight(cs') == CountInflight(cs)
    && (forall c :: c in cs ==> c in cs')
    && (forall c :: c in cs' ==> c in cs || (c.state == Pending && c.peer.id !in Ids(cs)))
  }

  lemma AbsorbOneSpec(cs: seq<Candidate>, e: Entry, d: Rank)
    requires ListOk(cs, d) && Separating(d)
    ensures Absorbed(cs, AbsorbOne(cs, Ids(cs), e, d).0, AbsorbOne(cs, Ids(cs), e, d).1, d)
  {
    if e.nodeId !in Ids(cs) && !Unusable(e) {
      var c := Candidate(Peer(e.nodeId, e.ip, e.udpPort, e.version), Pending, d(e.nodeId));
      forall i | 0 <= i < |cs| ensures cs[i].distance != c.distance {
        assert cs[i] in cs;
        assert d(cs[i].peer.id) != d(e.nodeId);
      }
      var p := PartitionPoint(cs, c.distance);
      InsertKeepsOrder(cs, c, d);
      InsertMembers(cs, p, c);
      CountInsert(cs, p, c);
    }
  }

  lemma AbsorbedTrans(a: seq<Candidate>, b: seq<Candidate>, c: seq<Candidate>, seen: set<NodeId>, d: Rank)
    requires Absorbed(a, b, Ids(b), d) && Absorbed(b, c, seen, d)
    ensures Absorbed(a, c, seen, d)
  {
    forall x | x in a ensures x.peer.id in Ids(b) { assert x in b; }
  }

  lemma {:induction false} AbsorbAllSpec(cs: seq<Candidate>, es: seq<Entry>, d: Rank)
    requires ListOk(cs, d) && Separating(d)
    ensures Absorbed(cs, AbsorbAll(cs, Ids(cs), es, d).0, AbsorbAll(cs, Ids(cs), es, d).1, d)
  {
    hide Absorbed, ListOk, Separating, AbsorbOne;
    if es == [] {
      AbsorbedNothing(cs, d);
    } else {
      var n := |es| - 1;
      AbsorbAllSpec(cs, es[..n], d);
      var (cs1, seen1) := AbsorbAll(cs, Ids(cs), es[..n], d);
      AbsorbedOk(cs, cs1, seen1, d);
      AbsorbOneSpec(cs1, es[n], d);
      var (cs2, seen2) := AbsorbOne(cs1, Ids(cs1), es[n], d);
      AbsorbedTrans(cs, cs1, cs2, seen2, d);
    }
  }

  lemma AbsorbedNothing(cs: seq<Candidate>, d: Rank)
    requires ListOk(cs, d)
    ensures Absorbed(cs, cs, Ids(cs), d)
  {
  }

  lemma AbsorbedOk(cs: seq<Candidate>, cs': seq<Candidate>, seen': set<NodeId>, d: Rank)
    requires Absorbed(cs, cs', seen', d)
    ensures ListOk(cs', d) && seen' == Ids(cs')
  {
  }

  // ---- the walk invariant ---------------------------------------------------------------------------------------

  /** How candidate states, live tasks and sent requests agree. */
  ghost predicate Agree(cs: seq<Candidate>, tasks: seq<NodeId>, queried: seq<NodeId>)
  {
    && (forall c :: c in cs ==> (c.state == Pending <==> c.peer.id !in queried))
    && (forall c :: c in cs && c.peer.id in tasks ==> c.state == Inflight)
    && (forall id :: id in tasks ==> id in queried)
    && (forall id :: id in queried ==> id in Ids(cs))
  }

  /** What every reachable state of the walk satisfies. */
  ghost predicate WalkOk(s: WalkState, d: Rank)
  {
    && ListOk(s.candidates, d)
    && s.seen == Ids(s.candidates)
    && CountInflight(s.candidates) <= ALPHA
    && Agree(s.candidates, s.tasks, s.queried)
    && Distinct(s.tasks) && Distinct(s.queried)
    && |s.queried| == s.finished + |s.tasks|
  }

  lemma AgreeAfterLaunch(cs: seq<Candidate>, cs': seq<Candidate>, tasks: seq<NodeId>, queried: seq<NodeId>,
                         n: nat, ids: seq<NodeId>)
    requires Agree(cs, tasks, queried) && Launched(cs, n, cs', ids) && Ids(cs') == Ids(cs)
    ensures Agree(cs', tasks + ids, queried + ids)
  {
    forall c | c in cs'
      ensures (c.state == Pending <==> c.peer.id !in queried + ids)
      ensures c.peer.id in tasks + ids ==> c.state == Inflight
    {
      var i :| 0 <= i < |cs'| && cs'[i] == c;
      assert cs[i] in cs;
    }
  }

  lemma FreshIds(cs: seq<Candidate>, cs': seq<Candidate>, tasks: seq<NodeId>, queried: seq<NodeId>,
                 n: nat, ids: seq<NodeId>)
    requires Agree(cs, tasks, queried) && Launched(cs, n, cs', ids)
    ensures forall id :: id in ids ==> id !in queried && id !in tasks
  {
    forall id | id in ids ensures id !in queried && id !in tasks {
      var c :| c in cs && c.peer.id == id;
      var i :| 0 <= i < |cs| && cs[i] == c;
    }
  }

  lemma DistinctAppend<T>(a: seq<T>, b: seq<T>)
    requires Distinct(a) && Distinct(b) && forall x :: x in b ==> x !in a
    ensures Distinct(a + b)
  {
    forall i, j | 0 <= i < j < |a + b| ensures (a + b)[i] != (a + b)[j] {
      if i < |a| <= j { assert (a + b)[j] in b && (a + b)[i] in a; }
    }
  }

  lemma LaunchKeeps(s: WalkState, d: Rank)
    requires WalkOk(s, d)
    ensures WalkOk(LaunchStep(s), d)
    ensures Launched(s.candidates, Max(0, ALPHA - CountInflight(s.candidates)),
                     LaunchStep(s).candidates, Launch(s.candidates, Max(0, ALPHA - CountInflight(s.candidates))).1)
  {
    hide ListOk, Agree, Distinct, Launched, Launch;
    var n := Max(0, ALPHA - CountInflight(s.candidates));
    ListDistinct(s.candidates, d);
    LaunchSpec(s.candidates, n);
    var (cs', ids) := Launch(s.candidates, n);
    LaunchedFacts(s.candidates, n, cs', ids);
    SamePeersKeep(s.candidates, cs', d);
    AgreeAfterLaunch(s.candidates, cs', s.tasks, s.queried, n, ids);
    FreshIds(s.candidates, cs', s.tasks, s.queried, n, ids);
    DistinctAppend(s.tasks, ids);
    DistinctAppend(s.queried, ids);
  }

  lemma ListDistinct(cs: seq<Candidate>, d: Rank)
    requires ListOk(cs, d)
    ensures DistinctIds(cs)
  {
  }

  lemma LaunchedFacts(cs: seq<Candidate>, n: nat, cs': seq<Candidate>, ids: seq<NodeId>)
    requires Launched(cs, n, cs', ids)
    ensures SamePeers(cs, cs') && Distinct(ids) && |ids| <= n && CountInflight(cs') == CountInflight(cs) + |ids|
  {
  }

  lemma DroppedTask(tasks: seq<NodeId>, i: nat)
    requires Distinct(tasks) && i < |tasks|
    ensures Distinct(RemoveAt(tasks, i))
    ensures forall id :: id in RemoveAt(tasks, i) <==> id in tasks && id != tasks[i]
  {
    var rest := RemoveAt(tasks, i);
    forall k | 0 <= k < |rest| ensures rest[k] == tasks[if k < i then k else k + 1] { }
    forall id | id in tasks && id != tasks[i] ensures id in rest {
      var k :| 0 <= k < |tasks| && tasks[k] == id;
      assert rest[if k < i then k else k - 1] == id;
    }
  }

  lemma AgreeAfterFinish(cs: seq<Candidate>, tasks: seq<NodeId>, queried: seq<NodeId>, i: nat,
                         state: CandidateState, d: Rank)
    requires Agree(cs, tasks, queried) && ListOk(cs, d) && Distinct(tasks)
    requires i < |tasks| && state in {Responded, Failed}
    ensures Agree(WithState(cs, tasks[i], state), RemoveAt(tasks, i), queried)
  {
    var cs' := WithState(cs, tasks[i], state);
    DroppedTask(tasks, i);
    assert tasks[i] in tasks;
    WithStateSpec(cs, tasks[i], state, d);
    forall c | c in cs'
      ensures (c.state == Pending <==> c.peer.id !in queried)
      ensures c.peer.id in RemoveAt(tasks, i) ==> c.state == Inflight
    {
      var k :| 0 <= k < |cs'| && cs'[k] == c;
      assert cs[k] in cs;
    }
  }

  lemma AgreeAfterAbsorb(cs: seq<Candidate>, cs': seq<Candidate>, seen': set<NodeId>, tasks: seq<NodeId>,
                         queried: seq<NodeId>, d: Rank)
    requires Agree(cs, tasks, queried) && Absorbed(cs, cs', seen', d)
    ensures Agree(cs', tasks, queried)
  {
    forall c | c in cs ensures c.peer.id in Ids(cs') { assert c in cs'; }
  }

  lemma SettleKeeps(s: WalkState, i: nat, state: CandidateState, d: Rank)
    requires WalkOk(s, d) && i < |s.tasks| && state in {Responded, Failed}
    ensures WalkOk(s.(tasks := RemoveAt(s.tasks, i), finished := s.finished + 1,
                      candidates := WithState(s.candidates, s.tasks[i], state)), d)
  {
    hide Agree, ListOk, WithState;
    TaskIsKnown(s, i, d);
    WithStateSpec(s.candidates, s.tasks[i], state, d);
    AgreeAfterFinish(s.candidates, s.tasks, s.queried, i, state, d);
    DroppedTask(s.tasks, i);
  }

  lemma TaskIsKnown(s: WalkState, i: nat, d: Rank)
    requires WalkOk(s, d) && i < |s.tasks|
    ensures s.tasks[i] in Ids(s.candidates)
  {
    assert s.tasks[i] in s.tasks;
  }

  /** Every way a task can finish keeps the invariant. */
  lemma FinishKeeps(s: WalkState, ev: Event, kind: Kind, d: Rank)
    requires WalkOk(s, d) && ev.task < |s.tasks| && Separating(d)
    ensures WalkOk(FinishStep(s, ev, kind, d), d)
  {
    hide Agree, ListOk, WithState, AbsorbAll, Sanitize, Separating;
    var i := ev.task;
    match ev.outcome
    case Panicked =>
      DroppedTask(s.tasks, i);
      AgreeDropping(s.candidates, s.tasks, s.queried, i);
    case QueryFailed => SettleKeeps(s, i, Failed, d);
    case OtherPacket => SettleKeeps(s, i, Failed, d);
    case Answered(contacts) =>
      SettleKeeps(s, i, Responded, d);
      TaskIsKnown(s, i, d);
      var cs := WithState(s.candidates, s.tasks[i], Responded);
      WithStateSpec(s.candidates, s.tasks[i], Responded, d);
      match Sanitize(contacts, ResponderIp(cs, s.tasks[i]), RequestCount(kind)) {
        case None =>
        case Some(es) =>
          AbsorbAllSpec(cs, es, d);
          var (cs', seen') := AbsorbAll(cs, Ids(cs), es, d);
          AbsorbedOk(cs, cs', seen', d);
          AgreeAfterAbsorb(cs, cs', seen', RemoveAt(s.tasks, i), s.queried, d);
      }
  }

  lemma AgreeDropping(cs: seq<Candidate>, tasks: seq<NodeId>, queried: seq<NodeId>, i: nat)
    requires Agree(cs, tasks, queried) && Distinct(tasks) && i < |tasks|
    ensures Agree(cs, RemoveAt(tasks, i), queried)
  {
    DroppedTask(tasks, i);
  }

  lemma IterateKeeps(s: WalkState, ev: Event, kind: Kind, fanout: nat, d: Rank)
    requires WalkOk(s, d) && Separating(d)
    ensures WalkOk(Iterate(s, ev, kind, fanout, d).0, d)
  {
    hide WalkOk, LaunchStep, FinishStep, Separating, Judge, Launched;
    LaunchKeeps(s, d);
    var s1 := LaunchStep(s);
    if ev.task < |s1.tasks| { FinishKeeps(s1, ev, kind, d); }
  }

  lemma {:induction false} RunKeeps(s: WalkState, events: seq<Event>, kind: Kind, fanout: nat, d: Rank)
    requires WalkOk(s, d) && Separating(d)
    ensures WalkOk(RunWalk(s, events, kind, fanout, d).0, d)
  {
    hide WalkOk, Iterate, Separating;
    if events != [] {
      var n := |events| - 1;
      RunKeeps(s, events[..n], kind, fanout, d);
      var (s1, v) := RunWalk(s, events[..n], kind, fanout, d);
      if v == Continue { IterateKeeps(s1, events[n], kind, fanout, d); }
    }
  }

  // ---- the initial list -----------------------------------------------------------------------------------------

  ghost predicate WeaklySorted(cs: seq<Candidate>)
  {
    forall i, j :: 0 <= i < j < |cs| ==> cs[i].distance <= cs[j].distance
  }

  lemma {:induction false} InsertSortedSpec(cs: seq<Candidate>, c: Candidate)
    requires WeaklySorted(cs)
    ensures WeaklySorted(InsertSorted(cs, c))
    ensures multiset(InsertSorted(cs, c)) == multiset(cs) + multiset{c}
  {
    if cs != [] {
      var n := |cs| - 1;
      assert cs == cs[..n] + [cs[n]];
      if cs[n].distance > c.distance {
        InsertSortedSpec(cs[..n], c);
        var t := InsertSorted(cs[..n], c);
        AllBelow(t, cs[..n], c, cs[n]);
        SnocSorted(t, cs[n]);
      } else {
        SnocSorted(cs, c);
      }
    }
  }

  lemma SnocSorted(cs: seq<Candidate>, c: Candidate)
    requires WeaklySorted(cs) && (cs != [] ==> cs[|cs| - 1].distance <= c.distance)
    ensures WeaklySorted(cs + [c])
  {
  }

  lemma AllBelow(t: seq<Candidate>, cs: seq<Candidate>, c: Candidate, top: Candidate)
    requires multiset(t) == multiset(cs) + multiset{c} && c.distance <= top.distance
    requires forall i :: 0 <= i < |cs| ==> cs[i].distance <= top.distance
    ensures t != [] ==> t[|t| - 1].distance <= top.distance
  {
    if t != [] {
      var last := t[|t| - 1];
      assert last in multiset(t);
      assert last in cs || last == c;
    }
  }

  lemma {:induction false} SortCandidatesSpec(cs: seq<Candidate>)
    ensures WeaklySorted(SortCandidates(cs))
    ensures multiset(SortCandidates(cs)) == multiset(cs)
  {
    if cs != [] {
      var n := |cs| - 1;
      SortCandidatesSpec(cs[..n]);
      assert cs == cs[..n] + [cs[n]];
      InsertSortedSpec(SortCandidates(cs[..n]), cs[n]);
    }
  }

  ghost predicate Deduped(cs: seq<Candidate>, r: seq<Candidate>, d: Rank)
  {
    && Sorted(r) && Keyed(r, d)
    && (forall c :: c in r ==> c in cs)
    && (cs != [] ==> r != [] && r[|r| - 1].peer.id == cs[|cs| - 1].peer.id)
    && Ids(r) == Ids(cs)
  }

  /** After sorting, equal IDs are neighbours, so dropping equal neighbours leaves each ID once. */
  lemma {:induction false} DedupSpec(cs: seq<Candidate>, d: Rank)
    requires WeaklySorted(cs) && Keyed(cs, d) && Separating(d)
    ensures Deduped(cs, DedupAdjacent(cs), d)
  {
    hide Deduped, Separating;
    if |cs| < 2 {
      DedupShort(cs, d);
    } else {
      var n := |cs| - 1;
      DedupSpec(cs[..n], d);
      if cs[n].peer.id == cs[n - 1].peer.id {
        DedupDrop(cs, DedupAdjacent(cs[..n]), d);
      } else {
        RanksDiffer(cs[n].peer.id, cs[n - 1].peer.id, d);
        DedupKeep(cs, DedupAdjacent(cs[..n]), d);
      }
    }
  }

  lemma RanksDiffer(a: NodeId, b: NodeId, d: Rank)
    requires Separating(d) && a != b
    ensures d(a) != d(b)
  {
  }

  lemma DedupShort(cs: seq<Candidate>, d: Rank)
    requires |cs| < 2 && Keyed(cs, d)
    ensures Deduped(cs, cs, d)
  {
  }

  lemma DedupDrop(cs: seq<Candidate>, r: seq<Candidate>, d: Rank)
    requires |cs| >= 2 && Deduped(cs[..|cs| - 1], r, d) && cs[|cs| - 1].peer.id == cs[|cs| - 2].peer.id
    ensures Deduped(cs, r, d)
  {
    IdsLast(cs);
    assert cs[|cs| - 2] in cs[..|cs| - 1];
  }

  lemma DedupKeep(cs: seq<Candidate>, r: seq<Candidate>, d: Rank)
    requires |cs| >= 2 && Deduped(cs[..|cs| - 1], r, d) && Keyed(cs, d)
    requires cs[|cs| - 2].distance < cs[|cs| - 1].distance
    ensures Deduped(cs, r + [cs[|cs| - 1]], d)
  {
    var n := |cs| - 1;
    var r' := r + [cs[n]];
    assert r[|r| - 1].distance == d(cs[n - 1].peer.id) == cs[n - 1].distance;
    GlueSorted(r, cs[n], []);
    assert r + [cs[n]] + [] == r' && r'[..|r|] == r;
    IdsLast(cs);
    IdsLast(r');
  }

  lemma IdsLast(cs: seq<Candidate>)
    requires cs != []
    ensures Ids(cs) == Ids(cs[..|cs| - 1]) + {cs[|cs| - 1].peer.id}
  {
    var n := |cs| - 1;
    assert forall c :: c in cs <==> c in cs[..n] || c == cs[n];
  }

  lemma {:induction false} NoneInflight(cs: seq<Candidate>)
    requires forall c :: c in cs ==> c.state == Pending
    ensures CountInflight(cs) == 0
  {
    if cs != [] { NoneInflight(cs[1..]); }
  }

  /** The walk starts with every initial peer once, nearest first, nothing sent. */
  lemma StartOk(peers: seq<Peer>, d: Rank)
    requires Separating(d)
    ensures WalkOk(StartWalk(peers, d), d)
    ensures StartWalk(peers, d).seen == set p | p in peers :: p.id
  {
    var all := AsCandidates(peers, d);
    var sorted := SortCandidates(all);
    SortCandidatesSpec(all);
    forall c ensures c in sorted <==> c in all {
      assert c in sorted <==> c in multiset(sorted);
      assert c in all <==> c in multiset(all);
    }
    forall i | 0 <= i < |sorted| ensures sorted[i].distance == d(sorted[i].peer.id) { assert sorted[i] in all; }
    DedupSpec(sorted, d);
    var cs := DedupAdjacent(sorted);
    SortedDistinct(cs, d);
    NoneInflight(cs);
    StartIds(peers, all, sorted, cs, d);
  }

  lemma StartIds(peers: seq<Peer>, all: seq<Candidate>, sorted: seq<Candidate>, cs: seq<Candidate>, d: Rank)
    requires all == AsCandidates(peers, d) && Ids(cs) == Ids(sorted) && forall c :: c in sorted <==> c in all
    ensures Ids(cs) == set p | p in peers :: p.id
  {
    forall p | p in peers ensures p.id in Ids(sorted) {
      var i :| 0 <= i < |peers| && peers[i] == p;
      assert all[i] in all;
      assert all[i] in sorted;
    }
    forall c | c in sorted ensures c.peer in peers { assert c in all; }
  }

  // ---- runs end ---------------------------------------------------------------------------------------------------

  lemma QueriedBound(s: WalkState, d: Rank)
    requires WalkOk(s, d)
    ensures s.finished + |s.tasks| == |s.queried| <= |s.candidates| == |s.seen|
  {
    SeqSetCard(s.queried);
    IdsCard(s.candidates);
    SubsetCard((set id | id in s.queried), Ids(s.candidates));
  }

  lemma {:induction false} EventsConsumed(s: WalkState, events: seq<Event>, kind: Kind, fanout: nat, d: Rank)
    requires RunWalk(s, events, kind, fanout, d).1 == Continue
    ensures RunWalk(s, events, kind, fanout, d).0.finished == s.finished + |events|
  {
    hide LaunchStep, Judge, WithState, AbsorbAll, Sanitize;
    if events != [] {
      var n := |events| - 1;
      EventsConsumed(s, events[..n], kind, fanout, d);
      LaunchFinishesNone(RunWalk(s, events[..n], kind, fanout, d).0);
    }
  }

  lemma LaunchFinishesNone(s: WalkState)
    ensures LaunchStep(s).finished == s.finished
    ensures var n := Max(0, ALPHA - CountInflight(s.candidates));
            |LaunchStep(s).candidates| == |Launch(s.candidates, n).0|
  {
  }

  /** A walk that is still going has used at most one iteration per known candidate, and when it has used
      one per candidate the next iteration stops it: no deadline is needed. */
  lemma WalkEnds(peers: seq<Peer>, events: seq<Event>, kind: Kind, fanout: nat, d: Rank, next: Event)
    requires Separating(d)
    ensures var (s, v) := RunWalk(StartWalk(peers, d), events, kind, fanout, d);
            v == Continue ==>
              && |events| <= |s.candidates|
              && (|events| == |s.candidates| ==> Iterate(s, next, kind, fanout, d).1 == NoTasks)
  {
    hide WalkOk, Iterate, StartWalk, Separating;
    StartOk(peers, d);
    RunKeeps(StartWalk(peers, d), events, kind, fanout, d);
    var (s, v) := RunWalk(StartWalk(peers, d), events, kind, fanout, d);
    if v == Continue {
      EventsConsumed(StartWalk(peers, d), events, kind, fanout, d);
      StartFinished(peers, d);
      QueriedBound(s, d);
      if |events| == |s.candidates| { ExhaustedStops(s, next, kind, fanout, d); }
    }
  }

  lemma StartFinished(peers: seq<Peer>, d: Rank)
    ensures StartWalk(peers, d).finished == 0
  {
  }

  lemma ExhaustedStops(s: WalkState, ev: Event, kind: Kind, fanout: nat, d: Rank)
    requires WalkOk(s, d) && s.finished == |s.candidates|
    ensures Iterate(s, ev, kind, fanout, d).1 == NoTasks
  {
    hide WalkOk, LaunchStep, Launched, SamePeers;
    LaunchKeeps(s, d);
    var n := Max(0, ALPHA - CountInflight(s.candidates));
    LaunchedFacts(s.candidates, n, LaunchStep(s).candidates, Launch(s.candidates, n).1);
    SamePeersLength(s.candidates, LaunchStep(s).candidates);
    LaunchFinishesNone(s);
    QueriedBound(LaunchStep(s), d);
  }

  lemma SamePeersLength(cs: seq<Candidate>, cs': seq<Candidate>)
    requires SamePeers(cs, cs')
    ensures |cs'| == |cs|
  {
  }
}
