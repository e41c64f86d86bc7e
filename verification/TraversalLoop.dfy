/** The answer filter and the traversal loop as the source runs them, step by step. */
module WalkLoop {
  import opened Common
  import opened NodeIds
  import opened Contacts
  import opened Nearest
  import opened Traversals
  import opened WalkProofs
  import opened WalkResults

  // ---- the answer filter -----------------------------------------------------------------------------

  function InPrefix(es: seq<Entry>, p: Subnet): nat
  {
    if es == [] then 0 else InPrefix(es[..|es| - 1], p) + (if Subnet24(es[|es| - 1].ip) == p then 1 else 0)
  }

  /** Contacts of one /24 a single answer accounts for, the responder included. */
  function PrefixLoad(kept: seq<Entry>, responder: Ipv4, p: Subnet): nat
  {
    InPrefix(kept, p) + (if Subnet24(responder) == p then 1 else 0)
  }

  ghost predicate DistinctIps(es: seq<Entry>)
  {
    forall i, j :: 0 <= i < j < |es| ==> es[i].ip != es[j].ip
  }

  /** What one filtered answer may contain. */
  ghost predicate Clean(kept: seq<Entry>, responder: Ipv4)
  {
    && DistinctIps(kept)
    && (forall e :: e in kept ==> !Unusable(e) && e.ip != responder)
    && (forall p :: PrefixLoad(kept, responder, p) <= 2)
  }

  /** A usable entry is missing only if its address or its full /24 is already represented. */
  ghost predicate Exhaustive(kept: seq<Entry>, responder: Ipv4, es: seq<Entry>)
  {
    forall e :: e in es && !Unusable(e) ==>
                  || e.ip == responder
                  || (exists k :: k in kept && k.ip == e.ip)
                  || PrefixLoad(kept, responder, Subnet24(e.ip)) == 2
  }

  ghost predicate SieveOk(s: Sieve, responder: Ipv4, es: seq<Entry>)
  {
    && Clean(s.kept, responder)
    && Exhaustive(s.kept, responder, es)
    && (forall p :: CountPrefix(s.prefixes, p) == PrefixLoad(s.kept, responder, p))
    && responder in s.ips
    && (forall e :: e in s.kept ==> e.ip in s.ips)
    && (forall ip :: ip in s.ips ==> ip == responder || (exists k :: k in s.kept && k.ip == ip)
                                     || PrefixLoad(s.kept, responder, Subnet24(ip)) == 2)
  }

  lemma InPrefixSnoc(es: seq<Entry>, e: Entry, p: Subnet)
    ensures InPrefix(es + [e], p) == InPrefix(es, p) + (if Subnet24(e.ip) == p then 1 else 0)
  {
    assert (es + [e])[..|es|] == es;
  }

  lemma SieveSkips(s: Sieve, responder: Ipv4, es: seq<Entry>, e: Entry)
    requires SieveOk(s, responder, es) && (Unusable(e) || e.ip in s.ips)
    ensures SieveOk(s, responder, es + [e])
  {
  }

  lemma SieveFull(s: Sieve, responder: Ipv4, es: seq<Entry>, e: Entry)
    requires SieveOk(s, responder, es) && CountPrefix(s.prefixes, Subnet24(e.ip)) >= 2
    ensures SieveOk(s.(ips := s.ips + {e.ip}), responder, es + [e])
  {
  }

  lemma LoadGrows(kept: seq<Entry>, e: Entry, responder: Ipv4, p: Subnet)
    ensures PrefixLoad(kept + [e], responder, p)
            == PrefixLoad(kept, responder, p) + (if Subnet24(e.ip) == p then 1 else 0)
  {
    InPrefixSnoc(kept, e, p);
  }

  lemma CleanSnoc(kept: seq<Entry>, e: Entry, responder: Ipv4)
    requires Clean(kept, responder) && !Unusable(e) && e.ip != responder
    requires PrefixLoad(kept, responder, Subnet24(e.ip)) < 2
    requires forall k :: k in kept ==> k.ip != e.ip
    ensures Clean(kept + [e], responder)
  {
    forall p ensures PrefixLoad(kept + [e], responder, p) <= 2 { LoadGrows(kept, e, responder, p); }
    forall i | 0 <= i < |kept| ensures kept[i].ip != e.ip { assert kept[i] in kept; }
  }

  lemma ExhaustiveSnoc(kept: seq<Entry>, e: Entry, responder: Ipv4, es: seq<Entry>)
    requires Exhaustive(kept, responder, es)
    requires forall p :: PrefixLoad(kept, responder, p) <= PrefixLoad(kept + [e], responder, p) <= 2
    ensures Exhaustive(kept + [e], responder, es + [e])
  {
    hide PrefixLoad, Unusable;
    var kept' := kept + [e];
    assert kept'[|kept|] == e;
    forall x | x in es + [e] && !Unusable(x)
      ensures x.ip == responder || (exists k :: k in kept' && k.ip == x.ip)
              || PrefixLoad(kept', responder, Subnet24(x.ip)) == 2
    {
      if x in es && exists k :: k in kept && k.ip == x.ip {
        var k :| k in kept && k.ip == x.ip;
        assert k in kept';
      }
    }
  }

  lemma SieveKeeps(s: Sieve, responder: Ipv4, es: seq<Entry>, e: Entry)
    requires SieveOk(s, responder, es) && !Unusable(e) && e.ip !in s.ips && CountPrefix(s.prefixes, Subnet24(e.ip)) < 2
    ensures SieveOk(SieveOne(s, e), responder, es + [e])
  {
    hide PrefixLoad, Exhaustive, DistinctIps;
    var s' := SieveOne(s, e);
    CleanSnoc(s.kept, e, responder);
    forall p
      ensures PrefixLoad(s.kept, responder, p) <= PrefixLoad(s'.kept, responder, p) == CountPrefix(s'.prefixes, p) <= 2
    {
      LoadGrows(s.kept, e, responder, p);
    }
    ExhaustiveSnoc(s.kept, e, responder, es);
    assert e in s'.kept && forall k :: k in s.kept ==> k in s'.kept;
  }

  /** A filtered answer has distinct usable addresses other than the responder's, at most two per /24 with the
      responder counted, and drops no entry it could have kept. */
  lemma {:induction false} SieveSpec(responder: Ipv4, es: seq<Entry>)
    ensures SieveOk(SieveAll(responder, es), responder, es)
    ensures Clean(SieveAll(responder, es).kept, responder) && Exhaustive(SieveAll(responder, es).kept, responder, es)
  {
    if es == [] {
      assert forall p :: InPrefix([], p) == 0;
    } else {
      var n := |es| - 1;
      SieveSpec(responder, es[..n]);
      var s := SieveAll(responder, es[..n]);
      assert es == es[..n] + [es[n]];
      if Unusable(es[n]) || es[n].ip in s.ips {
        SieveSkips(s, responder, es[..n], es[n]);
      } else if CountPrefix(s.prefixes, Subnet24(es[n].ip)) >= 2 {
        SieveFull(s, responder, es[..n], es[n]);
      } else {
        SieveKeeps(s, responder, es[..n], es[n]);
      }
    }
  }

  method SanitizeResContacts(contacts: seq<Entry>, responder: Ipv4, limit: nat) returns (r: Option<seq<Entry>>)
    ensures r == Sanitize(contacts, responder, limit)
    ensures r.None? <==> |contacts| > limit
    ensures r.Some? ==> Clean(r.value, responder) && Exhaustive(r.value, responder, contacts)
  {
    hide Clean, Exhaustive, SieveOk;
    if |contacts| > limit { return None; }
    var seenIps := {responder};
    var prefixCounts: map<Subnet, nat> := map[Subnet24(responder) := 1];
    var sanitized: seq<Entry> := [];
    var i := 0;
    while i < |contacts|
      invariant 0 <= i <= |contacts|
      invariant Sieve(sanitized, seenIps, prefixCounts) == SieveAll(responder, contacts[..i])
    {
      var entry := contacts[i];
      assert contacts[..i + 1][..i] == contacts[..i];
      i := i + 1;
      if Unusable(entry) { continue; }
      if entry.ip in seenIps { continue; }
      seenIps := seenIps + {entry.ip};
      var prefix := Subnet24(entry.ip);
      if CountPrefix(prefixCounts, prefix) >= 2 { continue; }
      prefixCounts := prefixCounts[prefix := CountPrefix(prefixCounts, prefix) + 1];
      sanitized := sanitized + [entry];
    }
    assert contacts[..i] == contacts;
    SieveSpec(responder, contacts);
    return Some(sanitized);
  }

  // ---- the loop -------------------------------------------------------------------------------------------

  lemma LaunchTail(cs: seq<Candidate>, i: nat, n: nat)
    requires i < |cs| && n > 0
    ensures Launch(cs[i..], n) ==
            if cs[i].state == Pending then
              var (rest, ids) := Launch(cs[i + 1..], n - 1);
              ([cs[i].(state := Inflight)] + rest, [cs[i].peer.id] + ids)
            else
              var (rest, ids) := Launch(cs[i + 1..], n); ([cs[i]] + rest, ids)
  {
    assert cs[i..][1..] == cs[i + 1..];
  }

  method LaunchQueries(candidates: seq<Candidate>, slots: nat) returns (cs: seq<Candidate>, ids: seq<NodeId>)
    ensures (cs, ids) == Launch(candidates, slots)
  {
    hide Launch;
    cs, ids := candidates, [];
    var i := 0;
    assert candidates[0..] == candidates && [] + Launch(candidates, slots).1 == Launch(candidates, slots).1;
    assert cs[..0] + Launch(candidates, slots).0 == Launch(candidates, slots).0;
    while i < |candidates| && |ids| < slots
      invariant 0 <= i <= |candidates| == |cs| && |ids| <= slots
      invariant cs[i..] == candidates[i..]
      invariant Launch(candidates, slots).0 == cs[..i] + Launch(candidates[i..], slots - |ids|).0
      invariant Launch(candidates, slots).1 == ids + Launch(candidates[i..], slots - |ids|).1
    {
      LaunchTail(candidates, i, slots - |ids|);
      assert cs[i] == cs[i..][0] == candidates[i];
      ghost var before := cs[..i];
      if cs[i].state == Pending {
        ids := ids + [cs[i].peer.id];
        cs := cs[i := cs[i].(state := Inflight)];
      }
      assert cs[..i + 1] == before + [cs[i]];
      assert cs[i + 1..] == candidates[i..][1..] == candidates[i + 1..];
      i := i + 1;
    }
    LaunchEnds(candidates[i..], slots - |ids|);
    assert cs == cs[..i] + cs[i..] && ids == ids + [];
    assert cs == Launch(candidates, slots).0 && ids == Launch(candidates, slots).1;
  }

  lemma LaunchEnds(cs: seq<Candidate>, n: nat)
    requires cs == [] || n == 0
    ensures Launch(cs, n) == (cs, [])
  {
  }

  method AbsorbAnswer(candidates: seq<Candidate>, known: set<NodeId>, entries: seq<Entry>, d: Rank)
    returns (cs: seq<Candidate>, seen: set<NodeId>)
    ensures (cs, seen) == AbsorbAll(candidates, known, entries, d)
  {
    cs, seen := candidates, known;
    var i := 0;
    while i < |entries|
      invariant 0 <= i <= |entries|
      invariant (cs, seen) == AbsorbAll(candidates, known, entries[..i], d)
    {
      var entry := entries[i];
      assert entries[..i + 1][..i] == entries[..i];
      i := i + 1;
      if entry.nodeId in seen { continue; }
      if Unusable(entry) { continue; }
      seen := seen + {entry.nodeId};
      var c := Candidate(Peer(entry.nodeId, entry.ip, entry.udpPort, entry.version), Pending, d(entry.nodeId));
      var pos := PartitionPoint(cs, c.distance);
      cs := InsertAt(cs, pos, c);
    }
    assert entries[..i] == entries;
  }

  /** Consumes one finished task in place of the loop's locals. */
  method FinishTask(s: WalkState, ev: Event, kind: Kind, d: Rank) returns (s': WalkState)
    requires ev.task < |s.tasks|
    ensures s' == FinishStep(s, ev, kind, d)
  {
    hide AbsorbAll, WithState, ResponderIp;
    var id := s.tasks[ev.task];
    s' := s.(tasks := s.tasks[..ev.task] + s.tasks[ev.task + 1..], finished := s.finished + 1);
    if ev.outcome.Panicked? { return; }
    if !ev.outcome.Answered? {
      s' := s'.(candidates := WithState(s.candidates, id, Failed));
      return;
    }
    var cs := WithState(s.candidates, id, Responded);
    s' := s'.(candidates := cs);
    var sanitized := SanitizeResContacts(ev.outcome.contacts, ResponderIp(cs, id), RequestCount(kind));
    if sanitized.None? { return; }
    var seen;
    cs, seen := AbsorbAnswer(cs, s.seen, sanitized.value, d);
    s' := s'.(candidates := cs, seen := seen);
  }

  /** The traversal loop over one behaviour of the network, and the contacts it reports. */
  method RunTraversal(peers: seq<Peer>, target: NodeId, kind: Kind, fanout: nat, events: seq<Event>)
    returns (closest: seq<Candidate>, verdict: Verdict, final: WalkState)
    ensures (final, verdict) == RunWalk(StartWalk(peers, DistanceTo(target)), events, kind, fanout, DistanceTo(target))
    ensures WalkOk(final, DistanceTo(target))
    ensures closest == ClosestResponders(final.candidates, ClosestLimit(kind, fanout))
    ensures verdict == Converged && kind == FindNode ==>
              |closest| == K && closest == Truncate(Select(final.candidates, NotFailed), K)
    ensures verdict == WindowDone ==> WindowAnswer(final.candidates, ClosestLimit(kind, fanout), closest)
    ensures verdict == NoTasks ==>
              var d := DistanceTo(target);
              && (AllSettled(final.candidates) <==> !Panics(StartWalk(peers, d), events, kind, fanout, d))
              && (AllSettled(final.candidates) ==>
                    closest == Truncate(Select(final.candidates, NotFailed), ClosestLimit(kind, fanout)))
  {
    hide WalkOk, StartWalk, Separating, DistanceTo, LaunchStep, FinishStep, Judge, Select, Truncate, WindowAnswer,
         AllSettled, Panics, NoOrphans, ClosestResponders;
    var d := DistanceTo(target);
    DistanceSeparates(target);
    StartOk(peers, d);
    var start := StartWalk(peers, d);
    final, verdict := start, Continue;
    var i := 0;
    while i < |events| && verdict == Continue
      invariant 0 <= i <= |events|
      invariant (final, verdict) == RunWalk(start, events[..i], kind, fanout, d)
    {
      assert events[..i + 1][..i] == events[..i];
      LaunchIs(final);
      var cs, ids := LaunchQueries(final.candidates, Max(0, ALPHA - CountInflight(final.candidates)));
      final := final.(candidates := cs, tasks := final.tasks + ids, queried := final.queried + ids);
      if final.tasks == [] {
        verdict := NoTasks;
      } else if events[i].task >= |final.tasks| {
        verdict := Interrupted;
      } else {
        final := FinishTask(final, events[i], kind, d);
        verdict := Judge(final, events[i].outcome, kind, fanout);
      }
      i := i + 1;
    }
    RunStopped(start, events, i, kind, fanout, d);
    RunKeeps(start, events, kind, fanout, d);
    closest := ClosestResponders(final.candidates, ClosestLimit(kind, fanout));
    if verdict == Converged && kind == FindNode { ConvergedAnswer(start, events, fanout, d); }
    if verdict == WindowDone { WindowDoneAnswer(start, events, kind, fanout, d); }
    if verdict == NoTasks {
      StartNoOrphans(peers, d);
      NoTasksAnswer(start, events, kind, fanout, d);
    }
  }

  lemma LaunchIs(s: WalkState)
    ensures var (cs, ids) := Launch(s.candidates, Max(0, ALPHA - CountInflight(s.candidates)));
            LaunchStep(s) == s.(candidates := cs, tasks := s.tasks + ids, queried := s.queried + ids)
  {
  }

  /** Events after the stopping one change nothing. */
  lemma {:induction false} RunStopped(s: WalkState, events: seq<Event>, i: nat, kind: Kind, fanout: nat, d: Rank)
    requires i <= |events| && (i == |events| || RunWalk(s, events[..i], kind, fanout, d).1 != Continue)
    ensures RunWalk(s, events, kind, fanout, d) == RunWalk(s, events[..i], kind, fanout, d)
    decreases |events| - i
  {
    if i == |events| {
      assert events[..i] == events;
    } else {
      assert events[..i + 1][..i] == events[..i];
      RunStopped(s, events, i + 1, kind, fanout, d);
    }
  }
}
