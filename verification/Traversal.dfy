/** Phase 1 of the Kad lookup walk: `crates/overlord-kad-dht/src/traversal.rs`. The network is an
    arbitrary sequence of events, each finishing one live query in any way it can finish. */
module Traversals {
  import opened Common
  import opened NodeIds
  import opened Contacts
  import opened Nearest

  const ALPHA := 3
  const KADEMLIA_FIND_VALUE := 0x02
  const KADEMLIA_STORE := 0x04
  const KADEMLIA_FIND_NODE := 0x0B

  datatype CandidateState = Pending | Inflight | Responded | Failed

  datatype Peer = Peer(id: NodeId, ip: Ipv4, port: nat, version: nat)

  /** `distance` is the candidate's XOR distance to the target, read as a number. */
  datatype Candidate = Candidate(peer: Peer, state: CandidateState, distance: nat)

  /** One contact of a `RES` answer. */
  datatype Entry = Entry(nodeId: NodeId, ip: Ipv4, udpPort: nat, version: nat)

  datatype Kind = FindNode | Store | Search

  /** How a query task ends. */
  datatype Outcome = Panicked | QueryFailed | Answered(contacts: seq<Entry>) | OtherPacket

  /** The live task at position `task` ends with `outcome`. */
  datatype Event = Event(task: nat, outcome: Outcome)

  datatype WalkState = WalkState(
    candidates: seq<Candidate>, seen: set<NodeId>, tasks: seq<NodeId>, queried: seq<NodeId>, finished: nat)

  datatype Verdict = Continue | Converged | WindowDone | NoTasks | Interrupted

  function RequestCount(kind: Kind): nat
  {
    match kind
    case FindNode => KADEMLIA_FIND_NODE
    case Store => KADEMLIA_STORE
    case Search => KADEMLIA_FIND_VALUE
  }

  function ClosestLimit(kind: Kind, fanout: nat): nat { if kind == Store then Max(fanout, K) else K }

  // ---- candidate lists -------------------------------------------------------------------------

  function Ids(cs: seq<Candidate>): set<NodeId> { set c | c in cs :: c.peer.id }

  function Find(cs: seq<Candidate>, id: NodeId): (r: nat)
    ensures r <= |cs|
    ensures r < |cs| ==> cs[r].peer.id == id
    ensures forall i :: 0 <= i < r ==> cs[i].peer.id != id
  {
    if cs == [] || cs[0].peer.id == id then 0 else 1 + Find(cs[1..], id)
  }

  /** Index of the first candidate that is not nearer than `distance`. */
  function PartitionPoint(cs: seq<Candidate>, distance: nat): (r: nat)
    ensures r <= |cs|
    ensures forall i :: 0 <= i < r ==> cs[i].distance < distance
    ensures r < |cs| ==> cs[r].distance >= distance
  {
    if cs == [] || cs[0].distance >= distance then 0 else 1 + PartitionPoint(cs[1..], distance)
  }

  function InsertAt(cs: seq<Candidate>, i: nat, c: Candidate): seq<Candidate>
    requires i <= |cs|
  {
    cs[..i] + [c] + cs[i..]
  }

  function WithState(cs: seq<Candidate>, id: NodeId, state: CandidateState): seq<Candidate>
  {
    var i := Find(cs, id);
    if i < |cs| then cs[i := cs[i].(state := state)] else cs
  }

  function CountInflight(cs: seq<Candidate>): nat
  {
    if cs == [] then 0 else CountInflight(cs[1..]) + (if cs[0].state == Inflight then 1 else 0)
  }

  /** Marks the first `n` pending candidates and lists their IDs. */
  function Launch(cs: seq<Candidate>, n: nat): (seq<Candidate>, seq<NodeId>)
  {
    if cs == [] || n == 0 then (cs, [])
    else if cs[0].state == Pending then
      var (rest, ids) := Launch(cs[1..], n - 1);
      ([cs[0].(state := Inflight)] + rest, [cs[0].peer.id] + ids)
    else
      var (rest, ids) := Launch(cs[1..], n);
      ([cs[0]] + rest, ids)
  }

  function Select(cs: seq<Candidate>, keep: CandidateState -> bool): seq<Candidate>
  {
    if cs == [] then [] else (if keep(cs[0].state) then [cs[0]] else []) + Select(cs[1..], keep)
  }

  predicate IsResponded(s: CandidateState) { s == Responded }

  predicate NotFailed(s: CandidateState) { s != Failed }

  /** `find_node_lookup_converged` */
  predicate LookupConverged(cs: seq<Candidate>)
  {
    var closest := Truncate(Select(cs, IsResponded), K);
    |closest| >= K
    && forall i :: 0 <= i < |cs| && cs[i].state in {Pending, Inflight} ==>
                     cs[i].distance > closest[|closest| - 1].distance
  }

  predicate WindowSettled(cs: seq<Candidate>, limit: nat)
  {
    && (forall i :: 0 <= i < |cs| && i < limit ==> cs[i].state in {Responded, Failed})
    && (forall i :: 0 <= i < |cs| ==> cs[i].state != Inflight)
  }

  // ---- answers -----------------------------------------------------------------------------------

  predicate Unusable(e: Entry) { e.ip == Ipv4(0, 0, 0, 0) || e.udpPort == 0 }

  /** Entries kept so far, IPs already met, and per-/24 counts. */
  datatype Sieve = Sieve(kept: seq<Entry>, ips: set<Ipv4>, prefixes: map<Subnet, nat>)

  function CountPrefix(prefixes: map<Subnet, nat>, p: Subnet): nat { if p in prefixes then prefixes[p] else 0 }

  function SieveStart(responder: Ipv4): Sieve { Sieve([], {responder}, map[Subnet24(responder) := 1]) }

  function SieveOne(s: Sieve, e: Entry): Sieve
  {
    var p := Subnet24(e.ip);
    if Unusable(e) || e.ip in s.ips then s
    else if CountPrefix(s.prefixes, p) >= 2 then s.(ips := s.ips + {e.ip})
    else Sieve(s.kept + [e], s.ips + {e.ip}, s.prefixes[p := CountPrefix(s.prefixes, p) + 1])
  }

  function SieveAll(responder: Ipv4, es: seq<Entry>): Sieve
  {
    if es == [] then SieveStart(responder) else SieveOne(SieveAll(responder, es[..|es| - 1]), es[|es| - 1])
  }

  function Sanitize(es: seq<Entry>, responder: Ipv4, limit: nat): Option<seq<Entry>>
  {
    if |es| > limit then None else Some(SieveAll(responder, es).kept)
  }

  function AbsorbOne(cs: seq<Candidate>, seen: set<NodeId>, e: Entry, d: Rank): (seq<Candidate>, set<NodeId>)
  {
    if e.nodeId in seen || Unusable(e) then (cs, seen)
    else
      var c := Candidate(Peer(e.nodeId, e.ip, e.udpPort, e.version), Pending, d(e.nodeId));
      (InsertAt(cs, PartitionPoint(cs, c.distance), c), seen + {e.nodeId})
  }

  function AbsorbAll(cs: seq<Candidate>, seen: set<NodeId>, es: seq<Entry>, d: Rank): (seq<Candidate>, set<NodeId>)
  {
    if es == [] then (cs, seen)
    else
      var (cs', seen') := AbsorbAll(cs, seen, es[..|es| - 1], d);
      AbsorbOne(cs', seen', es[|es| - 1], d)
  }

  function ResponderIp(cs: seq<Candidate>, id: NodeId): Ipv4
  {
    var i := Find(cs, id);
    if i < |cs| then cs[i].peer.ip else Ipv4(0, 0, 0, 0)
  }

  // ---- one loop iteration ----------------------------------------------------------------------------

  /** Tops the queries up to ALPHA in flight. */
  function LaunchStep(s: WalkState): WalkState
  {
    var (cs, ids) := Launch(s.candidates, Max(0, ALPHA - CountInflight(s.candidates)));
    s.(candidates := cs, tasks := s.tasks + ids, queried := s.queried + ids)
  }

  /** Consumes one finished task. A panicked task leaves its candidate in flight. */
  function FinishStep(s: WalkState, ev: Event, kind: Kind, d: Rank): WalkState
    requires ev.task < |s.tasks|
  {
    var id := s.tasks[ev.task];
    var s1 := s.(tasks := s.tasks[..ev.task] + s.tasks[ev.task + 1..], finished := s.finished + 1);
    match ev.outcome
    case Panicked => s1
    case QueryFailed => s1.(candidates := WithState(s.candidates, id, Failed))
    case OtherPacket => s1.(candidates := WithState(s.candidates, id, Failed))
    case Answered(contacts) =>
      var cs := WithState(s.candidates, id, Responded);
      match Sanitize(contacts, ResponderIp(cs, id), RequestCount(kind))
      case None => s1.(candidates := cs)
      case Some(es) =>
        var (cs', seen') := AbsorbAll(cs, s.seen, es, d);
        s1.(candidates := cs', seen := seen')
  }

  /** The `continue` paths skip the termination tests. */
  predicate SkipsTests(outcome: Outcome, kind: Kind)
  {
    outcome.Panicked? || (outcome.Answered? && |outcome.contacts| > RequestCount(kind))
  }

  function Judge(s: WalkState, outcome: Outcome, kind: Kind, fanout: nat): Verdict
  {
    if SkipsTests(outcome, kind) then Continue
    else if kind == FindNode && LookupConverged(s.candidates) then Converged
    else if WindowSettled(s.candidates, ClosestLimit(kind, fanout)) then WindowDone
    else Continue
  }

  /** One whole iteration: the state after it and whether the loop goes on. An event that names no live
      task stands for the deadline or a cancellation. */
  function Iterate(s: WalkState, ev: Event, kind: Kind, fanout: nat, d: Rank): (WalkState, Verdict)
  {
    var s1 := LaunchStep(s);
    if s1.tasks == [] then (s1, NoTasks)
    else if ev.task >= |s1.tasks| then (s1, Interrupted)
    else
      var s2 := FinishStep(s1, ev, kind, d);
      (s2, Judge(s2, ev.outcome, kind, fanout))
  }

  /** The loop over a sequence of events, up to the first verdict that stops it. */
  function RunWalk(s: WalkState, events: seq<Event>, kind: Kind, fanout: nat, d: Rank): (WalkState, Verdict)
  {
    if events == [] then (s, Continue)
    else
      var n := |events| - 1;
      var (s1, v) := RunWalk(s, events[..n], kind, fanout, d);
      if v != Continue then (s1, v) else Iterate(s1, events[n], kind, fanout, d)
  }

  /** `initial_candidates` sorted by distance, first of each ID kept. */
  function InsertSorted(cs: seq<Candidate>, c: Candidate): seq<Candidate>
  {
    if cs == [] || cs[|cs| - 1].distance <= c.distance then cs + [c]
    else InsertSorted(cs[..|cs| - 1], c) + [cs[|cs| - 1]]
  }

  function SortCandidates(cs: seq<Candidate>): seq<Candidate>
  {
    if cs == [] then [] else InsertSorted(SortCandidates(cs[..|cs| - 1]), cs[|cs| - 1])
  }

  function DedupAdjacent(cs: seq<Candidate>): seq<Candidate>
  {
    if |cs| < 2 then cs
    else if cs[|cs| - 1].peer.id == cs[|cs| - 2].peer.id then DedupAdjacent(cs[..|cs| - 1])
    else DedupAdjacent(cs[..|cs| - 1]) + [cs[|cs| - 1]]
  }

  function AsCandidates(peers: seq<Peer>, d: Rank): seq<Candidate>
  {
    seq(|peers|, i requires 0 <= i < |peers| => Candidate(peers[i], Pending, d(peers[i].id)))
  }

  function StartWalk(peers: seq<Peer>, d: Rank): WalkState
  {
    var cs := DedupAdjacent(SortCandidates(AsCandidates(peers, d)));
    WalkState(cs, Ids(cs), [], [], 0)
  }

  /** The list phase 1 reports. */
  function ClosestResponders(cs: seq<Candidate>, limit: nat): seq<Candidate>
  {
    Truncate(Select(cs, IsResponded), limit)
  }
}
