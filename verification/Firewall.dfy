/** The three verification rounds inside `crates/overlord-agent-emule/src/kad_firewall.rs`, as values. */
module FirewallRounds {
  import opened Common

  type Ip(==, !new) = nat
  type Port = nat
  type Time = int

  const TCP_FIREWALL_RECHECK_LIMIT := 4
  const EXTERNAL_PORT_DISCOVERY_REPORTERS := 3

  // ---- external port discovery -----------------------------------------------------------------------

  datatype Discovery = Discovery(reporters: set<Ip>, ports: seq<Port>)

  datatype PortOutcome = PortRecorded | PortResolved(port: Port) | PortUnreliable | PortIgnored

  /** One reported port; `None` means no round is active any more. */
  function RecordPort(round: Option<Discovery>, ip: Ip, port: Port): (Option<Discovery>, PortOutcome)
  {
    if port == 0 || round.None? || ip in round.value.reporters then (round, PortIgnored)
    else
      var reporters := round.value.reporters + {ip};
      if port in round.value.ports then (None, PortResolved(port))
      else if |reporters| >= EXTERNAL_PORT_DISCOVERY_REPORTERS then (None, PortUnreliable)
      else (Some(Discovery(reporters, round.value.ports + [port])), PortRecorded)
  }

  datatype Report = Report(ip: Ip, port: Port)

  /** How a round stands after a sequence of reports. */
  datatype PortVerdict = Undecided(round: Discovery) | Resolved(port: Port) | Unreliable

  function RunPorts(reports: seq<Report>): PortVerdict
  {
    if reports == [] then Undecided(Discovery({}, []))
    else
      var n := |reports| - 1;
      match RunPorts(reports[..n])
      case Undecided(round) =>
        (match RecordPort(Some(round), reports[n].ip, reports[n].port)
         case (Some(round'), _) => Undecided(round')
         case (None, PortResolved(port)) => Resolved(port)
         case (None, _) => Unreliable)
      case settled => settled
  }

  function Reporters(reports: seq<Report>): set<Ip> { set r | r in reports :: r.ip }

  /** The first usable report of each reporter, in order of arrival. */
  function FirstReports(reports: seq<Report>): seq<Report>
  {
    if reports == [] then []
    else
      var n := |reports| - 1;
      var earlier := FirstReports(reports[..n]);
      if reports[n].port == 0 || reports[n].ip in Reporters(earlier) then earlier else earlier + [reports[n]]
  }

  /** Two of the first three reporters name `port`. */
  ghost predicate NamedTwice(firsts: seq<Report>, port: Port)
  {
    exists i, j :: 0 <= i < j < |firsts| && j < EXTERNAL_PORT_DISCOVERY_REPORTERS
                   && firsts[i].port == port && firsts[j].port == port
  }

  ghost predicate AllDiffer(firsts: seq<Report>)
  {
    forall i, j :: 0 <= i < j < |firsts| && j < EXTERNAL_PORT_DISCOVERY_REPORTERS ==> firsts[i].port != firsts[j].port
  }

  ghost predicate VerdictFits(v: PortVerdict, firsts: seq<Report>)
  {
    match v
    case Undecided(round) =>
      && |firsts| < EXTERNAL_PORT_DISCOVERY_REPORTERS && AllDiffer(firsts)
      && round.reporters == Reporters(firsts) && |round.reporters| == |firsts|
      && |round.ports| == |firsts| && forall i :: 0 <= i < |firsts| ==> round.ports[i] == firsts[i].port
    case Resolved(port) => NamedTwice(firsts, port)
    case Unreliable => |firsts| >= EXTERNAL_PORT_DISCOVERY_REPORTERS && AllDiffer(firsts)
  }

  lemma ReportersSnoc(rs: seq<Report>, r: Report)
    ensures Reporters(rs + [r]) == Reporters(rs) + {r.ip}
  {
    assert r in rs + [r];
    assert forall x :: x in rs + [r] <==> x in rs || x == r;
  }

  lemma VerdictKept(v: PortVerdict, firsts: seq<Report>, r: Report)
    requires VerdictFits(v, firsts) && !v.Undecided?
    ensures VerdictFits(v, firsts + [r])
  {
    if v.Resolved? {
      var i, j :| 0 <= i < j < |firsts| && j < EXTERNAL_PORT_DISCOVERY_REPORTERS
                  && firsts[i].port == v.port && firsts[j].port == v.port;
      assert (firsts + [r])[i] == firsts[i] && (firsts + [r])[j] == firsts[j];
    }
  }

  lemma NewReport(round: Discovery, firsts: seq<Report>, r: Report)
    requires VerdictFits(Undecided(round), firsts) && r.port != 0 && r.ip !in Reporters(firsts)
    ensures match RecordPort(Some(round), r.ip, r.port)
            case (Some(round'), _) => VerdictFits(Undecided(round'), firsts + [r])
            case (None, PortResolved(port)) => VerdictFits(Resolved(port), firsts + [r])
            case (None, _) => VerdictFits(Unreliable, firsts + [r])
  {
    hide Reporters;
    ReportersSnoc(firsts, r);
    var all := firsts + [r];
    assert |round.reporters + {r.ip}| == |firsts| + 1;
    if r.port in round.ports {
      var i :| 0 <= i < |round.ports| && round.ports[i] == r.port;
      assert all[i].port == r.port && all[|firsts|].port == r.port;
    } else {
      StillDiffer(firsts, r);
    }
  }

  lemma StillDiffer(firsts: seq<Report>, r: Report)
    requires AllDiffer(firsts) && |firsts| < EXTERNAL_PORT_DISCOVERY_REPORTERS
    requires forall i :: 0 <= i < |firsts| ==> firsts[i].port != r.port
    ensures AllDiffer(firsts + [r])
  {
  }

  lemma {:induction false} RunPortsFits(reports: seq<Report>)
    ensures VerdictFits(RunPorts(reports), FirstReports(reports))
  {
    hide VerdictFits, RecordPort;
    if reports == [] {
      FreshRoundFits();
    } else {
      var n := |reports| - 1;
      RunPortsFits(reports[..n]);
      var (v, firsts, r) := (RunPorts(reports[..n]), FirstReports(reports[..n]), reports[n]);
      if !v.Undecided? {
        VerdictKept(v, firsts, r);
      } else if r.port == 0 || r.ip in Reporters(firsts) {
        IgnoredReport(v.round, firsts, r);
      } else {
        NewReport(v.round, firsts, r);
      }
    }
  }

  lemma FreshRoundFits()
    ensures VerdictFits(Undecided(Discovery({}, [])), [])
  {
  }

  lemma IgnoredReport(round: Discovery, firsts: seq<Report>, r: Report)
    requires VerdictFits(Undecided(round), firsts) && (r.port == 0 || r.ip in Reporters(firsts))
    ensures RecordPort(Some(round), r.ip, r.port) == (Some(round), PortIgnored)
  {
  }

  /** A port is resolved exactly when two of the first three different reporters of the round name it, and the
      round is given up exactly when three reporters all disagree. */
  lemma PortVerdictByHistory(reports: seq<Report>, port: Port)
    ensures RunPorts(reports) == Resolved(port) <==> NamedTwice(FirstReports(reports), port)
    ensures RunPorts(reports) == Unreliable <==>
              |FirstReports(reports)| >= EXTERNAL_PORT_DISCOVERY_REPORTERS && AllDiffer(FirstReports(reports))
  {
    RunPortsFits(reports);
    var firsts := FirstReports(reports);
    if NamedTwice(firsts, port) {
      var i, j :| 0 <= i < j < |firsts| && j < EXTERNAL_PORT_DISCOVERY_REPORTERS
                  && firsts[i].port == port && firsts[j].port == port;
      assert !AllDiffer(firsts);
    }
  }

  // ---- UDP reachability ---------------------------------------------------------------------------------

  datatype HelperOutcome = Pending | RequestFailed | RemoteError | WrongPort | Succeeded

  datatype UdpRound = UdpRound(startedAt: Time, expected: set<Port>, outcomes: map<Ip, HelperOutcome>)

  datatype Summary = Summary(
    open: bool, selected: nat, requested: nat, succeeded: nat, failed: nat, startedAt: Time, completedAt: Time)

  datatype UdpState = UdpState(round: Option<UdpRound>, open: bool, verified: bool)

  function Where(outcomes: map<Ip, HelperOutcome>, p: HelperOutcome -> bool): set<Ip>
  {
    set ip | ip in outcomes && p(outcomes[ip])
  }

  predicate IsSucceeded(o: HelperOutcome) { o == Succeeded }

  predicate WasRequested(o: HelperOutcome) { o != RequestFailed }

  predicate IsPending(o: HelperOutcome) { o == Pending }

  /** What `helpers_failed` is documented to count: an error or a wrong port reported by the helper. */
  predicate HasReported(o: HelperOutcome) { o == RemoteError || o == WrongPort }

  predicate HasFailed(o: HelperOutcome) { o != Pending && o != Succeeded }

  /** `finalize_round` on an active round. */
  function Summarize(round: UdpRound, open: bool, at: Time): Summary
  {
    Summary(open, |round.outcomes|, |Where(round.outcomes, WasRequested)|, |Where(round.outcomes, IsSucceeded)|,
            |Where(round.outcomes, HasFailed)|, round.startedAt, at)
  }

  function Usable(ports: seq<Port>): set<Port> { set p | p in ports && p != 0 }

  function AllPending(helpers: seq<Ip>): map<Ip, HelperOutcome> { map ip | ip in helpers :: Pending }

  function BeginUdp(s: UdpState, helpers: seq<Ip>, ports: seq<Port>, at: Time): (UdpState, bool)
  {
    if helpers == [] || Usable(ports) == {} then (s, false)
    else (s.(round := Some(UdpRound(at, Usable(ports), AllPending(helpers)))), true)
  }

  function HelperRequestFailed(s: UdpState, ip: Ip): UdpState
  {
    if s.round.None? || ip !in s.round.value.outcomes then s
    else s.(round := Some(s.round.value.(outcomes := s.round.value.outcomes[ip := RequestFailed])))
  }

  datatype UdpOutcome = Open(summary: Summary) | UdpRecorded | UdpIgnored

  function UdpPacket(s: UdpState, ip: Ip, errorCode: nat, port: Port, at: Time): (UdpState, UdpOutcome)
  {
    if s.round.None? || ip !in s.round.value.outcomes then (s, UdpIgnored)
    else
      var round := s.round.value;
      if errorCode == 0 && port in round.expected then
        (UdpState(None, true, true), Open(Summarize(round.(outcomes := round.outcomes[ip := Succeeded]), true, at)))
      else
        var outcome := if errorCode == 0 then WrongPort else RemoteError;
        (s.(round := Some(round.(outcomes := round.outcomes[ip := outcome]))), UdpRecorded)
  }

  /** With all four branches of the source, reachable or not. */
  function FinishUdp(s: UdpState, at: Time): (UdpState, Option<Summary>)
  {
    if s.round.None? then (s, None)
    else
      var outcomes := s.round.value.outcomes;
      if forall ip :: ip in outcomes ==> outcomes[ip] == Succeeded then (s, None)
      else if exists ip :: ip in outcomes && outcomes[ip] == Succeeded then
        (UdpState(None, true, true), Some(Summarize(s.round.value, true, at)))
      else if forall ip :: ip in outcomes ==> outcomes[ip] == RequestFailed then (s.(round := None), None)
      else (UdpState(None, false, true), Some(Summarize(s.round.value, false, at)))
  }

  datatype UdpEvent =
    | BeginEvent(helpers: seq<Ip>, ports: seq<Port>, at: Time)
    | FailEvent(ip: Ip)
    | PacketEvent(ip: Ip, errorCode: nat, port: Port, at: Time)
    | FinishEvent(at: Time)

  /** The next state and the summary the event published, if any. */
  function UdpStep(s: UdpState, ev: UdpEvent): (UdpState, Option<Summary>)
  {
    match ev
    case BeginEvent(helpers, ports, at) => (BeginUdp(s, helpers, ports, at).0, None)
    case FailEvent(ip) => (HelperRequestFailed(s, ip), None)
    case PacketEvent(ip, errorCode, port, at) =>
      var (s', outcome) := UdpPacket(s, ip, errorCode, port, at);
      (s', if outcome.Open? then Some(outcome.summary) else None)
    case FinishEvent(at) => FinishUdp(s, at)
  }

  function RunUdp(events: seq<UdpEvent>): UdpState
  {
    if events == [] then UdpState(None, false, false)
    else UdpStep(RunUdp(events[..|events| - 1]), events[|events| - 1]).0
  }

  /** A live round has helpers and expected ports but no success yet. */
  ghost predicate UdpOk(s: UdpState)
  {
    s.round.Some? ==>
      && s.round.value.outcomes != map[] && s.round.value.expected != {} && 0 !in s.round.value.expected
      && forall ip :: ip in s.round.value.outcomes ==> s.round.value.outcomes[ip] != Succeeded
  }

  lemma BeginOk(s: UdpState, helpers: seq<Ip>, ports: seq<Port>, at: Time)
    requires UdpOk(s)
    ensures UdpOk(BeginUdp(s, helpers, ports, at).0)
  {
    if helpers != [] { assert helpers[0] in AllPending(helpers); }
  }

  lemma UdpStepOk(s: UdpState, ev: UdpEvent)
    requires UdpOk(s)
    ensures UdpOk(UdpStep(s, ev).0)
  {
    match ev
    case BeginEvent(helpers, ports, at) => BeginOk(s, helpers, ports, at);
    case FailEvent(ip) =>
      if s.round.Some? && ip in s.round.value.outcomes { assert ip in s.round.value.outcomes[ip := RequestFailed]; }
    case PacketEvent(ip, errorCode, port, at) =>
      if s.round.Some? && ip in s.round.value.outcomes {
        assert ip in s.round.value.outcomes[ip := WrongPort] && ip in s.round.value.outcomes[ip := RemoteError];
      }
    case FinishEvent(_) =>
  }

  lemma {:induction false} RunUdpOk(events: seq<UdpEvent>)
    ensures UdpOk(RunUdp(events))
  {
    if events != [] {
      RunUdpOk(events[..|events| - 1]);
      UdpStepOk(RunUdp(events[..|events| - 1]), events[|events| - 1]);
    }
  }

  /** In every reachable state both success branches of `finish_udp_check` are dead: a live round ends as
      "nothing was sent" or as firewalled. */
  lemma FinishBranchesDead(events: seq<UdpEvent>, at: Time)
    ensures var s := RunUdp(events);
            s.round.Some? ==>
              FinishUdp(s, at) ==
              (if forall ip :: ip in s.round.value.outcomes ==> s.round.value.outcomes[ip] == RequestFailed
               then (s.(round := None), None)
               else (UdpState(None, false, true), Some(Summarize(s.round.value, false, at))))
  {
    RunUdpOk(events);
    var s := RunUdp(events);
    if s.round.Some? {
      var ip :| ip in s.round.value.outcomes;
      assert s.round.value.outcomes[ip] != Succeeded;
    }
  }

  lemma OnlySuccess(outcomes: map<Ip, HelperOutcome>, ip: Ip)
    requires ip in outcomes && forall x :: x in outcomes ==> outcomes[x] != Succeeded
    ensures Where(outcomes[ip := Succeeded], IsSucceeded) == {ip}
  {
  }

  lemma NoSuccess(outcomes: map<Ip, HelperOutcome>)
    requires forall x :: x in outcomes ==> outcomes[x] != Succeeded
    ensures Where(outcomes, IsSucceeded) == {}
  {
  }

  lemma WhereSplits(outcomes: map<Ip, HelperOutcome>, p: HelperOutcome -> bool, q: HelperOutcome -> bool,
                    r: HelperOutcome -> bool)
    requires forall o :: p(o) <==> q(o) || r(o)
    requires forall o :: !(q(o) && r(o))
    ensures |Where(outcomes, p)| == |Where(outcomes, q)| + |Where(outcomes, r)|
  {
    assert Where(outcomes, p) == Where(outcomes, q) + Where(outcomes, r);
    assert Where(outcomes, q) !! Where(outcomes, r);
  }

  predicate IsAnything(o: HelperOutcome) { true }

  predicate WasUnsent(o: HelperOutcome) { o == RequestFailed }

  predicate HasNotFailed(o: HelperOutcome) { o == Pending || o == Succeeded }

  lemma Accounting(outcomes: map<Ip, HelperOutcome>)
    ensures |outcomes| == |Where(outcomes, HasFailed)| + |Where(outcomes, IsSucceeded)| + |Where(outcomes, IsPending)|
    ensures |Where(outcomes, WasRequested)| <= |outcomes|
    ensures |Where(outcomes, HasFailed)|
            == (|outcomes| - |Where(outcomes, WasRequested)|) + |Where(outcomes, HasReported)|
  {
    assert |Where(outcomes, IsAnything)| == |outcomes| by { assert Where(outcomes, IsAnything) == outcomes.Keys; }
    hide Where;
    WhereSplits(outcomes, IsAnything, HasFailed, HasNotFailed);
    WhereSplits(outcomes, HasNotFailed, IsSucceeded, IsPending);
    WhereSplits(outcomes, IsAnything, WasRequested, WasUnsent);
    WhereSplits(outcomes, HasFailed, WasUnsent, HasReported);
  }

  /** How every helper stood when the event closed the round. */
  function FinalOutcomes(s: UdpState, ev: UdpEvent): map<Ip, HelperOutcome>
  {
    if s.round.None? then map[]
    else if ev.PacketEvent? && ev.ip in s.round.value.outcomes then s.round.value.outcomes[ev.ip := Succeeded]
    else s.round.value.outcomes
  }

  /** Every summary any run publishes: "open" comes with exactly one success and "firewalled" with none; the
      selected helpers are those that failed, succeeded or never answered, and those that failed are the ones
      never asked and the ones that reported a failure. */
  lemma SummariesAreConsistent(events: seq<UdpEvent>, ev: UdpEvent)
    ensures var (s, published) := (RunUdp(events), UdpStep(RunUdp(events), ev).1);
            published.Some? ==>
              var (m, final) := (published.value, FinalOutcomes(s, ev));
              && m.succeeded == (if m.open then 1 else 0)
              && m.selected == |final| && m.requested <= m.selected
              && m.selected == m.failed + m.succeeded + |Where(final, IsPending)|
              && m.failed == (m.selected - m.requested) + |Where(final, HasReported)|
              && UdpStep(s, ev).0 == UdpState(None, m.open, true)
  {
    RunUdpOk(events);
    var s := RunUdp(events);
    match ev
    case PacketEvent(ip, errorCode, port, at) =>
      if s.round.Some? && ip in s.round.value.outcomes {
        OnlySuccess(s.round.value.outcomes, ip);
        Accounting(s.round.value.outcomes[ip := Succeeded]);
      }
    case FinishEvent(at) =>
      if s.round.Some? {
        NoSuccess(s.round.value.outcomes);
        Accounting(s.round.value.outcomes);
        var ip :| ip in s.round.value.outcomes;
        assert s.round.value.outcomes[ip] != Succeeded;
      }
    case _ =>
  }

  // ---- a UDP round by its history ------------------------------------------------------------------------------

  /** What the last event about `ip` says of it. */
  function LastOutcome(events: seq<UdpEvent>, ip: Ip): HelperOutcome
  {
    if events == [] then Pending
    else
      var n := |events| - 1;
      match events[n]
      case FailEvent(who) => if who == ip then RequestFailed else LastOutcome(events[..n], ip)
      case PacketEvent(who, errorCode, _, _) =>
        if who != ip then LastOutcome(events[..n], ip) else if errorCode == 0 then WrongPort else RemoteError
      case _ => LastOutcome(events[..n], ip)
  }

  predicate Reaches(ev: UdpEvent, helpers: seq<Ip>, ports: seq<Port>)
  {
    ev.PacketEvent? && ev.ip in helpers && ev.errorCode == 0 && ev.port in ports && ev.port != 0
  }

  predicate AnyReaches(events: seq<UdpEvent>, helpers: seq<Ip>, ports: seq<Port>)
  {
    exists i :: 0 <= i < |events| && Reaches(events[i], helpers, ports)
  }

  function RunRound(s: UdpState, events: seq<UdpEvent>): UdpState
    decreases |events|
  {
    if events == [] then s else UdpStep(RunRound(s, events[..|events| - 1]), events[|events| - 1]).0
  }

  /** A round verifies the port as open exactly when some selected helper reports success on an expected port;
      until then each helper stands as its last event left it, and the earlier verdict is kept. */
  lemma {:induction false} UdpRoundByHistory(
    s: UdpState, helpers: seq<Ip>, ports: seq<Port>, at: Time, events: seq<UdpEvent>)
    requires BeginUdp(s, helpers, ports, at).1
    requires forall i :: 0 <= i < |events| ==> events[i].FailEvent? || events[i].PacketEvent?
    ensures RunRound(BeginUdp(s, helpers, ports, at).0, events) ==
            if AnyReaches(events, helpers, ports) then UdpState(None, true, true)
            else s.(round := Some(UdpRound(at, Usable(ports), Standing(events, helpers))))
    decreases |events|
  {
    if events == [] {
      assert AllPending(helpers) == Standing([], helpers);
    } else {
      var n := |events| - 1;
      var (front, ev) := (events[..n], events[n]);
      UdpRoundByHistory(s, helpers, ports, at, front);
      ReachesSnoc(events, helpers, ports);
      if !AnyReaches(front, helpers, ports) && !Reaches(ev, helpers, ports) {
        StandingSnoc(events, helpers);
      }
    }
  }

  function Standing(events: seq<UdpEvent>, helpers: seq<Ip>): map<Ip, HelperOutcome>
  {
    map ip | ip in helpers :: LastOutcome(events, ip)
  }

  lemma ReachesSnoc(events: seq<UdpEvent>, helpers: seq<Ip>, ports: seq<Port>)
    requires events != []
    ensures AnyReaches(events, helpers, ports) <==>
              AnyReaches(events[..|events| - 1], helpers, ports) || Reaches(events[|events| - 1], helpers, ports)
  {
    if AnyReaches(events[..|events| - 1], helpers, ports) {
      var i :| 0 <= i < |events| - 1 && Reaches(events[..|events| - 1][i], helpers, ports);
      assert Reaches(events[i], helpers, ports);
    }
    if AnyReaches(events, helpers, ports) {
      var i :| 0 <= i < |events| && Reaches(events[i], helpers, ports);
      assert i < |events| - 1 ==> Reaches(events[..|events| - 1][i], helpers, ports);
    }
  }

  lemma StandingSnoc(events: seq<UdpEvent>, helpers: seq<Ip>)
    requires events != [] && (events[|events| - 1].FailEvent? || events[|events| - 1].PacketEvent?)
    ensures var (front, ev) := (events[..|events| - 1], events[|events| - 1]);
            Standing(events, helpers) ==
            if ev.ip in helpers then Standing(front, helpers)[ev.ip := LastOutcome(events, ev.ip)]
            else Standing(front, helpers)
  {
  }

  // ---- the published counts by the history of the round ----------------------------------------------------------

  /** A round's parameters and every event since it began. */
  datatype RoundHistory = RoundHistory(helpers: seq<Ip>, ports: seq<Port>, at: Time, heard: seq<UdpEvent>)

  predicate StartsUdp(ev: UdpEvent) { ev.BeginEvent? && ev.helpers != [] && Usable(ev.ports) != {} }

  /** The latest round of a run, whether still live or not. */
  function LatestRound(events: seq<UdpEvent>): Option<RoundHistory>
  {
    if events == [] then None
    else
      var (earlier, ev) := (LatestRound(events[..|events| - 1]), events[|events| - 1]);
      if StartsUdp(ev) then Some(RoundHistory(ev.helpers, ev.ports, ev.at, []))
      else if earlier.None? then None
      else Some(earlier.value.(heard := earlier.value.heard + [ev]))
  }

  ghost predicate LiveAs(round: UdpRound, h: RoundHistory)
  {
    round == UdpRound(h.at, Usable(h.ports), Standing(h.heard, h.helpers)) && !AnyReaches(h.heard, h.helpers, h.ports)
  }

  lemma FreshRound(s: UdpState, ev: UdpEvent)
    requires StartsUdp(ev)
    ensures UdpStep(s, ev).0.round.Some?
    ensures LiveAs(UdpStep(s, ev).0.round.value, RoundHistory(ev.helpers, ev.ports, ev.at, []))
  {
    assert AllPending(ev.helpers) == Standing([], ev.helpers);
  }

  lemma LiveStep(s: UdpState, h: RoundHistory, ev: UdpEvent)
    requires s.round.Some? && LiveAs(s.round.value, h) && !StartsUdp(ev) && UdpStep(s, ev).0.round.Some?
    ensures LiveAs(UdpStep(s, ev).0.round.value, h.(heard := h.heard + [ev]))
  {
    var all := h.heard + [ev];
    assert all[..|all| - 1] == h.heard;
    ReachesSnoc(all, h.helpers, h.ports);
    if ev.FailEvent? || ev.PacketEvent? {
      StandingSnoc(all, h.helpers);
    } else {
      assert Standing(all, h.helpers) == Standing(h.heard, h.helpers);
    }
  }

  /** A live round is what its own history makes it. */
  lemma {:induction false} LiveRoundIs(events: seq<UdpEvent>)
    ensures RunUdp(events).round.Some? ==>
              LatestRound(events).Some? && LiveAs(RunUdp(events).round.value, LatestRound(events).value)
  {
    hide LiveAs, UdpStep;
    if events != [] {
      var (front, ev) := (events[..|events| - 1], events[|events| - 1]);
      LiveRoundIs(front);
      if StartsUdp(ev) {
        FreshRound(RunUdp(front), ev);
      } else if RunUdp(events).round.Some? {
        NoRoundNoRound(RunUdp(front), ev);
        LiveStep(RunUdp(front), LatestRound(front).value, ev);
      }
    }
  }

  lemma NoRoundNoRound(s: UdpState, ev: UdpEvent)
    ensures s.round.None? && !StartsUdp(ev) ==> UdpStep(s, ev).0.round.None?
  {
  }

  function Selected(h: RoundHistory): set<Ip> { set ip | ip in h.helpers }

  /** The selected helpers that reported an error or a wrong port: those heard from before any success. */
  function Reported(h: RoundHistory): set<Ip>
  {
    set ev | ev in h.heard && ev.PacketEvent? && ev.ip in h.helpers :: ev.ip
  }

  /** The selected helpers whose request could not be sent. */
  function Unsent(h: RoundHistory): set<Ip>
  {
    set ev | ev in h.heard && ev.FailEvent? && ev.ip in h.helpers :: ev.ip
  }

  predicate About(ev: UdpEvent, ip: Ip) { (ev.FailEvent? || ev.PacketEvent?) && ev.ip == ip }

  /** The last thing that happened to `ip` is a packet from it. */
  ghost predicate SpokeLast(events: seq<UdpEvent>, ip: Ip)
  {
    exists i :: 0 <= i < |events| && events[i].PacketEvent? && events[i].ip == ip
                && forall j :: i < j < |events| ==> !About(events[j], ip)
  }

  lemma SpokeLastSnoc(events: seq<UdpEvent>, ev: UdpEvent, ip: Ip)
    ensures SpokeLast(events + [ev], ip) <==> if About(ev, ip) then ev.PacketEvent? else SpokeLast(events, ip)
  {
    var all := events + [ev];
    if About(ev, ip) && ev.PacketEvent? { assert all[|events|].PacketEvent? && all[|events|].ip == ip; }
    if SpokeLast(events, ip) && !About(ev, ip) {
      var i :| 0 <= i < |events| && events[i].PacketEvent? && events[i].ip == ip
               && forall j :: i < j < |events| ==> !About(events[j], ip);
      assert all[i] == events[i];
    }
    if SpokeLast(all, ip) { SpokeLastBefore(events, ev, ip); }
  }

  lemma SpokeLastBefore(events: seq<UdpEvent>, ev: UdpEvent, ip: Ip)
    requires SpokeLast(events + [ev], ip)
    ensures if About(ev, ip) then ev.PacketEvent? else SpokeLast(events, ip)
  {
    var all := events + [ev];
    var i :| 0 <= i < |all| && all[i].PacketEvent? && all[i].ip == ip
             && forall j :: i < j < |all| ==> !About(all[j], ip);
    assert all[|events|] == ev;
    if i < |events| {
      assert events[i] == all[i];
      assert forall j :: i < j < |events| ==> events[j] == all[j];
    }
  }

  /** How a helper stands, read off the events about it. */
  lemma {:induction false} LastOutcomeIs(events: seq<UdpEvent>, ip: Ip)
    ensures LastOutcome(events, ip) == Pending <==> forall ev :: ev in events ==> !About(ev, ip)
    ensures HasReported(LastOutcome(events, ip)) <==> SpokeLast(events, ip)
    ensures LastOutcome(events, ip) != Succeeded
  {
    if events != [] {
      hide SpokeLast;
      var (front, ev) := (events[..|events| - 1], events[|events| - 1]);
      LastOutcomeIs(front, ip);
      SpokeLastSnoc(front, ev, ip);
      assert events == front + [ev];
    }
  }

  lemma FailedAre(h: RoundHistory)
    ensures Where(Standing(h.heard, h.helpers), HasFailed) == Reported(h) + Unsent(h)
  {
    hide LastOutcome;
    forall ip | ip in h.helpers
      ensures HasFailed(LastOutcome(h.heard, ip)) <==> ip in Reported(h) + Unsent(h)
    {
      LastOutcomeIs(h.heard, ip);
    }
  }

  lemma RequestedAre(h: RoundHistory)
    ensures var requested := Where(Standing(h.heard, h.helpers), WasRequested);
            && Selected(h) - Unsent(h) <= requested
            && forall ip :: ip in requested - (Selected(h) - Unsent(h)) <==> ip in Unsent(h) && SpokeLast(h.heard, ip)
  {
    hide LastOutcome, SpokeLast;
    forall ip | ip in h.helpers
      ensures WasRequested(LastOutcome(h.heard, ip)) <==> ip !in Unsent(h) || SpokeLast(h.heard, ip)
    {
      LastOutcomeIs(h.heard, ip);
      if LastOutcome(h.heard, ip) == RequestFailed { RequestFailedWasUnsent(h.heard, ip); }
    }
  }

  lemma {:induction false} RequestFailedWasUnsent(events: seq<UdpEvent>, ip: Ip)
    ensures LastOutcome(events, ip) == RequestFailed ==> FailEvent(ip) in events
  {
    if events != [] { RequestFailedWasUnsent(events[..|events| - 1], ip); }
  }

  /** The helper whose success closed the round, if one did. */
  function Winner(m: Summary, ev: UdpEvent): set<Ip> { if m.open && ev.PacketEvent? then {ev.ip} else {} }

  /** Which helpers a published summary counts as failed and as requested. */
  lemma CountedAre(events: seq<UdpEvent>, ev: UdpEvent)
    ensures var (s, published) := (RunUdp(events), UdpStep(RunUdp(events), ev).1);
            published.Some? ==>
              && s.round.Some? && LatestRound(events).Some?
              && var (m, h) := (published.value, LatestRound(events).value);
                 var (final, stood) := (FinalOutcomes(s, ev), Standing(h.heard, h.helpers));
                 && m.failed == |Where(final, HasFailed)| && m.requested == |Where(final, WasRequested)|
                 && m.selected == |Selected(h)| && Winner(m, ev) <= Selected(h)
                 && Where(final, HasFailed) == Where(stood, HasFailed) - Winner(m, ev)
                 && Where(final, WasRequested) == Where(stood, WasRequested) + Winner(m, ev)
  {
    hide RunUdp, LatestRound, Standing;
    LiveRoundIs(events);
    RunUdpOk(events);
    var s := RunUdp(events);
    if UdpStep(s, ev).1.Some? {
      var h := LatestRound(events).value;
      StandingKeys(h);
      match ev
      case PacketEvent(ip, _, _, _) => WinnerCounts(s.round.value.outcomes, ip);
      case FinishEvent(at) => FinishBranchesDead(events, at);
      case _ =>
    }
  }

  lemma StandingKeys(h: RoundHistory)
    ensures Standing(h.heard, h.helpers).Keys == Selected(h)
    ensures |Standing(h.heard, h.helpers)| == |Selected(h)|
  {
    assert Standing(h.heard, h.helpers).Keys == Selected(h);
  }

  lemma WinnerCounts(outcomes: map<Ip, HelperOutcome>, ip: Ip)
    requires ip in outcomes
    ensures var final := outcomes[ip := Succeeded];
            && final.Keys == outcomes.Keys && |final| == |outcomes|
            && Where(final, HasFailed) == Where(outcomes, HasFailed) - {ip}
            && Where(final, WasRequested) == Where(outcomes, WasRequested) + {ip}
  {
    assert outcomes[ip := Succeeded].Keys == outcomes.Keys;
  }

  /** `helpers_failed` is documented as the helpers that reported an error or a wrong port. The code also counts
      those it could not ask, and forgets what the winner reported. A round without a success counts exactly the
      documented helpers if and only if every helper that could not be asked was heard from; a round with one, if
      and only if moreover the winner had not reported before. There the number alone can also be right by
      accident: exactly one other helper could not be asked, and the winner would have counted. */
  lemma FailedAsDocumentedIff(events: seq<UdpEvent>, ev: UdpEvent)
    ensures var (s, published) := (RunUdp(events), UdpStep(RunUdp(events), ev).1);
            published.Some? ==>
              && LatestRound(events).Some?
              && var (m, h) := (published.value, LatestRound(events).value);
                 var counted := Where(FinalOutcomes(s, ev), HasFailed);
                 var (told, unsent, winner) := (Reported(h), Unsent(h), Winner(m, ev));
                 && m.failed == |counted| && counted == (told + unsent) - winner
                 && (counted == told <==> unsent - winner <= told && winner !! told)
                 && (!m.open ==> (m.failed == |told| <==> unsent <= told))
                 && (m.open ==> (m.failed == |told| <==>
                                   |unsent - told| == if winner !! told + unsent then 0 else 1))
  {
    hide RunUdp, UdpStep, LatestRound, Where, Standing, FinalOutcomes, Reported, Unsent;
    CountedAre(events, ev);
    var published := UdpStep(RunUdp(events), ev).1;
    if published.Some? {
      var h := LatestRound(events).value;
      FailedAre(h);
      SummariesAreConsistent(events, ev);
      LosingOne(Reported(h), Unsent(h), Winner(published.value, ev));
    }
  }

  lemma LosingOne(told: set<Ip>, unsent: set<Ip>, winner: set<Ip>)
    requires |winner| <= 1
    ensures (told + unsent) - winner == told <==> unsent - winner <= told && winner !! told
    ensures |(told + unsent) - winner| == |told| <==>
              |unsent - told| == if winner !! told + unsent then 0 else 1
    ensures winner == {} ==> (|told + unsent| == |told| <==> unsent <= told)
  {
    assert told + unsent == told + (unsent - told);
    assert |told + unsent| == |told| + |unsent - told|;
    if winner !! told + unsent {
      assert (told + unsent) - winner == told + unsent;
    } else {
      var w :| w in winner && w in told + unsent;
      OnlyMember(winner, w);
      assert |(told + unsent) - {w}| == |told + unsent| - 1;
    }
    if unsent <= told { assert unsent - told == {}; }
    if |unsent - told| == 0 { assert unsent - told == {}; }
  }

  lemma OnlyMember(s: set<Ip>, x: Ip)
    requires |s| <= 1 && x in s
    ensures s == {x}
  {
    SubsetCard({x}, s);
    assert |s - {x}| == |s| - 1;
  }

  /** The events of a round, with the one that closed it. */
  function WholeRound(h: RoundHistory, ev: UdpEvent): seq<UdpEvent> { h.heard + [ev] }

  /** `helpers_requested` is documented as the helpers that could be asked. The code counts at least those, and
      exactly those if and only if no helper that could not be asked has had the last word. */
  lemma RequestedAsDocumentedIff(events: seq<UdpEvent>, ev: UdpEvent)
    ensures var published := UdpStep(RunUdp(events), ev).1;
            published.Some? ==>
              && LatestRound(events).Some?
              && var (m, h) := (published.value, LatestRound(events).value);
                 && m.requested >= |Selected(h) - Unsent(h)|
                 && (m.requested == |Selected(h) - Unsent(h)| <==>
                       forall ip :: ip in Unsent(h) ==> !SpokeLast(WholeRound(h, ev), ip))
  {
    hide RunUdp, UdpStep, LatestRound, Where, Standing, FinalOutcomes, Unsent, SpokeLast;
    CountedAre(events, ev);
    var published := UdpStep(RunUdp(events), ev).1;
    if published.Some? {
      var (m, h) := (published.value, LatestRound(events).value);
      var (stood, asked) := (Standing(h.heard, h.helpers), Selected(h) - Unsent(h));
      RequestedAre(h);
      var counted := Where(stood, WasRequested) + Winner(m, ev);
      EqualCards(asked, counted);
      ClosedBy(RunUdp(events), ev);
      forall ip ensures ip in counted - asked <==> ip in Unsent(h) && SpokeLast(WholeRound(h, ev), ip) {
        SpokeLastSnoc(h.heard, ev, ip);
      }
    }
  }

  lemma ClosedBy(s: UdpState, ev: UdpEvent)
    ensures UdpStep(s, ev).1.Some? ==> if ev.PacketEvent? then UdpStep(s, ev).1.value.open else ev.FinishEvent?
  {
  }

  lemma EqualCards(a: set<Ip>, b: set<Ip>)
    requires a <= b
    ensures |a| <= |b| && (|a| == |b| <==> b - a == {})
  {
    assert b == a + (b - a);
    assert |b| == |a| + |b - a|;
  }

  /** One helper could not be asked and the other has not answered. */
  const HALF_SENT: seq<UdpEvent> := [BeginEvent([1, 2], [5], 0), FailEvent(1)]

  lemma HalfSentState()
    ensures RunUdp(HALF_SENT)
            == UdpState(Some(UdpRound(0, {5}, map[1 := RequestFailed, 2 := Pending])), false, false)
    ensures LatestRound(HALF_SENT) == Some(RoundHistory([1, 2], [5], 0, [FailEvent(1)]))
  {
    assert HALF_SENT[..1] == [BeginEvent([1, 2], [5], 0)] && HALF_SENT[..1][..0] == [];
    assert RunUdp(HALF_SENT[..1]) == UdpStep(RunUdp([]), HALF_SENT[0]).0;
    assert 5 in Usable([5]) && Usable([5]) == {5};
    assert [] + [FailEvent(1)] == [FailEvent(1)];
    assert AllPending([1, 2])[1 := RequestFailed] == map[1 := RequestFailed, 2 := Pending];
  }

  lemma HalfSentCounts(outcomes: map<Ip, HelperOutcome>)
    requires outcomes == map[1 := RequestFailed, 2 := Pending]
    ensures |outcomes| == 2 && Where(outcomes, WasRequested) == {2} && Where(outcomes, HasFailed) == {1}
    ensures Where(outcomes, IsSucceeded) == {} && Where(outcomes, HasReported) == {}
  {
    assert outcomes.Keys == {1, 2};
  }

  /** A round where nobody reported a failure, and one is counted. */
  lemma UnsentCountsAsFailed()
    ensures UdpStep(RunUdp(HALF_SENT), FinishEvent(9)).1 == Some(Summary(false, 2, 1, 0, 1, 0, 9))
    ensures Where(FinalOutcomes(RunUdp(HALF_SENT), FinishEvent(9)), HasReported) == {}
    ensures LatestRound(HALF_SENT).Some?
    ensures Reported(LatestRound(HALF_SENT).value) == {} && Unsent(LatestRound(HALF_SENT).value) == {1}
  {
    hide RunUdp, Where, LatestRound;
    HalfSentState();
    var outcomes := RunUdp(HALF_SENT).round.value.outcomes;
    HalfSentCounts(outcomes);
    assert outcomes[2] == Pending && outcomes[1] == RequestFailed;
    assert FailEvent(1) in LatestRound(HALF_SENT).value.heard;
  }

  /** The helper that could not be asked reports an error all the same. */
  const UNASKED_REPLY: seq<UdpEvent> := HALF_SENT + [PacketEvent(1, 7, 9, 3)]

  /** A round that counts both helpers as asked, although one could not be. */
  lemma UnsentCountsAsRequested()
    ensures UdpStep(RunUdp(UNASKED_REPLY), FinishEvent(9)).1 == Some(Summary(false, 2, 2, 0, 1, 0, 9))
    ensures LatestRound(UNASKED_REPLY).Some? && Unsent(LatestRound(UNASKED_REPLY).value) == {1}
  {
    hide RunUdp, Where, LatestRound;
    HalfSentState();
    UnaskedReplyState();
    var outcomes := RunUdp(UNASKED_REPLY).round.value.outcomes;
    UnaskedReplyCounts(outcomes);
    assert outcomes[2] == Pending && outcomes[1] == RemoteError;
    assert FailEvent(1) in LatestRound(UNASKED_REPLY).value.heard;
  }

  lemma UnaskedReplyState()
    ensures RunUdp(UNASKED_REPLY)
            == UdpState(Some(UdpRound(0, {5}, map[1 := RemoteError, 2 := Pending])), false, false)
    ensures LatestRound(UNASKED_REPLY)
            == Some(RoundHistory([1, 2], [5], 0, [FailEvent(1), PacketEvent(1, 7, 9, 3)]))
  {
    HalfSentState();
    assert UNASKED_REPLY[..|UNASKED_REPLY| - 1] == HALF_SENT;
    assert [FailEvent(1)] + [PacketEvent(1, 7, 9, 3)] == [FailEvent(1), PacketEvent(1, 7, 9, 3)];
    assert map[1 := RequestFailed, 2 := Pending][1 := RemoteError] == map[1 := RemoteError, 2 := Pending];
  }

  lemma UnaskedReplyCounts(outcomes: map<Ip, HelperOutcome>)
    requires outcomes == map[1 := RemoteError, 2 := Pending]
    ensures |outcomes| == 2 && Where(outcomes, WasRequested) == {1, 2} && Where(outcomes, HasFailed) == {1}
    ensures Where(outcomes, IsSucceeded) == {}
  {
    assert outcomes.Keys == {1, 2};
  }

  // ---- TCP recheck --------------------------------------------------------------------------------------------

  datatype TcpRound = TcpRound(helpers: set<Ip>, completed: nat)

  datatype TcpState = TcpState(round: Option<TcpRound>, active: bool)

  datatype TcpOutcome = TcpRecorded | TcpCompleted | TcpIgnored

  function RefreshTcp(s: TcpState, firewalled: bool): TcpState
  {
    if !firewalled then TcpState(None, false)
    else if s.round.None? then TcpState(Some(TcpRound({}, 0)), true)
    else s
  }

  function BeginProbe(s: TcpState, ip: Ip): (TcpState, bool)
  {
    if s.round.None? || s.round.value.completed >= TCP_FIREWALL_RECHECK_LIMIT
       || |s.round.value.helpers| >= TCP_FIREWALL_RECHECK_LIMIT || ip in s.round.value.helpers then (s, false)
    else (TcpState(Some(s.round.value.(helpers := s.round.value.helpers + {ip})), true), true)
  }

  function ProbeFailed(s: TcpState, ip: Ip): TcpState
  {
    if s.round.None? then s else s.(round := Some(s.round.value.(helpers := s.round.value.helpers - {ip})))
  }

  function FirewalledResponse(s: TcpState, ip: Ip): (TcpState, TcpOutcome)
  {
    if s.round.None? || ip !in s.round.value.helpers then (s, TcpIgnored)
    else
      var round := TcpRound(s.round.value.helpers - {ip}, s.round.value.completed + 1);
      if round.completed >= TCP_FIREWALL_RECHECK_LIMIT then (TcpState(None, false), TcpCompleted)
      else (TcpState(Some(round), true), TcpRecorded)
  }

  datatype TcpEvent = Refresh(firewalled: bool) | Begin(ip: Ip) | Fail(ip: Ip) | Reply(ip: Ip)

  function TcpStep(s: TcpState, ev: TcpEvent): TcpState
  {
    match ev
    case Refresh(firewalled) => RefreshTcp(s, firewalled)
    case Begin(ip) => BeginProbe(s, ip).0
    case Fail(ip) => ProbeFailed(s, ip)
    case Reply(ip) => FirewalledResponse(s, ip).0
  }

  function RunTcp(events: seq<TcpEvent>): TcpState
  {
    if events == [] then TcpState(None, false) else TcpStep(RunTcp(events[..|events| - 1]), events[|events| - 1])
  }

  /** Bookkeeping of the current round: reservations made, released by a failure, and used by a reply. */
  datatype Ledger = Ledger(reserved: nat, released: nat, replied: nat)

  function StartsRound(s: TcpState, ev: TcpEvent): bool { ev == Refresh(true) && s.round.None? }

  function RunLedger(events: seq<TcpEvent>): Ledger
  {
    if events == [] then Ledger(0, 0, 0)
    else
      var n := |events| - 1;
      var (s, l, ev) := (RunTcp(events[..n]), RunLedger(events[..n]), events[n]);
      if StartsRound(s, ev) then Ledger(0, 0, 0)
      else match ev
        case Begin(ip) => if BeginProbe(s, ip).1 then l.(reserved := l.reserved + 1) else l
        case Fail(ip) => if s.round.Some? && ip in s.round.value.helpers then l.(released := l.released + 1) else l
        case Reply(ip) => if FirewalledResponse(s, ip).1.TcpIgnored? then l else l.(replied := l.replied + 1)
        case Refresh(_) => l
  }

  /** The recheck flag mirrors the round; a round uses at most four replies, each consuming a reservation made
      in that round, and never holds more than four reservations. */
  lemma {:induction false} TcpRunKeeps(events: seq<TcpEvent>)
    ensures var (s, l) := (RunTcp(events), RunLedger(events));
            && s.active == s.round.Some?
            && l.replied <= TCP_FIREWALL_RECHECK_LIMIT && l.replied + l.released <= l.reserved
            && (s.round.Some? ==>
                  && |s.round.value.helpers| <= TCP_FIREWALL_RECHECK_LIMIT
                  && s.round.value.completed == l.replied < TCP_FIREWALL_RECHECK_LIMIT
                  && l.reserved == l.released + l.replied + |s.round.value.helpers|)
  {
    if events != [] {
      var n := |events| - 1;
      TcpRunKeeps(events[..n]);
      var s := RunTcp(events[..n]);
      match events[n]
      case Begin(ip) => if BeginProbe(s, ip).1 { assert |s.round.value.helpers + {ip}| == |s.round.value.helpers| + 1; }
      case Fail(ip) => if s.round.Some? { DropOne(s.round.value.helpers, ip); }
      case Reply(ip) => if s.round.Some? { DropOne(s.round.value.helpers, ip); }
      case Refresh(_) =>
    }
  }

  lemma DropOne(helpers: set<Ip>, ip: Ip)
    ensures |helpers - {ip}| == |helpers| - (if ip in helpers then 1 else 0)
  {
    if ip !in helpers { assert helpers - {ip} == helpers; }
  }
}

/** `KadFirewallState`: the fields of the source, updated in place. The ghost logs record what each of the three
    machines has been told, and `Valid` says the fields are exactly what those histories produce. */
module KadFirewall {
  import opened Common
  import opened FirewallRounds

  /** The texts `last_error` can hold; a failure reported by the caller carries its own. */
  datatype CheckError =
    | InconsistentPorts | DiscoveryTimedOut | NoHelpers | NoExpectedPorts | AllRequestsFailed | NoPositiveResult
    | Reported(text: string)

  lemma UdpSnoc(log: seq<UdpEvent>, ev: UdpEvent)
    ensures RunUdp(log + [ev]) == UdpStep(RunUdp(log), ev).0
  {
    assert (log + [ev])[..|log|] == log;
  }

  lemma OneSuccess(log: seq<UdpEvent>, ev: UdpEvent)
    ensures var published := UdpStep(RunUdp(log), ev).1;
            published.Some? ==>
              && (published.value.open <==> ev.PacketEvent?)
              && published.value.succeeded == if published.value.open then 1 else 0
  {
    hide RunUdp, FinalOutcomes;
    SummariesAreConsistent(log, ev);
    if ev.FinishEvent? { FinishBranchesDead(log, ev.at); }
  }

  lemma TcpSnoc(log: seq<TcpEvent>, ev: TcpEvent)
    ensures RunTcp(log + [ev]) == TcpStep(RunTcp(log), ev)
  {
    assert (log + [ev])[..|log|] == log;
  }

  lemma PortSnoc(reports: seq<Report>, round: Discovery, ip: Ip, port: Port)
    requires RunPorts(reports) == Undecided(round)
    ensures RunPorts(reports + [Report(ip, port)]) ==
            match RecordPort(Some(round), ip, port)
            case (Some(round'), _) => Undecided(round')
            case (None, PortResolved(p)) => Resolved(p)
            case (None, _) => Unreliable
  {
    assert (reports + [Report(ip, port)])[..|reports|] == reports;
  }

  class KadFirewallState {
    var udpOpen: bool
    var udpVerified: bool
    var lastUdpCheckStartedAt: Option<Time>
    var lastUdpCheckSucceededAt: Option<Time>
    var lastUdpCheckFailedAt: Option<Time>
    var lastHelperIp: Option<Ip>
    var lastReportedPort: Option<Port>
    var lastError: Option<CheckError>
    var tcpRecheckActive: bool
    var lastTcpCheckStartedAt: Option<Time>
    var lastTcpCheckCompletedAt: Option<Time>
    var lastReportedExternalIp: Option<Ip>
    var lastPortProbeStartedAt: Option<Time>
    var lastPortProbeCompletedAt: Option<Time>
    var lastReportedExternalPort: Option<Port>
    var activeRound: Option<UdpRound>
    var activeTcpRound: Option<TcpRound>
    var activeDiscovery: Option<Discovery>
    var discoveredPort: Option<Port>

    ghost var reports: seq<Report> // heard by the latest discovery round while it was open
    ghost var udpLog: seq<UdpEvent>
    ghost var tcpLog: seq<TcpEvent>

    ghost predicate Valid()
      reads this
    {
      PortsFollowReports() && RunUdp(udpLog) == Udp() && RunTcp(tcpLog) == Tcp()
    }

    ghost predicate PortsFollowReports()
      reads `activeDiscovery, `reports, `discoveredPort
    {
      && (activeDiscovery.Some? ==> RunPorts(reports) == Undecided(activeDiscovery.value))
      && discoveredPort == (match RunPorts(reports) case Resolved(port) => Some(port) case _ => None)
    }

    ghost function Udp(): UdpState
      reads `activeRound, `udpOpen, `udpVerified
    {
      UdpState(activeRound, udpOpen, udpVerified)
    }

    ghost function Tcp(): TcpState
      reads `activeTcpRound, `tcpRecheckActive
    {
      TcpState(activeTcpRound, tcpRecheckActive)
    }

    constructor ()
      ensures Valid() && reports == [] && udpLog == [] && tcpLog == []
    {
      udpOpen, udpVerified, tcpRecheckActive := false, false, false;
      lastUdpCheckStartedAt, lastUdpCheckSucceededAt, lastUdpCheckFailedAt := None, None, None;
      lastHelperIp, lastReportedPort, lastError := None, None, None;
      lastTcpCheckStartedAt, lastTcpCheckCompletedAt, lastReportedExternalIp := None, None, None;
      lastPortProbeStartedAt, lastPortProbeCompletedAt, lastReportedExternalPort := None, None, None;
      activeRound, activeTcpRound, activeDiscovery, discoveredPort := None, None, None, None;
      reports, udpLog, tcpLog := [], [], [];
    }

    method BeginExternalPortDiscovery(startedAt: Time)
      requires Valid()
      modifies `lastPortProbeStartedAt, `lastPortProbeCompletedAt, `lastReportedExternalPort,
               `discoveredPort, `activeDiscovery, `reports
      ensures Valid() && reports == [] && activeDiscovery.Some?
      ensures lastPortProbeStartedAt == Some(startedAt) && lastPortProbeCompletedAt == None
      ensures lastReportedExternalPort == None
    {
      lastPortProbeStartedAt := Some(startedAt);
      lastPortProbeCompletedAt := None;
      lastReportedExternalPort := None;
      discoveredPort := None;
      activeDiscovery := Some(Discovery({}, []));
      reports := [];
    }

    method RecordExternalPortCandidate(ip: Ip, port: Port, observedAt: Time) returns (outcome: PortOutcome)
      requires Valid()
      modifies `lastPortProbeCompletedAt, `lastReportedExternalPort, `lastHelperIp, `lastError,
               `discoveredPort, `activeDiscovery, `reports
      ensures Valid()
      ensures reports == old(reports) + (if old(activeDiscovery).Some? then [Report(ip, port)] else [])
      ensures (activeDiscovery, outcome) == RecordPort(old(activeDiscovery), ip, port)
      ensures outcome == PortIgnored ==>
                && lastHelperIp == old(lastHelperIp) && lastReportedExternalPort == old(lastReportedExternalPort)
                && lastPortProbeCompletedAt == old(lastPortProbeCompletedAt) && lastError == old(lastError)
      ensures outcome != PortIgnored ==> lastHelperIp == Some(ip) && lastReportedExternalPort == Some(port)
      ensures outcome == PortRecorded ==>
                lastPortProbeCompletedAt == old(lastPortProbeCompletedAt) && lastError == old(lastError)
      ensures outcome.PortResolved? ==> lastPortProbeCompletedAt == Some(observedAt) && lastError == None
      ensures outcome.PortUnreliable? ==>
                lastPortProbeCompletedAt == Some(observedAt) && lastError == Some(InconsistentPorts)
    {
      hide RunPorts, RunUdp, RunTcp, Udp, Tcp;
      if activeDiscovery.None? { return PortIgnored; }
      PortSnoc(reports, activeDiscovery.value, ip, port);
      reports := reports + [Report(ip, port)];
      if port == 0 || ip in activeDiscovery.value.reporters { return PortIgnored; }
      outcome := CountReport(ip, port, observedAt);
    }

    /** The rest of `record_external_port_candidate`, for a usable report by a new reporter. */
    method CountReport(ip: Ip, port: Port, observedAt: Time) returns (outcome: PortOutcome)
      requires activeDiscovery.Some? && port != 0 && ip !in activeDiscovery.value.reporters
      modifies `lastPortProbeCompletedAt, `lastReportedExternalPort, `lastHelperIp, `lastError,
               `discoveredPort, `activeDiscovery
      ensures (activeDiscovery, outcome) == RecordPort(old(activeDiscovery), ip, port)
      ensures lastHelperIp == Some(ip) && lastReportedExternalPort == Some(port)
      ensures outcome == PortRecorded ==>
                && lastPortProbeCompletedAt == old(lastPortProbeCompletedAt) && lastError == old(lastError)
                && discoveredPort == old(discoveredPort)
      ensures outcome.PortResolved? ==>
                && lastPortProbeCompletedAt == Some(observedAt) && lastError == None
                && discoveredPort == Some(port)
      ensures outcome.PortUnreliable? ==>
                && lastPortProbeCompletedAt == Some(observedAt) && lastError == Some(InconsistentPorts)
                && discoveredPort == None
    {
      var round := activeDiscovery.value.(reporters := activeDiscovery.value.reporters + {ip});
      lastHelperIp := Some(ip);
      lastReportedExternalPort := Some(port);
      if port in round.ports {
        discoveredPort := Some(port);
        lastPortProbeCompletedAt := Some(observedAt);
        lastError := None;
        activeDiscovery := None;
        return PortResolved(port);
      }
      round := round.(ports := round.ports + [port]);
      if |round.reporters| >= EXTERNAL_PORT_DISCOVERY_REPORTERS {
        discoveredPort := None;
        lastPortProbeCompletedAt := Some(observedAt);
        lastError := Some(InconsistentPorts);
        activeDiscovery := None;
        return PortUnreliable;
      }
      activeDiscovery := Some(round);
      return PortRecorded;
    }

    method FinishExternalPortDiscovery(completedAt: Time)
      requires Valid()
      modifies `lastPortProbeCompletedAt, `lastError, `activeDiscovery
      ensures Valid() && activeDiscovery == None
      ensures old(activeDiscovery).None? ==>
                lastPortProbeCompletedAt == old(lastPortProbeCompletedAt) && lastError == old(lastError)
      ensures old(activeDiscovery).Some? ==>
                && lastPortProbeCompletedAt == Some(completedAt)
                && lastError == Some(DiscoveryTimedOut)
    {
      if activeDiscovery.None? { return; }
      lastPortProbeCompletedAt := Some(completedAt);
      if discoveredPort.None? { lastError := Some(DiscoveryTimedOut); }
      activeDiscovery := None;
    }

    /** The port advertised to helpers is the one two of the round's first three reporters named, else 0. */
    method ExternalUdpPortForRequest() returns (port: Port)
      requires Valid()
      ensures port != 0 ==> NamedTwice(FirstReports(reports), port)
      ensures port == 0 ==> forall p | p != 0 :: !NamedTwice(FirstReports(reports), p)
    {
      forall p ensures RunPorts(reports) == Resolved(p) <==> NamedTwice(FirstReports(reports), p) {
        PortVerdictByHistory(reports, p);
      }
      if discoveredPort == Some(0) { NeverNamesZero(reports); }
      port := if discoveredPort.Some? then discoveredPort.value else 0;
    }

    method RefreshTcpRecheck(firewalled: bool, startedAt: Time)
      requires Valid()
      modifies `tcpRecheckActive, `lastTcpCheckStartedAt, `activeTcpRound, `tcpLog
      ensures Valid() && tcpLog == old(tcpLog) + [Refresh(firewalled)]
      ensures tcpRecheckActive == firewalled
      ensures lastTcpCheckStartedAt == (if firewalled && old(activeTcpRound).None? then Some(startedAt)
                                        else old(lastTcpCheckStartedAt))
    {
      hide RunPorts, RunUdp, RunTcp, RunLedger, PortsFollowReports;
      TcpRunKeeps(tcpLog);
      TcpSnoc(tcpLog, Refresh(firewalled));
      tcpLog := tcpLog + [Refresh(firewalled)];
      if firewalled {
        if activeTcpRound.None? {
          tcpRecheckActive := true;
          lastTcpCheckStartedAt := Some(startedAt);
          activeTcpRound := Some(TcpRound({}, 0));
        }
        return;
      }
      tcpRecheckActive := false;
      activeTcpRound := None;
    }

    method TryBeginTcpFirewallProbe(ip: Ip, startedAt: Time) returns (reserved: bool)
      requires Valid()
      modifies `tcpRecheckActive, `lastTcpCheckStartedAt, `activeTcpRound, `tcpLog
      ensures Valid() && tcpLog == old(tcpLog) + [Begin(ip)]
      ensures (Tcp(), reserved) == BeginProbe(old(Tcp()), ip)
      ensures lastTcpCheckStartedAt == (if reserved then Some(startedAt) else old(lastTcpCheckStartedAt))
    {
      hide RunPorts, RunUdp, RunTcp, PortsFollowReports;
      TcpSnoc(tcpLog, Begin(ip));
      tcpLog := tcpLog + [Begin(ip)];
      if activeTcpRound.None? { return false; }
      var round := activeTcpRound.value;
      if round.completed >= TCP_FIREWALL_RECHECK_LIMIT || |round.helpers| >= TCP_FIREWALL_RECHECK_LIMIT
         || ip in round.helpers { return false; }
      tcpRecheckActive := true;
      lastTcpCheckStartedAt := Some(startedAt);
      activeTcpRound := Some(round.(helpers := round.helpers + {ip}));
      return true;
    }

    method RecordTcpFirewallProbeFailed(ip: Ip, error: string)
      requires Valid()
      modifies `activeTcpRound, `lastHelperIp, `lastError, `tcpLog
      ensures Valid() && tcpLog == old(tcpLog) + [Fail(ip)]
      ensures Tcp() == ProbeFailed(old(Tcp()), ip)
      ensures lastHelperIp == Some(ip) && lastError == Some(Reported(error))
    {
      hide RunPorts, RunUdp, RunTcp, PortsFollowReports;
      TcpSnoc(tcpLog, Fail(ip));
      tcpLog := tcpLog + [Fail(ip)];
      if activeTcpRound.Some? {
        activeTcpRound := Some(activeTcpRound.value.(helpers := activeTcpRound.value.helpers - {ip}));
      }
      lastHelperIp := Some(ip);
      lastError := Some(Reported(error));
    }

    method RecordFirewalledResponse(ip: Ip, reportedIp: Ip, observedAt: Time) returns (outcome: TcpOutcome)
      requires Valid()
      modifies `activeTcpRound, `tcpRecheckActive, `lastHelperIp, `lastReportedExternalIp,
               `lastTcpCheckCompletedAt, `lastError, `tcpLog
      ensures Valid() && tcpLog == old(tcpLog) + [Reply(ip)]
      ensures (Tcp(), outcome) == FirewalledResponse(old(Tcp()), ip)
      ensures outcome.TcpIgnored? ==>
                && lastHelperIp == old(lastHelperIp) && lastReportedExternalIp == old(lastReportedExternalIp)
                && lastTcpCheckCompletedAt == old(lastTcpCheckCompletedAt) && lastError == old(lastError)
      ensures !outcome.TcpIgnored? ==>
                && lastHelperIp == Some(ip) && lastReportedExternalIp == Some(reportedIp)
                && lastTcpCheckCompletedAt == Some(observedAt) && lastError == None
    {
      hide RunPorts, RunUdp, RunTcp, PortsFollowReports;
      TcpSnoc(tcpLog, Reply(ip));
      tcpLog := tcpLog + [Reply(ip)];
      if activeTcpRound.None? || ip !in activeTcpRound.value.helpers { return TcpIgnored; }
      outcome := CountReply(ip, reportedIp, observedAt);
    }

    /** The rest of `record_firewalled_response`, for a helper with a reservation. */
    method CountReply(ip: Ip, reportedIp: Ip, observedAt: Time) returns (outcome: TcpOutcome)
      requires activeTcpRound.Some? && ip in activeTcpRound.value.helpers
      modifies `activeTcpRound, `tcpRecheckActive, `lastHelperIp, `lastReportedExternalIp,
               `lastTcpCheckCompletedAt, `lastError
      ensures (Tcp(), outcome) == FirewalledResponse(old(Tcp()), ip)
      ensures lastHelperIp == Some(ip) && lastReportedExternalIp == Some(reportedIp)
      ensures lastTcpCheckCompletedAt == Some(observedAt) && lastError == None
    {
      var round := TcpRound(activeTcpRound.value.helpers - {ip}, activeTcpRound.value.completed + 1);
      tcpRecheckActive := round.completed < TCP_FIREWALL_RECHECK_LIMIT;
      lastHelperIp := Some(ip);
      lastReportedExternalIp := Some(reportedIp);
      lastTcpCheckCompletedAt := Some(observedAt);
      lastError := None;
      if round.completed >= TCP_FIREWALL_RECHECK_LIMIT {
        activeTcpRound := None;
        return TcpCompleted;
      }
      activeTcpRound := Some(round);
      return TcpRecorded;
    }

    method BeginUdpCheck(helpers: seq<Ip>, ports: seq<Port>, startedAt: Time) returns (started: bool)
      requires Valid()
      modifies `activeRound, `lastUdpCheckStartedAt, `lastError, `udpLog
      ensures Valid() && udpLog == old(udpLog) + [BeginEvent(helpers, ports, startedAt)]
      ensures (Udp(), started) == BeginUdp(old(Udp()), helpers, ports, startedAt)
      ensures lastUdpCheckStartedAt == (if started then Some(startedAt) else old(lastUdpCheckStartedAt))
      ensures lastError == (if started then None
                            else if helpers == [] then Some(NoHelpers)
                            else Some(NoExpectedPorts))
    {
      hide RunPorts, RunUdp, RunTcp, PortsFollowReports;
      UdpSnoc(udpLog, BeginEvent(helpers, ports, startedAt));
      udpLog := udpLog + [BeginEvent(helpers, ports, startedAt)];
      if helpers == [] {
        lastError := Some(NoHelpers);
        return false;
      }
      var expected := Usable(ports);
      if expected == {} {
        lastError := Some(NoExpectedPorts);
        return false;
      }
      lastUdpCheckStartedAt := Some(startedAt);
      lastError := None;
      activeRound := Some(UdpRound(startedAt, expected, AllPending(helpers)));
      return true;
    }

    method RecordHelperRequestFailed(ip: Ip, error: string)
      requires Valid()
      modifies `activeRound, `lastHelperIp, `lastError, `udpLog
      ensures Valid() && udpLog == old(udpLog) + [FailEvent(ip)]
      ensures Udp() == HelperRequestFailed(old(Udp()), ip)
      ensures if old(activeRound).Some? && ip in old(activeRound).value.outcomes
              then lastHelperIp == Some(ip) && lastError == Some(Reported(error))
              else lastHelperIp == old(lastHelperIp) && lastError == old(lastError)
    {
      hide RunPorts, RunUdp, RunTcp, PortsFollowReports;
      UdpSnoc(udpLog, FailEvent(ip));
      udpLog := udpLog + [FailEvent(ip)];
      if activeRound.Some? && ip in activeRound.value.outcomes {
        activeRound := Some(activeRound.value.(outcomes := activeRound.value.outcomes[ip := RequestFailed]));
        lastHelperIp := Some(ip);
        lastError := Some(Reported(error));
      }
    }

    /** `finalize_round`; callers have an active round. */
    method FinalizeRound(open: bool, completedAt: Time) returns (summary: Summary)
      requires activeRound.Some?
      modifies `activeRound, `udpOpen, `udpVerified, `lastUdpCheckSucceededAt, `lastUdpCheckFailedAt
      ensures Udp() == UdpState(None, open, true)
      ensures summary == Summarize(old(activeRound).value, open, completedAt)
      ensures lastUdpCheckSucceededAt == (if open then Some(completedAt) else old(lastUdpCheckSucceededAt))
      ensures lastUdpCheckFailedAt == (if open then old(lastUdpCheckFailedAt) else Some(completedAt))
    {
      summary := Summarize(activeRound.value, open, completedAt);
      activeRound := None;
      udpOpen := open;
      udpVerified := true;
      if open { lastUdpCheckSucceededAt := Some(completedAt); } else { lastUdpCheckFailedAt := Some(completedAt); }
    }

    method RecordFirewallUdpPacket(ip: Ip, errorCode: nat, port: Port, observedAt: Time) returns (outcome: UdpOutcome)
      requires Valid()
      modifies `activeRound, `udpOpen, `udpVerified, `lastUdpCheckSucceededAt, `lastUdpCheckFailedAt,
               `lastHelperIp, `lastReportedPort, `lastError, `udpLog
      ensures Valid() && udpLog == old(udpLog) + [PacketEvent(ip, errorCode, port, observedAt)]
      ensures (Udp(), outcome) == UdpPacket(old(Udp()), ip, errorCode, port, observedAt)
      ensures outcome.Open? ==> outcome.summary.succeeded == 1
      ensures outcome.UdpIgnored? ==> lastHelperIp == old(lastHelperIp) && lastReportedPort == old(lastReportedPort)
      ensures !outcome.UdpIgnored? ==> lastHelperIp == Some(ip) && lastReportedPort == Some(port)
      ensures lastError == (if outcome.Open? then None else old(lastError))
      ensures lastUdpCheckSucceededAt == (if outcome.Open? then Some(observedAt) else old(lastUdpCheckSucceededAt))
      ensures lastUdpCheckFailedAt == old(lastUdpCheckFailedAt)
    {
      hide RunPorts, RunUdp, RunTcp, PortsFollowReports, Summarize;
      ghost var ev := PacketEvent(ip, errorCode, port, observedAt);
      OneSuccess(udpLog, ev);
      UdpSnoc(udpLog, ev);
      udpLog := udpLog + [ev];
      if activeRound.None? || ip !in activeRound.value.outcomes { return UdpIgnored; }
      outcome := MarkHelper(ip, errorCode, port, observedAt);
    }

    /** The rest of `record_firewall_udp_packet`, for a helper of the live round. */
    method MarkHelper(ip: Ip, errorCode: nat, port: Port, observedAt: Time) returns (outcome: UdpOutcome)
      requires activeRound.Some? && ip in activeRound.value.outcomes
      modifies `activeRound, `udpOpen, `udpVerified, `lastUdpCheckSucceededAt, `lastUdpCheckFailedAt,
               `lastHelperIp, `lastReportedPort, `lastError
      ensures (Udp(), outcome) == UdpPacket(old(Udp()), ip, errorCode, port, observedAt)
      ensures lastHelperIp == Some(ip) && lastReportedPort == Some(port)
      ensures lastError == (if outcome.Open? then None else old(lastError))
      ensures lastUdpCheckSucceededAt == (if outcome.Open? then Some(observedAt) else old(lastUdpCheckSucceededAt))
      ensures lastUdpCheckFailedAt == old(lastUdpCheckFailedAt)
    {
      hide Summarize;
      var round := activeRound.value;
      lastHelperIp := Some(ip);
      lastReportedPort := Some(port);
      if errorCode == 0 && port in round.expected {
        activeRound := Some(round.(outcomes := round.outcomes[ip := Succeeded]));
        var summary := FinalizeRound(true, observedAt);
        lastError := None;
        return Open(summary);
      }
      var outcome' := if errorCode == 0 then WrongPort else RemoteError;
      activeRound := Some(round.(outcomes := round.outcomes[ip := outcome']));
      return UdpRecorded;
    }

    /** After the wait expires. `FinishUdp` has all four branches of the source; by `FinishBranchesDead` the two
        that look for a success cannot be taken, so the body holds the other two. */
    method FinishUdpCheck(completedAt: Time) returns (summary: Option<Summary>)
      requires Valid()
      modifies `activeRound, `udpOpen, `udpVerified, `lastUdpCheckSucceededAt, `lastUdpCheckFailedAt,
               `lastError, `udpLog
      ensures Valid() && udpLog == old(udpLog) + [FinishEvent(completedAt)]
      ensures (Udp(), summary) == FinishUdp(old(Udp()), completedAt)
      ensures activeRound == None
      ensures summary.Some? ==> !summary.value.open && summary.value.succeeded == 0
      ensures lastUdpCheckSucceededAt == old(lastUdpCheckSucceededAt)
      ensures lastUdpCheckFailedAt == (if summary.Some? then Some(completedAt) else old(lastUdpCheckFailedAt))
      ensures lastError == (if old(activeRound).None? then old(lastError)
                            else if summary.None? then Some(AllRequestsFailed)
                            else Some(NoPositiveResult))
    {
      hide RunPorts, RunUdp, RunTcp, Summarize, PortsFollowReports;
      FinishBranchesDead(udpLog, completedAt);
      OneSuccess(udpLog, FinishEvent(completedAt));
      UdpSnoc(udpLog, FinishEvent(completedAt));
      udpLog := udpLog + [FinishEvent(completedAt)];
      if activeRound.None? { return None; }
      var outcomes := activeRound.value.outcomes;
      if forall ip :: ip in outcomes ==> outcomes[ip] == RequestFailed {
        lastError := Some(AllRequestsFailed);
        activeRound := None;
        return None;
      }
      lastError := Some(NoPositiveResult);
      var closed := FinalizeRound(false, completedAt);
      return Some(closed);
    }
  }

  lemma {:induction false} FirstReportsUsable(reports: seq<Report>)
    ensures forall r :: r in FirstReports(reports) ==> r.port != 0
  {
    if reports != [] { FirstReportsUsable(reports[..|reports| - 1]); }
  }

  lemma NeverNamesZero(reports: seq<Report>)
    ensures !NamedTwice(FirstReports(reports), 0)
  {
    FirstReportsUsable(reports);
  }
}
