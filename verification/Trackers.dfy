/** Inbound flood tracking: the first half of `crates/overlord-kad-net/src/tracker.rs`. */
module PacketTrackers {
  import opened Common

  type Ip(==, !new) = nat

  datatype Bucket =
    | BootstrapReq | HelloReq | FindNodeReq | SearchReq | PublishKeyReq | PublishSourceReq | PublishNotesReq
    | FirewalledReq | FindBuddyReq | CallbackReq | PingReq | SearchRes | Default

  datatype Key = Key(ip: Ip, bucket: Bucket)

  datatype Limit = Limit(maxPackets: u32, window: nat)

  datatype Config = Config(maxPerWindow: u32, searchResMax: u32, window: nat, requestWindow: nat)

  datatype Action = Allow | Drop | MassiveDrop

  /** Packets seen in the current window, and when that window began. */
  datatype Window = Window(packets: nat, start: int)

  type Counts = map<Key, Window>

  function LimitFor(cfg: Config, b: Bucket): Limit
  {
    match b
    case BootstrapReq => Limit(2, cfg.requestWindow)
    case HelloReq => Limit(3, cfg.requestWindow)
    case FindNodeReq => Limit(10, cfg.requestWindow)
    case SearchReq => Limit(3, cfg.requestWindow)
    case PublishKeyReq => Limit(4, cfg.requestWindow)
    case PublishSourceReq => Limit(3, cfg.requestWindow)
    case PublishNotesReq => Limit(2, cfg.requestWindow)
    case FirewalledReq => Limit(2, cfg.requestWindow)
    case FindBuddyReq => Limit(2, cfg.requestWindow)
    case CallbackReq => Limit(1, cfg.requestWindow)
    case PingReq => Limit(2, cfg.requestWindow)
    case SearchRes => Limit(cfg.searchResMax, cfg.window)
    case Default => Limit(cfg.maxPerWindow, cfg.window)
  }

  function Decide(limit: Limit, packets: nat): Action
  {
    if packets > Min(4 * limit.maxPackets, U32_MAX) then MassiveDrop
    else if packets > limit.maxPackets then Drop
    else Allow
  }

  /** The window a packet arriving at `now` is counted in, before counting it. */
  function CurrentWindow(counts: Counts, key: Key, limit: Limit, now: int): Window
  {
    if key !in counts || Elapsed(now, counts[key].start) >= limit.window then Window(0, now) else counts[key]
  }

  function RecordAndCheck(cfg: Config, counts: Counts, key: Key, now: int): (Counts, Action)
  {
    var limit := LimitFor(cfg, key.bucket);
    var w := CurrentWindow(counts, key, limit, now);
    (counts[key := w.(packets := w.packets + 1)], Decide(limit, w.packets + 1))
  }

  function Prune(cfg: Config, counts: Counts, now: int): Counts
  {
    map key | key in counts && Elapsed(now, counts[key].start) < 2 * LimitFor(cfg, key.bucket).window :: counts[key]
  }

  // ---- runs ----------------------------------------------------------------------------------------

  datatype Call = Packet(key: Key, at: int) | PruneCall(at: int)

  function Apply(cfg: Config, counts: Counts, call: Call): Counts
  {
    match call
    case Packet(key, at) => RecordAndCheck(cfg, counts, key, at).0
    case PruneCall(at) => Prune(cfg, counts, at)
  }

  function Run(cfg: Config, calls: seq<Call>): Counts
  {
    if calls == [] then map[] else Apply(cfg, Run(cfg, calls[..|calls| - 1]), calls[|calls| - 1])
  }

  /** The decision taken for every packet, in order. */
  function Decisions(cfg: Config, calls: seq<Call>): seq<Action>
  {
    if calls == [] then []
    else
      var n := |calls| - 1;
      var earlier := Decisions(cfg, calls[..n]);
      match calls[n]
      case Packet(key, at) => earlier + [RecordAndCheck(cfg, Run(cfg, calls[..n]), key, at).1]
      case PruneCall(_) => earlier
  }

  function WithoutPrunes(calls: seq<Call>): seq<Call>
  {
    if calls == [] then []
    else
      var n := |calls| - 1;
      WithoutPrunes(calls[..n]) + (if calls[n].Packet? then [calls[n]] else [])
  }

  ghost predicate Ordered(calls: seq<Call>)
  {
    forall i, j :: 0 <= i < j < |calls| ==> calls[i].at <= calls[j].at
  }

  /** `pruned` is `full` without some windows that had already expired at `now`. */
  ghost predicate OnlyExpiredMissing(cfg: Config, pruned: Counts, full: Counts, now: int)
  {
    && (forall k :: k in pruned ==> k in full && pruned[k] == full[k])
    && (forall k :: k in full && k !in pruned ==> Elapsed(now, full[k].start) >= LimitFor(cfg, k.bucket).window)
  }

  lemma PacketPreserves(cfg: Config, pruned: Counts, full: Counts, then_: int, key: Key, now: int)
    requires OnlyExpiredMissing(cfg, pruned, full, then_) && then_ <= now
    ensures RecordAndCheck(cfg, pruned, key, now).1 == RecordAndCheck(cfg, full, key, now).1
    ensures OnlyExpiredMissing(cfg, RecordAndCheck(cfg, pruned, key, now).0, RecordAndCheck(cfg, full, key, now).0, now)
  {
    assert CurrentWindow(pruned, key, LimitFor(cfg, key.bucket), now)
        == CurrentWindow(full, key, LimitFor(cfg, key.bucket), now);
  }

  lemma PrunePreserves(cfg: Config, pruned: Counts, full: Counts, then_: int, now: int)
    requires OnlyExpiredMissing(cfg, pruned, full, then_) && then_ <= now
    ensures OnlyExpiredMissing(cfg, Prune(cfg, pruned, now), full, now)
  {
  }

  /** Pruning is invisible: dropping every prune call from a run changes no decision. */
  lemma {:induction false} PruneIsInvisible(cfg: Config, calls: seq<Call>)
    requires Ordered(calls)
    ensures Decisions(cfg, calls) == Decisions(cfg, WithoutPrunes(calls))
    ensures calls != [] ==>
              OnlyExpiredMissing(cfg, Run(cfg, calls), Run(cfg, WithoutPrunes(calls)), calls[|calls| - 1].at)
  {
    if calls != [] {
      var n := |calls| - 1;
      PruneIsInvisible(cfg, calls[..n]);
      var bare := WithoutPrunes(calls[..n]);
      var now := calls[n].at;
      var then_ := if n == 0 then now else calls[n - 1].at;
      match calls[n]
      case Packet(key, at) =>
        PacketPreserves(cfg, Run(cfg, calls[..n]), Run(cfg, bare), then_, key, at);
        assert (bare + [calls[n]])[..|bare|] == bare;
      case PruneCall(at) =>
        PrunePreserves(cfg, Run(cfg, calls[..n]), Run(cfg, bare), then_, at);
        assert bare + [] == bare;
    }
  }

  // ---- how much one key can get through --------------------------------------------------------------

  /** Packets of `key` allowed at times in `[from, from + window)`. */
  function AllowedIn(cfg: Config, calls: seq<Call>, key: Key, from: int): nat
  {
    if calls == [] then 0
    else
      var n := |calls| - 1;
      AllowedIn(cfg, calls[..n], key, from)
      + (if calls[n].Packet? && calls[n].key == key
            && from <= calls[n].at < from + LimitFor(cfg, key.bucket).window
            && RecordAndCheck(cfg, Run(cfg, calls[..n]), key, calls[n].at).1 == Allow then 1 else 0)
  }

  /** While the span is open: a window begun before it has let through all that counts so far; one begun
      inside it shares the span with at most one earlier window. */
  ghost predicate SpanBudget(counts: Counts, key: Key, limit: Limit, from: int, allowed: nat)
  {
    if key !in counts then allowed <= limit.maxPackets
    else
      var got := Min(counts[key].packets, limit.maxPackets);
      if counts[key].start < from then allowed <= got else allowed <= limit.maxPackets + got
  }

  lemma PacketBudget(cfg: Config, counts: Counts, key: Key, from: int, allowed: nat, now: int)
    requires var limit := LimitFor(cfg, key.bucket);
             SpanBudget(counts, key, limit, from, allowed) && now < from + limit.window
             && (key in counts ==> counts[key].start <= now) && (now < from ==> allowed == 0)
    ensures var (counts', action) := RecordAndCheck(cfg, counts, key, now);
            SpanBudget(counts', key, LimitFor(cfg, key.bucket), from,
                       allowed + (if from <= now && action == Allow then 1 else 0))
  {
  }

  lemma OtherPacketBudget(cfg: Config, counts: Counts, key: Key, other: Key, from: int, allowed: nat, now: int)
    requires SpanBudget(counts, key, LimitFor(cfg, key.bucket), from, allowed) && other != key
    ensures SpanBudget(RecordAndCheck(cfg, counts, other, now).0, key, LimitFor(cfg, key.bucket), from, allowed)
  {
  }

  lemma PruneBudget(cfg: Config, counts: Counts, key: Key, from: int, allowed: nat, now: int)
    requires var limit := LimitFor(cfg, key.bucket);
             SpanBudget(counts, key, limit, from, allowed) && now < from + limit.window
             && (key in counts ==> counts[key].start <= now)
    ensures SpanBudget(Prune(cfg, counts, now), key, LimitFor(cfg, key.bucket), from, allowed)
  {
  }

  lemma {:induction false} WindowsInPast(cfg: Config, calls: seq<Call>, key: Key, now: int)
    requires forall i :: 0 <= i < |calls| ==> calls[i].at <= now
    ensures key in Run(cfg, calls) ==> Run(cfg, calls)[key].start <= now
  {
    if calls != [] { WindowsInPast(cfg, calls[..|calls| - 1], key, now); }
  }

  lemma {:induction false} NothingBefore(cfg: Config, calls: seq<Call>, key: Key, from: int)
    requires forall i :: 0 <= i < |calls| ==> calls[i].at < from
    ensures AllowedIn(cfg, calls, key, from) == 0
  {
    if calls != [] { NothingBefore(cfg, calls[..|calls| - 1], key, from); }
  }

  lemma {:induction false} BudgetHolds(cfg: Config, calls: seq<Call>, key: Key, from: int)
    requires Ordered(calls)
    requires calls != [] ==> calls[|calls| - 1].at < from + LimitFor(cfg, key.bucket).window
    ensures SpanBudget(Run(cfg, calls), key, LimitFor(cfg, key.bucket), from, AllowedIn(cfg, calls, key, from))
  {
    hide SpanBudget, RecordAndCheck, Prune;
    if calls == [] {
      EmptyBudget(key, LimitFor(cfg, key.bucket), from);
    } else {
      var n := |calls| - 1;
      var now := calls[n].at;
      BudgetHolds(cfg, calls[..n], key, from);
      var counts, allowed := Run(cfg, calls[..n]), AllowedIn(cfg, calls[..n], key, from);
      WindowsInPast(cfg, calls[..n], key, now);
      if now < from { NothingBefore(cfg, calls[..n], key, from); }
      match calls[n]
      case Packet(k, at) =>
        if k == key { PacketBudget(cfg, counts, key, from, allowed, at); }
        else { OtherPacketBudget(cfg, counts, key, k, from, allowed, at); }
      case PruneCall(at) => PruneBudget(cfg, counts, key, from, allowed, at);
    }
  }

  lemma EmptyBudget(key: Key, limit: Limit, from: int)
    ensures SpanBudget(map[], key, limit, from, 0)
  {
  }

  /** In any half-open span of one window length a key gets at most twice its budget through, prunes or not. */
  lemma {:induction false} SpanBound(cfg: Config, calls: seq<Call>, key: Key, from: int)
    requires Ordered(calls)
    ensures AllowedIn(cfg, calls, key, from) <= 2 * LimitFor(cfg, key.bucket).maxPackets
  {
    if calls != [] {
      var n := |calls| - 1;
      if calls[n].at < from + LimitFor(cfg, key.bucket).window {
        BudgetHolds(cfg, calls, key, from);
      } else {
        SpanBound(cfg, calls[..n], key, from);
      }
    }
  }

  /** Packets of `key` that arrived later than `after`. */
  function Arrivals(calls: seq<Call>, key: Key, after: int): nat
  {
    if calls == [] then 0
    else
      var n := |calls| - 1;
      var counted := calls[n].Packet? && calls[n].key == key && calls[n].at > after;
      Arrivals(calls[..n], key, after) + (if counted then 1 else 0)
  }

  /** A counter never exceeds the packets that arrived since its window began. */
  lemma {:induction false} CountedArrived(cfg: Config, calls: seq<Call>, key: Key, after: int)
    requires Ordered(calls) && key in Run(cfg, calls) && after < Run(cfg, calls)[key].start
    ensures Run(cfg, calls)[key].packets <= Arrivals(calls, key, after)
  {
    var n := |calls| - 1;
    var (front, call) := (calls[..n], calls[n]);
    WindowsInPast(cfg, front, key, call.at);
    if key in Run(cfg, front) && after < Run(cfg, front)[key].start { CountedArrived(cfg, front, key, after); }
  }

  /** The partner of `SpanBound`: a packet is only dropped if its key already sent its whole budget within the
      last window length. */
  lemma PoliteNeverDropped(cfg: Config, calls: seq<Call>, key: Key, now: int)
    requires Ordered(calls) && forall i :: 0 <= i < |calls| ==> calls[i].at <= now
    requires RecordAndCheck(cfg, Run(cfg, calls), key, now).1 != Allow
    ensures var limit := LimitFor(cfg, key.bucket);
            Arrivals(calls, key, now - limit.window) >= limit.maxPackets
  {
    WindowsInPast(cfg, calls, key, now);
    var limit := LimitFor(cfg, key.bucket);
    if key in Run(cfg, calls) && now - limit.window < Run(cfg, calls)[key].start {
      CountedArrived(cfg, calls, key, now - limit.window);
    }
  }

  /** The tracker with its map updated in place; `calls` is the run that led to it. */
  class PacketTracker {
    const cfg: Config
    var counts: Counts
    ghost var calls: seq<Call>

    ghost predicate Valid()
      reads this
    {
      counts == Run(cfg, calls)
    }

    constructor (cfg: Config)
      ensures Valid() && this.cfg == cfg && calls == []
    {
      this.cfg := cfg;
      counts, calls := map[], [];
    }

    /** With times that do not decrease, a drop means that the key has just used up its budget. */
    method RecordAndCheckPacket(key: Key, now: int) returns (action: Action, observed: nat, limit: Limit)
      requires Valid()
      modifies this
      ensures Valid() && calls == old(calls) + [Packet(key, now)]
      ensures (counts, action) == RecordAndCheck(cfg, old(counts), key, now)
      ensures observed == counts[key].packets && limit == LimitFor(cfg, key.bucket)
      ensures Ordered(calls) && action != Allow ==> Arrivals(old(calls), key, now - limit.window) >= limit.maxPackets
    {
      hide Run, Ordered, Arrivals;
      limit := LimitFor(cfg, key.bucket);
      if key !in counts { counts := counts[key := Window(0, now)]; }
      if Elapsed(now, counts[key].start) >= limit.window { counts := counts[key := Window(0, now)]; }
      counts := counts[key := counts[key].(packets := counts[key].packets + 1)];
      observed := counts[key].packets;
      action := Decide(limit, observed);
      assert counts == RecordAndCheck(cfg, old(counts), key, now).0;
      RunSnoc(cfg, calls, Packet(key, now));
      if Ordered(calls + [Packet(key, now)]) && action != Allow {
        OrderedSnoc(calls, Packet(key, now));
        PoliteNeverDropped(cfg, calls, key, now);
      }
      calls := calls + [Packet(key, now)];
    }

    method PruneStale(now: int)
      requires Valid()
      modifies this
      ensures Valid() && calls == old(calls) + [PruneCall(now)]
      ensures counts == Prune(cfg, old(counts), now)
    {
      RunSnoc(cfg, calls, PruneCall(now));
      calls := calls + [PruneCall(now)];
      counts := map key | key in counts && Elapsed(now, counts[key].start) < 2 * LimitFor(cfg, key.bucket).window
                    :: counts[key];
    }
  }

  lemma RunSnoc(cfg: Config, calls: seq<Call>, call: Call)
    ensures Run(cfg, calls + [call]) == Apply(cfg, Run(cfg, calls), call)
  {
    assert (calls + [call])[..|calls|] == calls;
  }

  lemma OrderedSnoc(calls: seq<Call>, call: Call)
    requires Ordered(calls + [call])
    ensures Ordered(calls) && forall i :: 0 <= i < |calls| ==> calls[i].at <= call.at
  {
    var all := calls + [call];
    forall i | 0 <= i < |calls| ensures calls[i].at <= call.at { assert all[i].at <= all[|calls|].at; }
    forall i, j | 0 <= i < j < |calls| ensures calls[i].at <= calls[j].at { assert all[i].at <= all[j].at; }
  }
}

/** Outbound request tracking: the second half of the same file. */
module OutboundTrackers {
  import opened Common

  type Ip(==, !new) = nat

  datatype Request = Request(at: int, ip: Ip, opcode: byte)

  const TRACKED: set<byte> :=
    {0x01, 0x11, 0x19, 0x21, 0x35, 0x43, 0x44, 0x45, 0x51, 0x52, 0x60}

  predicate Live(r: Request, now: int, window: nat) { Elapsed(now, r.at) < window }

  /** Drops expired requests from the back of the deque, stopping at the first live one. */
  function PruneBack(entries: seq<Request>, now: int, window: nat): seq<Request>
  {
    if entries == [] || Live(entries[|entries| - 1], now, window) then entries
    else PruneBack(entries[..|entries| - 1], now, window)
  }

  function FirstMatch(entries: seq<Request>, ip: Ip, opcode: byte): (r: nat)
    ensures r <= |entries|
    ensures r < |entries| ==> entries[r].ip == ip && entries[r].opcode == opcode
    ensures forall i :: 0 <= i < r ==> !(entries[i].ip == ip && entries[i].opcode == opcode)
  {
    if entries == [] || (entries[0].ip == ip && entries[0].opcode == opcode) then 0
    else 1 + FirstMatch(entries[1..], ip, opcode)
  }

  function Record(entries: seq<Request>, ip: Ip, opcode: byte, now: int, window: nat): seq<Request>
  {
    var live := PruneBack(entries, now, window);
    if opcode in TRACKED then [Request(now, ip, opcode)] + live else live
  }

  function Contains(entries: seq<Request>, ip: Ip, opcode: byte, remove: bool, now: int, window: nat)
    : (seq<Request>, bool)
  {
    var live := PruneBack(entries, now, window);
    var i := FirstMatch(live, ip, opcode);
    if i >= |live| then (live, false) else (if remove then RemoveAt(live, i) else live, true)
  }

  // ---- the simple log ----------------------------------------------------------------------------------

  datatype Call =
    | RecordCall(ip: Ip, opcode: byte, at: int)
    | ContainsCall(ip: Ip, opcode: byte, remove: bool, at: int)

  function Apply(entries: seq<Request>, call: Call, window: nat): seq<Request>
  {
    match call
    case RecordCall(ip, opcode, at) => Record(entries, ip, opcode, at, window)
    case ContainsCall(ip, opcode, remove, at) => Contains(entries, ip, opcode, remove, at, window).0
  }

  function Run(calls: seq<Call>, window: nat): seq<Request>
  {
    if calls == [] then [] else Apply(Run(calls[..|calls| - 1], window), calls[|calls| - 1], window)
  }

  function Answer(calls: seq<Call>, window: nat, ip: Ip, opcode: byte, now: int): bool
  {
    Contains(Run(calls, window), ip, opcode, false, now, window).1
  }

  /** Every tracked request not yet consumed, newest first, never pruned. */
  function Log(calls: seq<Call>, window: nat): seq<Request>
  {
    if calls == [] then []
    else
      var n := |calls| - 1;
      var log := Log(calls[..n], window);
      match calls[n]
      case RecordCall(ip, opcode, at) => if opcode in TRACKED then [Request(at, ip, opcode)] + log else log
      case ContainsCall(ip, opcode, remove, at) =>
        var i := FirstMatch(log, ip, opcode);
        if remove && i < |log| && Live(log[i], at, window) then RemoveAt(log, i) else log
  }

  ghost predicate NewestFirst(s: seq<Request>)
  {
    forall i, j :: 0 <= i < j < |s| ==> s[j].at <= s[i].at
  }

  ghost predicate Ordered(calls: seq<Call>)
  {
    forall i, j :: 0 <= i < j < |calls| ==> calls[i].at <= calls[j].at
  }

  /** The deque holds a prefix of the log, and everything beyond it had expired by `now`. */
  ghost predicate Mirrors(entries: seq<Request>, log: seq<Request>, now: int, window: nat)
  {
    && NewestFirst(log) && entries <= log
    && (forall i :: |entries| <= i < |log| ==> !Live(log[i], now, window))
    && (forall i :: 0 <= i < |log| ==> log[i].at <= now)
  }

  lemma {:induction false} PruneMirrors(entries: seq<Request>, log: seq<Request>, then_: int, now: int, window: nat)
    requires Mirrors(entries, log, then_, window) && then_ <= now
    ensures Mirrors(PruneBack(entries, now, window), log, now, window)
    ensures forall i :: 0 <= i < |PruneBack(entries, now, window)| ==> Live(log[i], now, window)
  {
    if entries == [] {
    } else {
      var n := |entries| - 1;
      assert entries[n] == log[n];
      if Live(entries[n], now, window) {
        forall i | 0 <= i < |entries| ensures Live(log[i], now, window) {
          if i < n { assert log[n].at <= log[i].at; }
        }
      } else {
        PruneMirrorsStep(entries, log, then_, now, window);
        PruneMirrors(entries[..n], log, now, now, window);
      }
    }
  }

  lemma PruneMirrorsStep(entries: seq<Request>, log: seq<Request>, then_: int, now: int, window: nat)
    requires Mirrors(entries, log, then_, window) && then_ <= now && entries != []
    requires !Live(entries[|entries| - 1], now, window)
    ensures Mirrors(entries[..|entries| - 1], log, now, window)
  {
  }

  lemma MatchInPrefix(live: seq<Request>, log: seq<Request>, ip: Ip, opcode: byte)
    requires live <= log
    ensures var (i, j) := (FirstMatch(live, ip, opcode), FirstMatch(log, ip, opcode));
            if i < |live| then j == i else j >= |live|
  {
    var i, j := FirstMatch(live, ip, opcode), FirstMatch(log, ip, opcode);
    if j < |live| { assert live[j] == log[j]; }
    if i < |live| { assert live[i] == log[i]; }
  }

  lemma RecordMirrors(live: seq<Request>, log: seq<Request>, r: Request, window: nat)
    requires Mirrors(live, log, r.at, window)
    ensures Mirrors([r] + live, [r] + log, r.at, window)
  {
    assert forall i :: 0 < i < |[r] + log| ==> ([r] + log)[i] == log[i - 1];
  }

  lemma ConsumeMirrors(live: seq<Request>, log: seq<Request>, i: nat, now: int, window: nat)
    requires Mirrors(live, log, now, window) && i < |live|
    ensures Mirrors(RemoveAt(live, i), RemoveAt(log, i), now, window)
  {
    var (a, b) := (RemoveAt(live, i), RemoveAt(log, i));
    assert forall k :: 0 <= k < |b| ==> b[k] == log[if k < i then k else k + 1];
    assert forall k :: 0 <= k < |a| ==> a[k] == live[if k < i then k else k + 1];
  }

  /** Although pruning only looks at the back, the deque is always the log's unexpired part. */
  lemma {:induction false} RunMirrors(calls: seq<Call>, window: nat)
    requires Ordered(calls)
    ensures calls == [] ==> Run(calls, window) == Log(calls, window) == []
    ensures calls != [] ==> Mirrors(Run(calls, window), Log(calls, window), calls[|calls| - 1].at, window)
  {
    if calls != [] {
      var n := |calls| - 1;
      RunMirrors(calls[..n], window);
      var (entries, log) := (Run(calls[..n], window), Log(calls[..n], window));
      var now := calls[n].at;
      var then_ := if n == 0 then now else calls[n - 1].at;
      PruneMirrors(entries, log, then_, now, window);
      var live := PruneBack(entries, now, window);
      match calls[n]
      case RecordCall(ip, opcode, at) => RecordMirrors(live, log, Request(at, ip, opcode), window);
      case ContainsCall(ip, opcode, remove, at) =>
        MatchInPrefix(live, log, ip, opcode);
        var i := FirstMatch(live, ip, opcode);
        if remove && i < |live| { ConsumeMirrors(live, log, i, now, window); }
    }
  }

  /** `contains` answers true exactly when a tracked, unconsumed request with that address and opcode is
      younger than the window. */
  lemma ContainsIffLogged(calls: seq<Call>, window: nat, ip: Ip, opcode: byte, now: int)
    requires Ordered(calls) && (calls != [] ==> calls[|calls| - 1].at <= now)
    ensures Answer(calls, window, ip, opcode, now) <==>
              exists r :: r in Log(calls, window) && r.ip == ip && r.opcode == opcode && Live(r, now, window)
  {
    RunMirrors(calls, window);
    var (entries, log) := (Run(calls, window), Log(calls, window));
    if calls != [] { PruneMirrors(entries, log, calls[|calls| - 1].at, now, window); }
    var live := PruneBack(entries, now, window);
    MatchInPrefix(live, log, ip, opcode);
    var i := FirstMatch(live, ip, opcode);
    if i < |live| { assert log[i] in log; }
    forall r | r in log && r.ip == ip && r.opcode == opcode && Live(r, now, window) ensures i < |live| {
      var k :| 0 <= k < |log| && log[k] == r;
      assert k < |live|;
      assert live[k] == log[k];
    }
  }

  // ---- conservation -----------------------------------------------------------------------------------------

  function CountMatching(s: seq<Request>, ip: Ip, opcode: byte): nat
  {
    if s == [] then 0 else CountMatching(s[1..], ip, opcode) + (if s[0].ip == ip && s[0].opcode == opcode then 1 else 0)
  }

  function Recorded(calls: seq<Call>, ip: Ip, opcode: byte): nat
  {
    if calls == [] then 0
    else
      var n := |calls| - 1;
      Recorded(calls[..n], ip, opcode)
      + (if calls[n].RecordCall? && calls[n].ip == ip && calls[n].opcode == opcode && opcode in TRACKED then 1 else 0)
  }

  function Consumed(calls: seq<Call>, window: nat, ip: Ip, opcode: byte): nat
  {
    if calls == [] then 0
    else
      var n := |calls| - 1;
      Consumed(calls[..n], window, ip, opcode)
      + (if calls[n].ContainsCall? && calls[n].remove && calls[n].ip == ip && calls[n].opcode == opcode
            && Contains(Run(calls[..n], window), ip, opcode, true, calls[n].at, window).1 then 1 else 0)
  }

  lemma {:induction false} CountWithout(s: seq<Request>, i: nat, ip: Ip, opcode: byte)
    requires i < |s|
    ensures CountMatching(s, ip, opcode)
            == CountMatching(RemoveAt(s, i), ip, opcode) + (if s[i].ip == ip && s[i].opcode == opcode then 1 else 0)
  {
    if i == 0 {
      assert RemoveAt(s, i) == s[1..];
    } else {
      assert RemoveAt(s, i)[1..] == RemoveAt(s[1..], i - 1);
      CountWithout(s[1..], i - 1, ip, opcode);
    }
  }

  /** Pruning only loses requests. */
  lemma {:induction false} PruneCount(entries: seq<Request>, now: int, window: nat, ip: Ip, opcode: byte)
    ensures CountMatching(PruneBack(entries, now, window), ip, opcode) <= CountMatching(entries, ip, opcode)
  {
    if entries != [] && !Live(entries[|entries| - 1], now, window) {
      var n := |entries| - 1;
      PruneCount(entries[..n], now, window, ip, opcode);
      assert RemoveAt(entries, n) == entries[..n];
      CountWithout(entries, n, ip, opcode);
    }
  }

  /** Every consuming match uses up a recorded request of its own. */
  lemma {:induction false} ConsumedBounded(calls: seq<Call>, window: nat, ip: Ip, opcode: byte)
    ensures Consumed(calls, window, ip, opcode) + CountMatching(Run(calls, window), ip, opcode)
            <= Recorded(calls, ip, opcode)
  {
    if calls != [] {
      var n := |calls| - 1;
      ConsumedBounded(calls[..n], window, ip, opcode);
      var entries := Run(calls[..n], window);
      PruneCount(entries, calls[n].at, window, ip, opcode);
      var live := PruneBack(entries, calls[n].at, window);
      match calls[n]
      case RecordCall(ip', opcode', at) =>
        if opcode' in TRACKED {
          assert ([Request(at, ip', opcode')] + live)[1..] == live;
        }
      case ContainsCall(ip', opcode', remove, at) =>
        var i := FirstMatch(live, ip', opcode');
        if i < |live| { CountWithout(live, i, ip, opcode); }
    }
  }

  lemma RunSnoc(calls: seq<Call>, call: Call, window: nat)
    ensures Run(calls + [call], window) == Apply(Run(calls, window), call, window)
  {
    assert (calls + [call])[..|calls|] == calls;
  }

  lemma OrderedSnoc(calls: seq<Call>, call: Call)
    requires Ordered(calls + [call])
    ensures Ordered(calls) && (calls != [] ==> calls[|calls| - 1].at <= call.at)
  {
    var all := calls + [call];
    if calls != [] { assert all[|calls| - 1].at <= all[|calls|].at; }
    forall i, j | 0 <= i < j < |calls| ensures calls[i].at <= calls[j].at { assert all[i].at <= all[j].at; }
  }

  /** The tracker with its deque edited in place, the newest request at the front; `calls` is the run that led
      to it, with one call for every probe of `FindAny`. */
  class OutboundRequestTracker {
    const window: nat
    var entries: seq<Request>
    ghost var calls: seq<Call>

    ghost predicate Valid()
      reads this
    {
      entries == Run(calls, window)
    }

    constructor (window: nat)
      ensures Valid() && this.window == window && calls == []
    {
      this.window := window;
      entries, calls := [], [];
    }

    method Prune(now: int)
      modifies this`entries
      ensures entries == PruneBack(old(entries), now, window)
    {
      while entries != [] && !Live(entries[|entries| - 1], now, window)
        invariant PruneBack(entries, now, window) == PruneBack(old(entries), now, window)
        decreases |entries|
      {
        entries := entries[..|entries| - 1];
      }
    }

    method RecordRequest(ip: Ip, opcode: byte, now: int)
      requires Valid()
      modifies this
      ensures Valid() && calls == old(calls) + [RecordCall(ip, opcode, now)]
      ensures entries == Record(old(entries), ip, opcode, now, window)
    {
      RunSnoc(calls, RecordCall(ip, opcode, now), window);
      calls := calls + [RecordCall(ip, opcode, now)];
      Prune(now);
      if opcode !in TRACKED { return; }
      entries := [Request(now, ip, opcode)] + entries;
    }

    /** With times that do not decrease, the answer is whether the log holds a live match. */
    method ContainsRequest(ip: Ip, opcode: byte, remove: bool, now: int) returns (found: bool)
      requires Valid()
      modifies this
      ensures Valid() && calls == old(calls) + [ContainsCall(ip, opcode, remove, now)]
      ensures (entries, found) == Contains(old(entries), ip, opcode, remove, now, window)
      ensures Ordered(calls) ==>
                (found <==> exists r :: r in Log(old(calls), window) && r.ip == ip && r.opcode == opcode
                                        && Live(r, now, window))
    {
      hide Run, Log, PruneBack;
      ghost var call := ContainsCall(ip, opcode, remove, now);
      RunSnoc(calls, call, window);
      if Ordered(calls + [call]) {
        OrderedSnoc(calls, call);
        ContainsIffLogged(calls, window, ip, opcode, now);
      }
      calls := calls + [call];
      found := Probe(ip, opcode, remove, now);
    }

    method Probe(ip: Ip, opcode: byte, remove: bool, now: int) returns (found: bool)
      modifies this`entries
      ensures (entries, found) == Contains(old(entries), ip, opcode, remove, now, window)
    {
      Prune(now);
      var index := 0;
      while index < |entries|
        invariant 0 <= index <= |entries| && entries == PruneBack(old(entries), now, window)
        invariant forall i :: 0 <= i < index ==> !(entries[i].ip == ip && entries[i].opcode == opcode)
      {
        if entries[index].ip == ip && entries[index].opcode == opcode {
          assert FirstMatch(entries, ip, opcode) == index;
          if remove { entries := RemoveAt(entries, index); }
          return true;
        }
        index := index + 1;
      }
      return false;
    }

    /** The first opcode of the list that `contains` finds, each probe at its own time. */
    method FindAny(ip: Ip, opcodes: seq<byte>, remove: bool, times: seq<int>) returns (r: Option<byte>)
      requires Valid() && |times| == |opcodes|
      modifies this
      ensures Valid() && calls == old(calls) + Probes(old(entries), ip, opcodes, remove, times, window)
      ensures (entries, r) == FindAnySpec(old(entries), ip, opcodes, remove, times, window)
    {
      hide Run, Contains, Probes, FindAnySpec;
      var i := 0;
      assert opcodes[0..] == opcodes && times[0..] == times;
      while i < |opcodes|
        invariant 0 <= i <= |opcodes| && Valid()
        invariant calls + Probes(entries, ip, opcodes[i..], remove, times[i..], window)
               == old(calls) + Probes(old(entries), ip, opcodes, remove, times, window)
        invariant FindAnySpec(entries, ip, opcodes[i..], remove, times[i..], window)
               == FindAnySpec(old(entries), ip, opcodes, remove, times, window)
      {
        ghost var before := calls;
        ProbeStep(entries, ip, opcodes, remove, times, i, window);
        var found := ContainsRequest(ip, opcodes[i], remove, times[i]);
        if found { return Some(opcodes[i]); }
        i := i + 1;
        ghost var rest := Probes(entries, ip, opcodes[i..], remove, times[i..], window);
        assert before + ([calls[|before|]] + rest) == calls + rest;
      }
      NoProbe(entries, ip, opcodes[i..], remove, times[i..], window);
      return None;
    }
  }

  lemma ProbeStep(entries: seq<Request>, ip: Ip, opcodes: seq<byte>, remove: bool, times: seq<int>, i: nat, window: nat)
    requires |times| == |opcodes| && i < |opcodes|
    ensures var (entries', found) := Contains(entries, ip, opcodes[i], remove, times[i], window);
            && Probes(entries, ip, opcodes[i..], remove, times[i..], window)
               == [ContainsCall(ip, opcodes[i], remove, times[i])]
                  + (if found then [] else Probes(entries', ip, opcodes[i + 1..], remove, times[i + 1..], window))
            && FindAnySpec(entries, ip, opcodes[i..], remove, times[i..], window)
               == if found then (entries', Some(opcodes[i]))
                  else FindAnySpec(entries', ip, opcodes[i + 1..], remove, times[i + 1..], window)
  {
    hide Contains;
    assert opcodes[i..][1..] == opcodes[i + 1..] && times[i..][1..] == times[i + 1..];
  }

  lemma NoProbe(entries: seq<Request>, ip: Ip, opcodes: seq<byte>, remove: bool, times: seq<int>, window: nat)
    requires |times| == |opcodes| == 0
    ensures Probes(entries, ip, opcodes, remove, times, window) == []
    ensures FindAnySpec(entries, ip, opcodes, remove, times, window) == (entries, None)
  {
  }

  function FindAnySpec(entries: seq<Request>, ip: Ip, opcodes: seq<byte>, remove: bool, times: seq<int>, window: nat)
    : (seq<Request>, Option<byte>)
    requires |times| == |opcodes|
    decreases |opcodes|
  {
    if opcodes == [] then (entries, None)
    else
      var (entries', found) := Contains(entries, ip, opcodes[0], remove, times[0], window);
      if found then (entries', Some(opcodes[0]))
      else FindAnySpec(entries', ip, opcodes[1..], remove, times[1..], window)
  }

  /** The `contains` calls that make up one `find_any`. */
  function Probes(entries: seq<Request>, ip: Ip, opcodes: seq<byte>, remove: bool, times: seq<int>, window: nat)
    : seq<Call>
    requires |times| == |opcodes|
    decreases |opcodes|
  {
    if opcodes == [] then []
    else
      var (entries', found) := Contains(entries, ip, opcodes[0], remove, times[0], window);
      [ContainsCall(ip, opcodes[0], remove, times[0])]
      + (if found then [] else Probes(entries', ip, opcodes[1..], remove, times[1..], window))
  }
}
