/** The routing table with its two side indexes: `crates/overlord-kad-routing/src/table.rs`. */
module Tables {
  import opened Common
  import opened NodeIds
  import opened Contacts
  import opened Bins
  import opened Zones
  import opened Capacity

  const DEFAULT_MAX_SIZE := 12_000
  const GLOBAL_MAX_PER_SUBNET24 := 10

  datatype Table = Table(
    ownId: NodeId, maxSize: nat, root: Zone,
    ipCounts: map<Ipv4, nat>, subnetCounts: map<Subnet, nat>, total: int)

  function WithMaxSize(ownId: NodeId, maxSize: nat): Table
  {
    Table(ownId, maxSize, NewRoot(), map[], map[], 0)
  }

  function CountOf<A>(counts: map<A, nat>, k: A): nat { if k in counts then counts[k] else 0 }

  function Increment<A>(counts: map<A, nat>, k: Option<A>): map<A, nat>
  {
    if k.Some? then counts[k.value := CountOf(counts, k.value) + 1] else counts
  }

  /** A count that reaches zero loses its key. */
  function Decrement<A>(counts: map<A, nat>, k: Option<A>): map<A, nat>
  {
    if k.None? || k.value !in counts then counts
    else if counts[k.value] > 1 then counts[k.value := counts[k.value] - 1]
    else counts - {k.value}
  }

  function IpKey(ip: Ipv4): Option<Ipv4> { Some(ip) }

  function SubnetKey(ip: Ipv4): Option<Subnet> { if IsLan(ip) then None else Some(Subnet24(ip)) }

  /** `add_contact`; `None` is success. */
  function AddContact(t: Table, c: Contact): (Table, Option<RoutingError>)
  {
    var known := Get(t.root, c.id);
    var sameIp := known.Some? && known.value.ip == c.ip;
    if CountOf(t.ipCounts, c.ip) > 0 && !sameIp then (t, Some(IpLimitExceeded(c.ip)))
    else if !IsLan(c.ip) && !sameIp && CountOf(t.subnetCounts, Subnet24(c.ip)) >= GLOBAL_MAX_PER_SUBNET24 then
      (t, Some(SubnetLimitExceeded(Global)))
    else
      match Add(t.root, c, t.total, t.maxSize)
      case (root, Err(e)) => (t.(root := root), Some(e))
      case (root, Ok(true)) =>
        (t.(root := root, total := t.total + 1,
            ipCounts := Increment(t.ipCounts, IpKey(c.ip)),
            subnetCounts := Increment(t.subnetCounts, SubnetKey(c.ip))), None)
      case (root, Ok(false)) =>
        if known.None? || sameIp then (t.(root := root), None)
        else
          (t.(root := root,
              ipCounts := Increment(Decrement(t.ipCounts, IpKey(known.value.ip)), IpKey(c.ip)),
              subnetCounts := Increment(Decrement(t.subnetCounts, SubnetKey(known.value.ip)), SubnetKey(c.ip))), None)
  }

  function RemoveContact(t: Table, id: NodeId): (Table, bool)
  {
    match Remove(t.root, id)
    case (root, None) => (t.(root := root), false)
    case (root, Some(c)) =>
      (t.(root := root, total := t.total - 1,
          ipCounts := Decrement(t.ipCounts, IpKey(c.ip)),
          subnetCounts := Decrement(t.subnetCounts, SubnetKey(c.ip))), true)
  }

  // ---- counters against the contacts they summarise -----------------------------------------------

  ghost function Holders<A(!new)>(m: map<NodeId, Contact>, key: Ipv4 -> Option<A>, k: A): set<NodeId>
  {
    set id | id in m && key(m[id].ip) == Some(k)
  }

  /** Each count is the number of contacts with that key, and zero counts are absent. */
  ghost predicate CountsOk<A(!new)>(counts: map<A, nat>, m: map<NodeId, Contact>, key: Ipv4 -> Option<A>)
  {
    forall k :: Exact(counts, k, |Holders(m, key, k)|)
  }

  ghost predicate Exact<A>(counts: map<A, nat>, k: A, n: nat)
  {
    (k in counts <==> n > 0) && (k in counts ==> counts[k] == n)
  }

  lemma OneChanges<T>(h: set<T>, h': set<T>, id: T)
    requires forall x :: x != id ==> (x in h' <==> x in h)
    ensures |h'| == |h| - (if id in h then 1 else 0) + (if id in h' then 1 else 0)
  {
    assert h - {id} == h' - {id};
    WithOrWithout(h, id);
    WithOrWithout(h', id);
  }

  lemma WithOrWithout<T>(h: set<T>, id: T)
    ensures |h| == |h - {id}| + (if id in h then 1 else 0)
  {
    if id !in h { assert h - {id} == h; }
  }

  lemma HoldersPut<A(!new)>(m: map<NodeId, Contact>, key: Ipv4 -> Option<A>, id: NodeId, c: Contact, k: A)
    ensures |Holders(m[id := c], key, k)| ==
            |Holders(m, key, k)| - (if id in m && key(m[id].ip) == Some(k) then 1 else 0)
            + (if key(c.ip) == Some(k) then 1 else 0)
  {
    var (h, h') := (Holders(m, key, k), Holders(m[id := c], key, k));
    forall x ensures x in h' <==> if x == id then key(c.ip) == Some(k) else x in h {}
    OneChanges(h, h', id);
  }

  lemma HoldersDrop<A(!new)>(m: map<NodeId, Contact>, key: Ipv4 -> Option<A>, id: NodeId, k: A)
    ensures |Holders(m - {id}, key, k)|
            == |Holders(m, key, k)| - (if id in m && key(m[id].ip) == Some(k) then 1 else 0)
  {
    assert Holders(m - {id}, key, k) == Holders(m, key, k) - {id};
  }

  lemma CountsPutNew<A(!new)>(counts: map<A, nat>, m: map<NodeId, Contact>, key: Ipv4 -> Option<A>, c: Contact)
    requires CountsOk(counts, m, key) && c.id !in m
    ensures CountsOk(Increment(counts, key(c.ip)), m[c.id := c], key)
  {
    var m' := m[c.id := c];
    forall k ensures Exact(Increment(counts, key(c.ip)), k, |Holders(m', key, k)|) {
      HoldersPut(m, key, c.id, c, k);
      assert Exact(counts, k, |Holders(m, key, k)|);
    }
  }

  lemma CountsDrop<A(!new)>(counts: map<A, nat>, m: map<NodeId, Contact>, key: Ipv4 -> Option<A>, id: NodeId)
    requires CountsOk(counts, m, key) && id in m
    ensures CountsOk(Decrement(counts, key(m[id].ip)), m - {id}, key)
  {
    forall k ensures Exact(Decrement(counts, key(m[id].ip)), k, |Holders(m - {id}, key, k)|) {
      HoldersDrop(m, key, id, k);
      assert Exact(counts, k, |Holders(m, key, k)|);
    }
  }

  lemma CountsReplace<A(!new)>(counts: map<A, nat>, m: map<NodeId, Contact>, key: Ipv4 -> Option<A>, c: Contact)
    requires CountsOk(counts, m, key) && c.id in m
    ensures CountsOk(Increment(Decrement(counts, key(m[c.id].ip)), key(c.ip)), m[c.id := c], key)
  {
    CountsDrop(counts, m, key, c.id);
    CountsPutNew(Decrement(counts, key(m[c.id].ip)), m - {c.id}, key, c);
    Reput(m, c.id, c);
  }

  lemma CountsSameKey<A(!new)>(counts: map<A, nat>, m: map<NodeId, Contact>, key: Ipv4 -> Option<A>, c: Contact)
    requires CountsOk(counts, m, key) && c.id in m && m[c.id].ip == c.ip
    ensures CountsOk(counts, m[c.id := c], key)
  {
    var m' := m[c.id := c];
    forall k ensures Exact(counts, k, |Holders(m', key, k)|) {
      HoldersPut(m, key, c.id, c, k);
      assert Exact(counts, k, |Holders(m, key, k)|);
    }
  }

  // ---- the table invariant -------------------------------------------------------------------------

  ghost predicate AtMostPer<A(!new)>(m: map<NodeId, Contact>, key: Ipv4 -> Option<A>, limit: nat)
  {
    forall k :: |Holders(m, key, k)| <= limit
  }

  /** What every reachable table satisfies. */
  ghost predicate TableOk(t: Table)
  {
    var m := Index(t.root);
    && ZoneOk(t.root, [])
    && t.total == |m|
    && CountsOk(t.ipCounts, m, IpKey)
    && CountsOk(t.subnetCounts, m, SubnetKey)
    && AtMostPer(m, IpKey, 1)
    && AtMostPer(m, SubnetKey, GLOBAL_MAX_PER_SUBNET24)
  }

  lemma NewTableOk(ownId: NodeId, maxSize: nat)
    ensures TableOk(WithMaxSize(ownId, maxSize)) && Index(WithMaxSize(ownId, maxSize).root) == map[]
  {
    var m := Index(NewRoot());
    assert m == map[];
    assert forall ip :: Holders(m, IpKey, ip) == {};
    assert forall s :: Holders(m, SubnetKey, s) == {};
  }

  /** Some other contact already uses the address. */
  ghost predicate IpTaken(m: map<NodeId, Contact>, c: Contact)
  {
    exists id :: id in m && id != c.id && m[id].ip == c.ip
  }

  /** The contact brings an address the table does not yet hold for it. */
  predicate BringsNewIp(m: map<NodeId, Contact>, c: Contact) { c.id !in m || m[c.id].ip != c.ip }

  ghost predicate SubnetFull(m: map<NodeId, Contact>, c: Contact)
  {
    !IsLan(c.ip) && BringsNewIp(m, c) && |Holders(m, SubnetKey, Subnet24(c.ip))| >= GLOBAL_MAX_PER_SUBNET24
  }

  /** The answer and effect of `add_contact` in terms of the contacts held. */
  ghost predicate ContactOutcome(m: map<NodeId, Contact>, m': map<NodeId, Contact>, r: Option<RoutingError>,
                                 c: Contact, maxSize: nat)
  {
    && m' == (if r.None? then Sighted(m, c) else m)
    && (r == Some(IpLimitExceeded(c.ip)) <==> IpTaken(m, c))
    && (r == Some(SubnetLimitExceeded(Global)) <==> !IpTaken(m, c) && SubnetFull(m, c))
    && (r.Some? ==> match r.value
                    case IpLimitExceeded(ip) => ip == c.ip
                    case SubnetLimitExceeded(_) => true
                    case SplitDenied(MaxTableSize) => c.id !in m && maxSize <= |m| <= MAX_CONTACTS
                    case SplitDenied(ZoneIndexCap) => c.id !in m
                    case _ => false)
  }

  lemma IpCountDecides(t: Table, c: Contact)
    requires TableOk(t)
    ensures Get(t.root, c.id) == Lookup(Index(t.root), c.id)
    ensures CountOf(t.ipCounts, c.ip) > 0 && BringsNewIp(Index(t.root), c) <==> IpTaken(Index(t.root), c)
    ensures CountOf(t.subnetCounts, Subnet24(c.ip)) == |Holders(Index(t.root), SubnetKey, Subnet24(c.ip))|
  {
    var m := Index(t.root);
    GetIsLookup(t.root, [], c.id);
    var holders := Holders(m, IpKey, c.ip);
    assert Exact(t.ipCounts, c.ip, |holders|) && |holders| <= 1;
    assert Exact(t.subnetCounts, Subnet24(c.ip), |Holders(m, SubnetKey, Subnet24(c.ip))|);
    if holders != {} {
      var id :| id in holders;
      assert |holders - {id}| == |holders| - 1;
      assert holders == {id};
      if id == c.id {
        forall x | x in m && x != c.id ensures m[x].ip != c.ip { assert x !in holders; }
      }
    }
    forall x | x in m && m[x].ip == c.ip ensures x in holders { }
  }

  /** Replacing or adding one contact keeps both per-key limits if its own key has room. */
  lemma LimitKept<A(!new)>(m: map<NodeId, Contact>, key: Ipv4 -> Option<A>, limit: nat, c: Contact)
    requires AtMostPer(m, key, limit)
    requires key(c.ip).Some? && !(c.id in m && key(m[c.id].ip) == key(c.ip)) ==>
               |Holders(m, key, key(c.ip).value)| < limit
    ensures AtMostPer(m[c.id := c], key, limit)
  {
    var m' := m[c.id := c];
    forall k ensures |Holders(m', key, k)| <= limit { HoldersPut(m, key, c.id, c, k); }
  }

  lemma LimitKeptDropping<A(!new)>(m: map<NodeId, Contact>, key: Ipv4 -> Option<A>, limit: nat, id: NodeId)
    requires AtMostPer(m, key, limit)
    ensures AtMostPer(m - {id}, key, limit)
  {
    forall k ensures |Holders(m - {id}, key, k)| <= limit { HoldersDrop(m, key, id, k); }
  }

  lemma LimitsAdmit(m: map<NodeId, Contact>, c: Contact, c': Contact)
    requires AtMostPer(m, IpKey, 1) && AtMostPer(m, SubnetKey, GLOBAL_MAX_PER_SUBNET24)
    requires !IpTaken(m, c) && !SubnetFull(m, c) && c'.id == c.id && c'.ip == c.ip
    ensures AtMostPer(m[c.id := c'], IpKey, 1) && AtMostPer(m[c.id := c'], SubnetKey, GLOBAL_MAX_PER_SUBNET24)
  {
    if BringsNewIp(m, c) {
      assert Holders(m, IpKey, c.ip) == {} by {
        forall id | id in m ensures m[id].ip != c.ip { if id != c.id { assert !(m[id].ip == c.ip); } }
      }
    }
    LimitKept(m, IpKey, 1, c');
    LimitKept(m, SubnetKey, GLOBAL_MAX_PER_SUBNET24, c');
  }

  /** Every `add_contact` keeps the table valid, and its answer is decided as `ContactOutcome` says. */
  lemma AddContactSpec(t: Table, c: Contact)
    requires TableOk(t)
    ensures TableOk(AddContact(t, c).0)
    ensures ContactOutcome(Index(t.root), Index(AddContact(t, c).0.root), AddContact(t, c).1, c, t.maxSize)
    ensures AddContact(t, c).0.maxSize == t.maxSize && AddContact(t, c).0.ownId == t.ownId
  {
    hide AtMostPer, CountsOk, Holders, Index, ZoneOk;
    var m := Index(t.root);
    IpCountDecides(t, c);
    TrieIsBounded(t.root);
    if !IpTaken(m, c) && !SubnetFull(m, c) {
      AddSpec(t.root, [], c, t.total, t.maxSize);
      var (root, r) := Add(t.root, c, t.total, t.maxSize);
      if r.Ok? {
        var c' := if c.id in m then Merge(m[c.id], c) else c;
        IndexKeyed(t.root);
        assert Sighted(m, c) == m[c.id := c'] && c'.ip == c.ip;
        LimitsAdmit(m, c, c');
        if c.id !in m {
          CountsPutNew(t.ipCounts, m, IpKey, c');
          CountsPutNew(t.subnetCounts, m, SubnetKey, c');
        } else if m[c.id].ip == c.ip {
          CountsSameKey(t.ipCounts, m, IpKey, c');
          CountsSameKey(t.subnetCounts, m, SubnetKey, c');
        } else {
          CountsReplace(t.ipCounts, m, IpKey, c');
          CountsReplace(t.subnetCounts, m, SubnetKey, c');
        }
      }
    }
  }

  /** A refusal by the trie is due to the leaf the contact belongs to. */
  lemma TrieRefusalsAreDue(t: Table, c: Contact)
    requires TableOk(t)
    ensures var (t', r) := AddContact(t, c);
            r.Some? && r.value != IpLimitExceeded(c.ip) && r.value != SubnetLimitExceeded(Global) ==>
              Justifies(LeafFor(t'.root, c.id), r.value, c, t.total, t.maxSize)
  {
    hide Justifies, Add;
    RefusalsAreDue(t.root, [], c, t.total, t.maxSize);
  }

  /** The whole answer of `add_contact`, foretold from the contacts held and the leaf the contact belongs to. */
  lemma AddContactAnswer(t: Table, c: Contact)
    requires TableOk(t)
    ensures var (m, leaf) := (Index(t.root), LeafFor(t.root, c.id));
            leaf.Leaf? && AddContact(t, c).1 ==
            if IpTaken(m, c) then Some(IpLimitExceeded(c.ip))
            else if SubnetFull(m, c) then Some(SubnetLimitExceeded(Global))
            else Refusal(leaf.depth, leaf.bin, c, t.total, t.maxSize)
  {
    hide Refusal, Add, ContactOutcome, LeafFor, Increment, Decrement, CountsOk, AtMostPer, ZoneOk, Index, Get, IpTaken;
    RefusalIff(t.root, [], c, t.total, t.maxSize);
    IpCountDecides(t, c);
    GlobalErrors(t, c);
  }

  /** The two errors decided by the counters. */
  lemma GlobalErrors(t: Table, c: Contact)
    requires TableOk(t)
    ensures AddContact(t, c).1 == Some(IpLimitExceeded(c.ip)) <==> IpTaken(Index(t.root), c)
    ensures AddContact(t, c).1 == Some(SubnetLimitExceeded(Global)) <==>
              !IpTaken(Index(t.root), c) && SubnetFull(Index(t.root), c)
  {
    hide TableOk, AddContact, Index;
    AddContactSpec(t, c);
  }

  lemma RemoveContactSpec(t: Table, id: NodeId)
    requires TableOk(t)
    ensures TableOk(RemoveContact(t, id).0)
    ensures Index(RemoveContact(t, id).0.root) == Index(t.root) - {id}
    ensures RemoveContact(t, id).1 == (id in Index(t.root))
    ensures RemoveContact(t, id).0.maxSize == t.maxSize && RemoveContact(t, id).0.ownId == t.ownId
  {
    hide AtMostPer, CountsOk, Holders, Index, ZoneOk;
    var m := Index(t.root);
    RemoveSpec(t.root, [], id);
    if id in m {
      CountsDrop(t.ipCounts, m, IpKey, id);
      CountsDrop(t.subnetCounts, m, SubnetKey, id);
      LimitKeptDropping(m, IpKey, 1, id);
      LimitKeptDropping(m, SubnetKey, GLOBAL_MAX_PER_SUBNET24, id);
      assert |m - {id}| == |m| - 1 by { assert (m - {id}).Keys == m.Keys - {id}; }
    } else {
      assert m - {id} == m;
    }
  }

  // ---- whole runs -----------------------------------------------------------------------------------

  datatype Op = AddOp(contact: Contact) | RemoveOp(id: NodeId)

  function Apply(t: Table, op: Op): Table
  {
    match op
    case AddOp(c) => AddContact(t, c).0
    case RemoveOp(id) => RemoveContact(t, id).0
  }

  function Run(t: Table, ops: seq<Op>): Table
  {
    if ops == [] then t else Apply(Run(t, ops[..|ops| - 1]), ops[|ops| - 1])
  }

  lemma RunSnoc(t: Table, ops: seq<Op>, op: Op)
    ensures Run(t, ops + [op]) == Apply(Run(t, ops), op)
  {
    assert (ops + [op])[..|ops|] == ops;
  }

  predicate Accepted(t: Table, op: Op) { op.AddOp? ==> AddContact(t, op.contact).1.None? }

  /** The contact map a run leaves, computed from its accepted operations alone. */
  function Replay(t: Table, ops: seq<Op>): map<NodeId, Contact>
  {
    if ops == [] then Index(t.root)
    else
      var n := |ops| - 1;
      var m := Replay(t, ops[..n]);
      if !Accepted(Run(t, ops[..n]), ops[n]) then m
      else match ops[n]
        case AddOp(c) => Sighted(m, c)
        case RemoveOp(id) => m - {id}
  }

  /** Every run keeps every index exact and every limit; tree shape and indexes never influence which
      contacts an accepted operation leaves behind. */
  lemma {:induction false} RunSpec(t: Table, ops: seq<Op>)
    requires TableOk(t)
    ensures TableOk(Run(t, ops)) && Run(t, ops).maxSize == t.maxSize
    ensures Index(Run(t, ops).root) == Replay(t, ops)
  {
    hide TableOk, ContactOutcome, AddContact, RemoveContact;
    if ops != [] {
      var n := |ops| - 1;
      RunSpec(t, ops[..n]);
      var before := Run(t, ops[..n]);
      match ops[n] {
        case AddOp(c) =>
          AddContactSpec(before, c);
          OutcomeMap(before, c);
        case RemoveOp(id) => RemoveContactSpec(before, id);
      }
    }
  }

  lemma OutcomeMap(t: Table, c: Contact)
    requires TableOk(t)
    ensures Index(AddContact(t, c).0.root)
            == if AddContact(t, c).1.None? then Sighted(Index(t.root), c) else Index(t.root)
  {
    hide TableOk, AddContact;
    AddContactSpec(t, c);
  }

  /** No run builds more than 621 leaves or 6,190 contacts, each contact lies in the leaf its bits name,
      and a table whose `max_size` exceeds 6,190 never reports `MaxTableSize`. */
  lemma ReachableTables(ownId: NodeId, maxSize: nat, ops: seq<Op>)
    ensures var t := Run(WithMaxSize(ownId, maxSize), ops);
            && TableOk(t)
            && LeafCount(t.root) <= MAX_LEAVES
            && t.total == Count(t.root) <= MAX_CONTACTS
            && Index(t.root) == Replay(WithMaxSize(ownId, maxSize), ops)
    ensures maxSize > MAX_CONTACTS ==>
              forall c :: AddContact(Run(WithMaxSize(ownId, maxSize), ops), c).1 != Some(SplitDenied(MaxTableSize))
  {
    hide AddContact, RemoveContact, AtMostPer, CountsOk, ZoneOk, Index, Replay;
    NewTableOk(ownId, maxSize);
    RunSpec(WithMaxSize(ownId, maxSize), ops);
    var t := Run(WithMaxSize(ownId, maxSize), ops);
    TrieIsBounded(t.root);
    forall c ensures maxSize > MAX_CONTACTS ==> AddContact(t, c).1 != Some(SplitDenied(MaxTableSize)) {
      AddContactSpec(t, c);
    }
  }

  /** The documented default never blocks a split. */
  lemma DefaultSizeNeverBinds(ownId: NodeId, ops: seq<Op>, c: Contact)
    ensures AddContact(Run(WithMaxSize(ownId, DEFAULT_MAX_SIZE), ops), c).1 != Some(SplitDenied(MaxTableSize))
    ensures AddContact(Run(WithMaxSize(ownId, DEFAULT_MAX_SIZE), ops), c).1 != Some(SplitDenied(DepthLimit))
  {
    hide AddContact, RemoveContact, AtMostPer, CountsOk, ZoneOk, Index, Replay, Run;
    ReachableTables(ownId, DEFAULT_MAX_SIZE, ops);
    AddContactSpec(Run(WithMaxSize(ownId, DEFAULT_MAX_SIZE), ops), c);
  }
}
