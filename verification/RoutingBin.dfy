/** Routing-table contacts: `crates/overlord-kad-routing/src/contact.rs` and `error.rs`. */
module Contacts {
  import opened Common
  import opened NodeIds

  const K := 10

  /** A /24 prefix. */
  datatype Subnet = Subnet(a: byte, b: byte, c: byte)

  datatype ContactType = Active | Inactive | Dead

  /** The fields an update of an existing contact never touches. */
  datatype ContactMeta = ContactMeta(
    helloSourceUdpPort: Option<nat>, udpFirewalled: bool, tcpFirewalled: bool,
    requestsHelloResAck: bool, verified: bool, contactType: ContactType, createdAt: int)

  datatype Contact = Contact(
    id: NodeId, ip: Ipv4, udpPort: nat, tcpPort: nat, kadVersion: nat, udpKey: nat, lastSeen: int,
    meta: ContactMeta)

  datatype SubnetLimitScope = Global | BinLocal

  datatype SplitDeniedReason = DepthLimit | MaxTableSize | ZoneIndexCap

  datatype RoutingError =
    | TableFull
    | IpLimitExceeded(ip: Ipv4)
    | SubnetLimitExceeded(scope: SubnetLimitScope)
    | SplitDenied(reason: SplitDeniedReason)

  /** RFC 1918 section 3 ranges plus loopback. */
  predicate IsLan(ip: Ipv4)
  {
    || ip.a == 10
    || (ip.a == 172 && 16 <= ip.b <= 31)
    || (ip.a == 192 && ip.b == 168)
    || ip.a == 127
  }

  function Subnet24(ip: Ipv4): Subnet { Subnet(ip.a, ip.b, ip.c) }

  predicate InSubnet(c: Contact, s: Subnet) { !IsLan(c.ip) && Subnet24(c.ip) == s }

  /** What a repeated sighting `seen` does to the stored contact `stored`. */
  function Merge(stored: Contact, seen: Contact): Contact
  {
    stored.(ip := seen.ip, udpPort := seen.udpPort, tcpPort := seen.tcpPort,
         kadVersion := Max(stored.kadVersion, seen.kadVersion),
         udpKey := if seen.udpKey != 0 then seen.udpKey else stored.udpKey,
         lastSeen := seen.lastSeen)
  }
}

/** K-buckets: `crates/overlord-kad-routing/src/bin.rs`. */
module Bins {
  import opened Common
  import opened NodeIds
  import opened Contacts

  const MAX_PER_BIN_SUBNET24 := 2

  function Position(cs: seq<Contact>, id: NodeId): (r: nat)
    ensures r <= |cs|
    ensures r < |cs| ==> cs[r].id == id
    ensures forall i :: 0 <= i < r ==> cs[i].id != id
  {
    if cs == [] || cs[0].id == id then 0 else 1 + Position(cs[1..], id)
  }

  /** The bin without the slot holding `id`, if any. */
  function Without(cs: seq<Contact>, id: NodeId): seq<Contact>
  {
    var pos := Position(cs, id);
    if pos < |cs| then RemoveAt(cs, pos) else cs
  }

  function CountSubnet(cs: seq<Contact>, s: Subnet): nat
  {
    if cs == [] then 0
    else CountSubnet(cs[..|cs| - 1], s) + (if InSubnet(cs[|cs| - 1], s) then 1 else 0)
  }

  function TryAdd(cs: seq<Contact>, c: Contact): (seq<Contact>, Result<bool, RoutingError>)
  {
    var others := Without(cs, c.id);
    var pos := Position(cs, c.id);
    if !IsLan(c.ip) && CountSubnet(others, Subnet24(c.ip)) >= MAX_PER_BIN_SUBNET24 then
      (cs, Err(SubnetLimitExceeded(BinLocal)))
    else if pos < |cs| then
      (others + [Merge(cs[pos], c)], Ok(false))
    else if |cs| >= K then
      (cs, Err(TableFull))
    else
      (cs + [c], Ok(true))
  }

  // ---- the bin invariant -----------------------------------------------------------------

  ghost predicate UniqueIds(cs: seq<Contact>)
  {
    forall i, j :: 0 <= i < j < |cs| ==> cs[i].id != cs[j].id
  }

  ghost predicate SubnetsOk(cs: seq<Contact>)
  {
    forall s :: CountSubnet(cs, s) <= MAX_PER_BIN_SUBNET24
  }

  ghost predicate BinOk(cs: seq<Contact>)
  {
    |cs| <= K && UniqueIds(cs) && SubnetsOk(cs)
  }

  function BinIds(cs: seq<Contact>): set<NodeId> { set c | c in cs :: c.id }

  /** The bin as an ID-to-contact map. */
  function BinIndex(cs: seq<Contact>): map<NodeId, Contact>
  {
    map id | id in BinIds(cs) :: cs[Position(cs, id)]
  }

  lemma {:induction false} CountSubnetAppend(a: seq<Contact>, b: seq<Contact>, s: Subnet)
    ensures CountSubnet(a + b, s) == CountSubnet(a, s) + CountSubnet(b, s)
  {
    if b == [] {
      assert a + b == a;
    } else {
      assert (a + b)[..|a + b| - 1] == a + b[..|b| - 1];
      CountSubnetAppend(a, b[..|b| - 1], s);
    }
  }

  lemma CountSubnetSnoc(a: seq<Contact>, c: Contact, s: Subnet)
    ensures CountSubnet(a + [c], s) == CountSubnet(a, s) + (if InSubnet(c, s) then 1 else 0)
  {
    assert (a + [c])[..|a|] == a;
  }

  lemma CountSubnetRemove(cs: seq<Contact>, i: nat, s: Subnet)
    requires i < |cs|
    ensures CountSubnet(cs, s) == CountSubnet(RemoveAt(cs, i), s) + (if InSubnet(cs[i], s) then 1 else 0)
  {
    assert cs == cs[..i] + [cs[i]] + cs[i + 1..];
    CountSubnetAppend(cs[..i] + [cs[i]], cs[i + 1..], s);
    CountSubnetSnoc(cs[..i], cs[i], s);
    CountSubnetAppend(cs[..i], cs[i + 1..], s);
  }

  lemma BinIndexAt(cs: seq<Contact>, i: nat)
    requires UniqueIds(cs) && i < |cs|
    ensures cs[i].id in BinIds(cs) && BinIndex(cs)[cs[i].id] == cs[i]
  {
    assert cs[i] in cs;
    assert Position(cs, cs[i].id) == i;
  }

  lemma IndexesAgree(cs: seq<Contact>, m: map<NodeId, Contact>)
    requires UniqueIds(cs) && m.Keys == BinIds(cs)
    requires forall i :: 0 <= i < |cs| ==> cs[i].id in m && m[cs[i].id] == cs[i]
    ensures BinIndex(cs) == m
  {
    forall id | id in m ensures BinIndex(cs)[id] == m[id] {
      var i := Position(cs, id);
      assert cs[i].id == id;
    }
  }

  lemma NoIds()
    ensures BinIds([]) == {}
  {
  }

  lemma LastIsNew(cs: seq<Contact>)
    requires UniqueIds(cs) && cs != []
    ensures UniqueIds(cs[..|cs| - 1]) && cs[|cs| - 1].id !in BinIds(cs[..|cs| - 1])
  {
  }

  lemma {:induction false} BinIdsCard(cs: seq<Contact>)
    requires UniqueIds(cs)
    ensures |BinIds(cs)| == |cs|
  {
    hide BinIds, UniqueIds;
    if cs == [] {
      NoIds();
    } else {
      var n := |cs| - 1;
      LastIsNew(cs);
      BinIdsCard(cs[..n]);
      BinIdsSnoc(cs[..n], cs[n]);
      assert cs == cs[..n] + [cs[n]];
    }
  }

  lemma BinIdsSnoc(cs: seq<Contact>, c: Contact)
    ensures BinIds(cs + [c]) == BinIds(cs) + {c.id}
  {
    assert forall x :: x in cs + [c] <==> x in cs || x == c;
    assert c in cs + [c];
  }

  lemma UniqueSnoc(cs: seq<Contact>, c: Contact)
    ensures UniqueIds(cs + [c]) <==> UniqueIds(cs) && forall i :: 0 <= i < |cs| ==> cs[i].id != c.id
  {
    var all := cs + [c];
    assert all[|cs|] == c;
    assert forall i :: 0 <= i < |cs| ==> all[i] == cs[i];
  }

  lemma BinIndexSnoc(cs: seq<Contact>, c: Contact)
    requires UniqueIds(cs + [c])
    ensures BinIndex(cs + [c]) == BinIndex(cs)[c.id := c]
  {
    var all := cs + [c];
    UniqueSnoc(cs, c);
    BinIdsSnoc(cs, c);
    forall i | 0 <= i < |all| ensures BinIndex(cs)[c.id := c][all[i].id] == all[i] {
      if i < |cs| { BinIndexAt(cs, i); }
    }
    IndexesAgree(all, BinIndex(cs)[c.id := c]);
  }

  lemma WithoutUnique(cs: seq<Contact>, id: NodeId)
    requires UniqueIds(cs)
    ensures UniqueIds(Without(cs, id))
  {
    var pos := Position(cs, id);
    var ws := Without(cs, id);
    if pos < |cs| { assert forall i :: 0 <= i < |ws| ==> ws[i] == cs[if i < pos then i else i + 1]; }
  }

  lemma WithoutMembers(cs: seq<Contact>, id: NodeId)
    requires UniqueIds(cs)
    ensures forall c :: c in Without(cs, id) <==> c in cs && c.id != id
  {
    var pos := Position(cs, id);
    var ws := Without(cs, id);
    if pos < |cs| {
      forall i | 0 <= i < |ws| ensures ws[i] == cs[if i < pos then i else i + 1] && ws[i].id != id {}
      forall c | c in cs && c.id != id ensures c in ws {
        var i :| 0 <= i < |cs| && cs[i] == c;
        assert ws[if i < pos then i else i - 1] == c;
      }
    }
  }

  lemma WithoutIds(cs: seq<Contact>, id: NodeId)
    requires UniqueIds(cs)
    ensures UniqueIds(Without(cs, id)) && BinIds(Without(cs, id)) == BinIds(cs) - {id}
    ensures forall i :: 0 <= i < |Without(cs, id)| ==> Without(cs, id)[i] in cs && Without(cs, id)[i].id != id
  {
    hide Without, UniqueIds;
    WithoutUnique(cs, id);
    WithoutMembers(cs, id);
    var ws := Without(cs, id);
    forall i | 0 <= i < |ws| ensures ws[i] in cs && ws[i].id != id { assert ws[i] in ws; }
  }

  /** Dropping one slot drops one ID and keeps the invariant. */
  lemma WithoutSpec(cs: seq<Contact>, id: NodeId)
    requires BinOk(cs)
    ensures BinOk(Without(cs, id)) && BinIndex(Without(cs, id)) == BinIndex(cs) - {id}
  {
    var pos := Position(cs, id);
    var ws := Without(cs, id);
    WithoutIds(cs, id);
    forall s ensures CountSubnet(ws, s) <= MAX_PER_BIN_SUBNET24 {
      if pos < |cs| { CountSubnetRemove(cs, pos, s); }
    }
    forall i | 0 <= i < |ws| ensures ws[i].id in BinIndex(cs) && BinIndex(cs)[ws[i].id] == ws[i] {
      var j :| 0 <= j < |cs| && cs[j] == ws[i];
      BinIndexAt(cs, j);
    }
    IndexesAgree(ws, BinIndex(cs) - {id});
  }

  /** What one accepted sighting does to an ID-to-contact map. */
  function Sighted(m: map<NodeId, Contact>, c: Contact): map<NodeId, Contact>
  {
    m[c.id := if c.id in m then Merge(m[c.id], c) else c]
  }

  lemma PositionInIds(cs: seq<Contact>, id: NodeId)
    ensures id in BinIds(cs) <==> Position(cs, id) < |cs|
  {
    var pos := Position(cs, id);
    if pos < |cs| { assert cs[pos] in cs; }
  }

  lemma Reput<A, B>(m: map<A, B>, k: A, v: B)
    ensures (m - {k})[k := v] == m[k := v] && k !in (m - {k})
  {
  }

  /** Replacing or appending a contact at the back of the bin. */
  lemma PutLast(m: map<NodeId, Contact>, others: seq<Contact>, last: Contact)
    requires BinOk(others) && |others| < K && BinIndex(others) == m - {last.id}
    requires IsLan(last.ip) || CountSubnet(others, Subnet24(last.ip)) < MAX_PER_BIN_SUBNET24
    ensures BinOk(others + [last]) && BinIndex(others + [last]) == m[last.id := last]
  {
    Reput(m, last.id, last);
    assert BinIndex(others).Keys == BinIds(others);
    AppendTouched(others, last);
  }

  /** `try_add` keeps the bin invariant, and changes the ID-to-contact map only as its result says. */
  lemma TryAddSpec(cs: seq<Contact>, c: Contact)
    requires BinOk(cs)
    ensures BinOk(TryAdd(cs, c).0)
    ensures var (cs', r) := TryAdd(cs, c);
            if r.Ok? then r.value == (c.id !in BinIndex(cs)) && BinIndex(cs') == Sighted(BinIndex(cs), c)
            else cs' == cs && (if r.error == TableFull then |cs| == K && c.id !in BinIndex(cs)
                               else r.error == SubnetLimitExceeded(BinLocal))
  {
    PositionInIds(cs, c.id);
    if TryAdd(cs, c).1.Ok? {
      var pos := Position(cs, c.id);
      WithoutSpec(cs, c.id);
      PutLast(BinIndex(cs), Without(cs, c.id), if pos < |cs| then Merge(cs[pos], c) else c);
    }
  }

  lemma AppendTouched(others: seq<Contact>, last: Contact)
    requires BinOk(others) && |others| < K && last.id !in BinIds(others)
    requires IsLan(last.ip) || CountSubnet(others, Subnet24(last.ip)) < MAX_PER_BIN_SUBNET24
    ensures BinOk(others + [last]) && BinIndex(others + [last]) == BinIndex(others)[last.id := last]
  {
    forall i | 0 <= i < |others| ensures others[i].id != last.id { assert others[i] in others; }
    UniqueSnoc(others, last);
    BinIndexSnoc(others, last);
    forall s ensures CountSubnet(others + [last], s) <= MAX_PER_BIN_SUBNET24 { CountSubnetSnoc(others, last, s); }
  }

  /** A contact that would keep the bin valid at the back is accepted there. */
  lemma TryAddAppends(cs: seq<Contact>, c: Contact)
    requires BinOk(cs + [c])
    ensures BinOk(cs) && TryAdd(cs, c) == (cs + [c], Ok(true))
  {
    var all := cs + [c];
    forall s ensures CountSubnet(cs, s) <= MAX_PER_BIN_SUBNET24 {
      CountSubnetSnoc(cs, c, s);
      assert CountSubnet(all, s) <= MAX_PER_BIN_SUBNET24;
    }
    UniqueSnoc(cs, c);
    if !IsLan(c.ip) { CountSubnetSnoc(cs, c, Subnet24(c.ip)); assert CountSubnet(all, Subnet24(c.ip)) <= 2; }
  }

  /** A contact list that is edited in place; oldest contact first. */
  class RoutingBin {
    var contacts: seq<Contact>

    constructor ()
      ensures contacts == []
    {
      contacts := [];
    }

    /** On success the touched contact is the newest one and every other contact keeps its place in line. */
    method TryAddContact(c: Contact) returns (r: Result<bool, RoutingError>)
      modifies this
      ensures (contacts, r) == TryAdd(old(contacts), c)
      ensures r.Ok? ==> contacts != [] && contacts[|contacts| - 1].id == c.id
                        && contacts[..|contacts| - 1] == Without(old(contacts), c.id)
      ensures old(BinOk(contacts)) ==> BinOk(contacts)
    {
      if BinOk(contacts) { TryAddSpec(contacts, c); }
      var pos := Position(contacts, c.id);
      if !IsLan(c.ip) {
        var sameSubnet := CountSubnet(Without(contacts, c.id), Subnet24(c.ip));
        if sameSubnet >= MAX_PER_BIN_SUBNET24 {
          return Err(SubnetLimitExceeded(BinLocal));
        }
      }
      if pos < |contacts| {
        contacts := contacts[pos := Merge(contacts[pos], c)];
        var merged := contacts[pos];
        assert RemoveAt(contacts, pos) == RemoveAt(old(contacts), pos);
        contacts := RemoveAt(contacts, pos);
        contacts := contacts + [merged];
        return Ok(false);
      }
      if |contacts| >= K {
        return Err(TableFull);
      }
      contacts := contacts + [c];
      return Ok(true);
    }

    method Remove(id: NodeId) returns (r: Option<Contact>)
      modifies this
      ensures contacts == Without(old(contacts), id)
      ensures r == var pos := Position(old(contacts), id);
                   if pos < |old(contacts)| then Some(old(contacts)[pos]) else None
    {
      var pos := Position(contacts, id);
      if pos < |contacts| {
        r := Some(contacts[pos]);
        contacts := RemoveAt(contacts, pos);
      } else {
        r := None;
      }
    }

    /** Moves a contact to the back without changing it. */
    method Refresh(id: NodeId)
      modifies this
      ensures var pos := Position(old(contacts), id);
              contacts == if pos < |old(contacts)| then Without(old(contacts), id) + [old(contacts)[pos]]
                          else old(contacts)
      ensures multiset(contacts) == multiset(old(contacts))
    {
      var pos := Position(contacts, id);
      if pos < |contacts| {
        var c := contacts[pos];
        assert contacts == contacts[..pos] + [c] + contacts[pos + 1..];
        contacts := RemoveAt(contacts, pos);
        contacts := contacts + [c];
      }
    }

    method Drain() returns (r: seq<Contact>)
      modifies this
      ensures contacts == [] && r == old(contacts)
    {
      r := contacts;
      contacts := [];
    }
  }
}
