/** The trie as the source holds it: zones that are rewritten in place. Every operation is proved
    against the operation of the same name in `Zones`. */
module ZoneObjects {
  import opened Common
  import opened NodeIds
  import opened Contacts
  import opened Bins
  import Z = Zones

  datatype ZoneContent =
    | LeafContent(bin: RoutingBin)
    | BranchContent(left: RoutingZone, right: RoutingZone)

  lemma {:induction false} RefillSize(cs: seq<Contact>)
    ensures Z.Refill(cs).Ok? ==> |Z.Refill(cs).value| <= K
  {
    if cs != [] { RefillSize(cs[..|cs| - 1]); }
  }

  /** A leaf with a free slot behaves exactly like its bin. */
  lemma RoomyLeafAdd(depth: nat, index: nat, bin: seq<Contact>, c: Contact, total: int, maxSize: nat)
    requires |bin| < K
    ensures Z.Add(Z.Leaf(depth, index, bin), c, total, maxSize)
            == (Z.Leaf(depth, index, TryAdd(bin, c).0), TryAdd(bin, c).1)
    ensures |TryAdd(bin, c).0| <= |bin| + 1
  {
  }

  lemma BranchAdd(depth: nat, index: nat, left: Z.Zone, right: Z.Zone, c: Contact, total: int, maxSize: nat)
    ensures Z.Add(Z.Branch(depth, index, left, right), c, total, maxSize) ==
            if Bit(c.id, depth) then
              var (right', r) := Z.Add(right, c, total, maxSize); (Z.Branch(depth, index, left, right'), r)
            else
              var (left', r) := Z.Add(left, c, total, maxSize); (Z.Branch(depth, index, left', right), r)
  {
  }

  /** Splitting and retrying is what `add` on the full leaf means. */
  lemma RetryAfterSplit(depth: nat, index: nat, bin: seq<Contact>, c: Contact, total: int, maxSize: nat)
    requires TryAdd(bin, c).1 == Err(TableFull) && Z.SplitDenial(depth, index, total, maxSize).None?
    ensures match Z.Split(bin, depth)
            case SplitFailed(e) =>
              Z.Add(Z.Leaf(depth, index, bin), c, total, maxSize) == (Z.Leaf(depth, index, []), Err(e))
            case Halves(l, r) =>
              Z.Add(Z.Leaf(depth, index, bin), c, total, maxSize)
              == Z.Add(Z.Branch(depth, index, Z.Leaf(depth + 1, Z.ChildZoneIndex(index, false), l),
                                Z.Leaf(depth + 1, Z.ChildZoneIndex(index, true), r)), c, total, maxSize)
  {
    hide Z.Split, TryAdd, Bit;
    match Z.Split(bin, depth)
    case SplitFailed(_) =>
    case Halves(l, r) =>
      var (li, ri) := (Z.ChildZoneIndex(index, false), Z.ChildZoneIndex(index, true));
      BranchAdd(depth, index, Z.Leaf(depth + 1, li, l), Z.Leaf(depth + 1, ri, r), c, total, maxSize);
      assert Z.AddToLeaf(depth, index, bin, c, total, maxSize) == Z.AddToHalves(depth, index, l, r, c, total, maxSize);
  }

  lemma FullBinUnchanged(bin: seq<Contact>, c: Contact)
    requires TryAdd(bin, c).1 == Err(TableFull)
    ensures TryAdd(bin, c).0 == bin
  {
  }

  method RefillBin(cs: seq<Contact>) returns (r: Result<seq<Contact>, RoutingError>)
    ensures r == Z.Refill(cs)
    ensures r.Ok? ==> |r.value| <= K
  {
    hide TryAdd;
    var drained := new RoutingBin();
    var i := 0;
    while i < |cs|
      invariant 0 <= i <= |cs|
      invariant Z.Refill(cs[..i]) == Ok(drained.contacts)
    {
      var added := drained.TryAddContact(cs[i]);
      assert cs[..i + 1][..i] == cs[..i];
      if added.Err? {
        RefillStops(cs, i + 1);
        return Err(added.error);
      }
      i := i + 1;
    }
    assert cs[..|cs|] == cs;
    RefillSize(cs);
    return Ok(drained.contacts);
  }

  class RoutingZone {
    const depth: nat
    const zoneIndex: nat
    var content: ZoneContent
    ghost var Repr: set<object>

    ghost predicate Valid()
      reads this, Repr
      decreases Repr
      ensures Valid() ==> this in Repr
    {
      && this in Repr
      && match content
         case LeafContent(bin) => Repr == {this, bin}
         case BranchContent(left, right) =>
           && depth < 127
           && left in Repr && right in Repr
           && left.depth == depth + 1 == right.depth
           && left.Repr < Repr && right.Repr < Repr
           && Repr == {this} + left.Repr + right.Repr
           && this !in left.Repr && this !in right.Repr && left.Repr !! right.Repr
           && left.Valid() && right.Valid()
    }

    ghost function Model(): (z: Z.Zone)
      requires Valid()
      reads this, Repr
      decreases Repr
      ensures z.depth == depth && z.Leaf? == content.LeafContent?
    {
      match content
      case LeafContent(bin) => Z.Leaf(depth, zoneIndex, bin.contacts)
      case BranchContent(left, right) => Z.Branch(depth, zoneIndex, left.Model(), right.Model())
    }

    constructor NewLeaf(d: nat, index: nat)
      ensures Valid() && fresh(Repr)
      ensures depth == d && zoneIndex == index && Model() == Z.Leaf(d, index, [])
    {
      var bin := new RoutingBin();
      depth, zoneIndex := d, index;
      content := LeafContent(bin);
      Repr := {this, bin};
    }

    method Add(c: Contact, total: int, maxSize: nat) returns (r: Result<bool, RoutingError>)
      requires Valid()
      modifies Repr
      ensures Valid() && fresh(Repr - old(Repr))
      ensures (Model(), r) == Z.Add(old(Model()), c, total, maxSize)
      decreases Max(0, 128 - depth), if content.LeafContent? then 2 else 1
    {
      hide TryAdd, Z.Split, Z.SplitDenial, Bit;
      match content
      case LeafContent(bin) =>
        r := bin.TryAddContact(c);
        if r == Err(TableFull) {
          FullBinUnchanged(old(bin.contacts), c);
          r := SplitAndRetry(c, total, maxSize);
        }
      case BranchContent(left, right) =>
        r := AddToChild(left, right, c, total, maxSize);
    }

    method AddToChild(left: RoutingZone, right: RoutingZone, c: Contact, total: int, maxSize: nat)
      returns (r: Result<bool, RoutingError>)
      requires Valid() && content == BranchContent(left, right)
      modifies Repr
      ensures Valid() && fresh(Repr - old(Repr))
      ensures (Model(), r) == Z.Add(old(Model()), c, total, maxSize)
      decreases Max(0, 128 - depth), 0
    {
      hide Bit, Z.Add, Valid, Model;
      Parts(left, right);
      BranchAdd(depth, zoneIndex, left.Model(), right.Model(), c, total, maxSize);
      var child := if Bit(c.id, depth) then right else left;
      ghost var other := if Bit(c.id, depth) then left else right;
      r := child.Add(c, total, maxSize);
      assert other.Valid() && other.Model() == old(other.Model());
      Repr := {this} + left.Repr + right.Repr;
      Assembled(left, right);
    }

    /** What validity says of the two children. */
    lemma Parts(left: RoutingZone, right: RoutingZone)
      requires Valid() && content == BranchContent(left, right)
      ensures left.Valid() && right.Valid() && left.Repr !! right.Repr && this !in left.Repr && this !in right.Repr
      ensures Repr == {this} + left.Repr + right.Repr && left in left.Repr && right in right.Repr
      ensures depth < 127 && left.depth == depth + 1 == right.depth
      ensures Model() == Z.Branch(depth, zoneIndex, left.Model(), right.Model())
    {
    }

    /** Valid children with separate footprints make a valid branch. */
    lemma Assembled(left: RoutingZone, right: RoutingZone)
      requires content == BranchContent(left, right) && depth < 127 && left.depth == depth + 1 == right.depth
      requires left.Valid() && right.Valid() && left.Repr !! right.Repr && this !in left.Repr && this !in right.Repr
      requires Repr == {this} + left.Repr + right.Repr
      ensures Valid() && Model() == Z.Branch(depth, zoneIndex, left.Model(), right.Model())
    {
      assert left.Repr < Repr && right.Repr < Repr;
    }

    method SplitAndRetry(c: Contact, total: int, maxSize: nat) returns (r: Result<bool, RoutingError>)
      requires Valid() && content.LeafContent?
      requires TryAdd(content.bin.contacts, c) == (content.bin.contacts, Err(TableFull))
      modifies Repr
      ensures Valid() && fresh(Repr - old(Repr))
      ensures (Model(), r) == Z.Add(old(Model()), c, total, maxSize)
      decreases Max(0, 128 - depth), 1, 1
    {
      hide TryAdd, Z.Split, Bit;
      var denial := Z.SplitDenial(depth, zoneIndex, total, maxSize);
      if denial.Some? { return Err(SplitDenied(denial.value)); }
      RetryAfterSplit(depth, zoneIndex, content.bin.contacts, c, total, maxSize);
      var failure := Split();
      if failure.Some? { return Err(failure.value); }
      r := AddToChild(content.left, content.right, c, total, maxSize);
    }

    /** Turns a leaf into two leaves; on failure the leaf stays behind drained. */
    method Split() returns (failure: Option<RoutingError>)
      requires Valid() && content.LeafContent? && depth < 127
      modifies Repr
      ensures Valid() && fresh(Repr - old(Repr))
      ensures match Z.Split(old(Model()).bin, depth)
              case SplitFailed(e) => failure == Some(e) && Model() == Z.Leaf(depth, zoneIndex, [])
              case Halves(l, r) =>
                failure == None && content.BranchContent?
                && Model() == Z.Branch(depth, zoneIndex, Z.Leaf(depth + 1, Z.ChildZoneIndex(zoneIndex, false), l),
                                       Z.Leaf(depth + 1, Z.ChildZoneIndex(zoneIndex, true), r))
      decreases Max(0, 128 - depth), 1, 0
    {
      hide Z.Refill, Z.Distribute;
      var cs := content.bin.Drain();
      var drained := RefillBin(cs);
      if drained.Err? { return Some(drained.error); }
      var left, right;
      failure, left, right := NewHalves(drained.value, depth, zoneIndex);
      if failure.None? {
        content := BranchContent(left, right);
        Repr := {this} + left.Repr + right.Repr;
      }
    }

    /** Adds to the child leaf on the contact's side, which has a free slot; the other one stays as it is. */
    static method PlaceOne(left: RoutingZone, right: RoutingZone, c: Contact, d: nat)
      returns (outcome: Result<bool, RoutingError>)
      requires left.Valid() && right.Valid() && left.Repr !! right.Repr && left.depth == d + 1 == right.depth && d < 127
      requires left.Model().Leaf? && right.Model().Leaf?
      requires |left.Model().bin| < K && |right.Model().bin| < K
      modifies left.Repr, right.Repr
      ensures left.Valid() && right.Valid() && left.Repr !! right.Repr
      ensures fresh(left.Repr - old(left.Repr)) && fresh(right.Repr - old(right.Repr))
      ensures var (l, r, b) := (old(left.Model()), old(right.Model()), Bit(c.id, d));
              && left.Model() == (if b then l else l.(bin := TryAdd(l.bin, c).0))
              && right.Model() == (if b then r.(bin := TryAdd(r.bin, c).0) else r)
              && outcome == TryAdd(if b then r.bin else l.bin, c).1
              && |left.Model().bin| + |right.Model().bin| <= |l.bin| + |r.bin| + 1
      decreases Max(0, 128 - d), 0, 0
    {
      hide TryAdd, Bit, Z.Add;
      var child := if Bit(c.id, d) then right else left;
      ghost var other := if Bit(c.id, d) then left else right;
      RoomyLeafAdd(d + 1, child.zoneIndex, child.Model().bin, c, 0, Z.USIZE_MAX);
      outcome := child.Add(c, 0, Z.USIZE_MAX);
      assert other.Valid() && other.Model() == old(other.Model());
    }

    static method NewHalves(cs: seq<Contact>, d: nat, index: nat)
      returns (failure: Option<RoutingError>, left: RoutingZone, right: RoutingZone)
      requires d < 127 && |cs| <= K
      ensures left.Valid() && right.Valid() && fresh(left.Repr) && fresh(right.Repr) && left.Repr !! right.Repr
      ensures left.depth == d + 1 == right.depth
      ensures match Z.Distribute(cs, d)
              case Err(e) => failure == Some(e)
              case Ok((l, r)) =>
                failure == None && left.Model() == Z.Leaf(d + 1, Z.ChildZoneIndex(index, false), l)
                && right.Model() == Z.Leaf(d + 1, Z.ChildZoneIndex(index, true), r)
      decreases Max(0, 128 - d), 0, 1
    {
      hide TryAdd, Bit, Z.ChildZoneIndex, Z.Add;
      failure := None;
      left := new RoutingZone.NewLeaf(d + 1, Z.ChildZoneIndex(index, false));
      right := new RoutingZone.NewLeaf(d + 1, Z.ChildZoneIndex(index, true));
      var i := 0;
      ghost var l: seq<Contact>, r: seq<Contact> := [], [];
      while i < |cs|
        invariant 0 <= i <= |cs| && left.depth == d + 1 == right.depth
        invariant left.Valid() && right.Valid() && fresh(left.Repr) && fresh(right.Repr) && left.Repr !! right.Repr
        invariant left.Model() == Z.Leaf(d + 1, Z.ChildZoneIndex(index, false), l)
        invariant right.Model() == Z.Leaf(d + 1, Z.ChildZoneIndex(index, true), r)
        invariant Z.Distribute(cs[..i], d) == Ok((l, r)) && |l| + |r| <= i
      {
        assert cs[..i + 1][..i] == cs[..i];
        var outcome := PlaceOne(left, right, cs[i], d);
        if Bit(cs[i].id, d) { r := TryAdd(r, cs[i]).0; } else { l := TryAdd(l, cs[i]).0; }
        if outcome.Err? {
          DistributeStops(cs, d, i + 1);
          failure := Some(outcome.error);
          return;
        }
        i := i + 1;
      }
      assert cs[..|cs|] == cs;
    }

    method Remove(id: NodeId) returns (r: Option<Contact>)
      requires Valid()
      modifies Repr
      ensures Valid() && Repr == old(Repr)
      ensures (Model(), r) == Z.Remove(old(Model()), id)
      decreases Repr
    {
      match content
      case LeafContent(bin) => r := bin.Remove(id);
      case BranchContent(left, right) =>
        if Bit(id, depth) {
          r := right.Remove(id);
        } else {
          r := left.Remove(id);
        }
    }

    method Get(id: NodeId) returns (r: Option<Contact>)
      requires Valid()
      ensures r == Z.Get(Model(), id)
      decreases Repr
    {
      match content
      case LeafContent(bin) =>
        var pos := Position(bin.contacts, id);
        r := if pos < |bin.contacts| then Some(bin.contacts[pos]) else None;
      case BranchContent(left, right) =>
        if Bit(id, depth) { r := right.Get(id); } else { r := left.Get(id); }
    }

    method Count() returns (n: nat)
      requires Valid()
      ensures n == Z.Count(Model())
      decreases Repr
    {
      match content
      case LeafContent(bin) => n := |bin.contacts|;
      case BranchContent(left, right) =>
        var a := left.Count();
        var b := right.Count();
        n := a + b;
    }

    /** Pushes into the accumulated result, nearer half first. */
    method GetClosest(target: NodeId, n: nat, acc: seq<Contact>) returns (result: seq<Contact>)
      requires Valid()
      ensures result == Z.Walk(Model(), target, n, acc)
      decreases Repr
    {
      match content
      case LeafContent(bin) => result := acc + bin.contacts;
      case BranchContent(left, right) =>
        if Bit(target, depth) {
          result := right.GetClosest(target, n, acc);
          if |result| < n { result := left.GetClosest(target, n, result); }
        } else {
          result := left.GetClosest(target, n, acc);
          if |result| < n { result := right.GetClosest(target, n, result); }
        }
    }
  }

  /** The first rejection decides the whole refill. */
  lemma {:induction false} RefillStops(cs: seq<Contact>, n: nat)
    requires n <= |cs| && Z.Refill(cs[..n]).Err?
    ensures Z.Refill(cs) == Z.Refill(cs[..n])
    decreases |cs| - n
  {
    if n < |cs| {
      assert cs[..n + 1][..n] == cs[..n];
      RefillStops(cs, n + 1);
    } else {
      assert cs[..n] == cs;
    }
  }

  lemma {:induction false} DistributeStops(cs: seq<Contact>, depth: nat, n: nat)
    requires n <= |cs| && Z.Distribute(cs[..n], depth).Err?
    ensures Z.Distribute(cs, depth) == Z.Distribute(cs[..n], depth)
    decreases |cs| - n
  {
    if n < |cs| {
      assert cs[..n + 1][..n] == cs[..n];
      DistributeStops(cs, depth, n + 1);
    } else {
      assert cs[..n] == cs;
    }
  }
}

/** `RoutingTable` with its fields updated in place, proved against `Tables`. */
module TableObjects {
  import opened Common
  import opened NodeIds
  import opened Contacts
  import Z = Zones
  import T = Tables
  import opened Nearest
  import opened ZoneObjects

  class RoutingTable {
    const ownId: NodeId
    const maxSize: nat
    const root: RoutingZone
    var ipCounts: map<Ipv4, nat>
    var subnetCounts: map<Subnet, nat>
    var totalContacts: int

    ghost var ops: seq<T.Op>

    ghost predicate Owns()
      reads this, root, root.Repr
    {
      root.Valid() && this !in root.Repr
    }

    ghost function State(): (t: T.Table)
      requires Owns()
      reads this, root, root.Repr
    {
      T.Table(ownId, maxSize, root.Model(), ipCounts, subnetCounts, totalContacts)
    }

    /** The table is what the calls made so far have built. */
    ghost predicate Valid()
      reads this, root, root.Repr
    {
      Owns() && State() == T.Run(T.WithMaxSize(ownId, maxSize), ops)
    }

    ghost function Contacts(): map<NodeId, Contact>
      requires Valid()
      reads this, root, root.Repr
    {
      Z.Index(State().root)
    }

    constructor WithMaxSize(own: NodeId, size: nat)
      ensures Valid() && fresh(root.Repr) && maxSize == size && ownId == own && ops == []
      ensures State() == T.WithMaxSize(own, size) && Contacts() == map[]
    {
      ownId, maxSize := own, size;
      root := new RoutingZone.NewLeaf(0, 0);
      ipCounts, subnetCounts, totalContacts, ops := map[], map[], 0, [];
      new;
      T.NewTableOk(own, size);
    }

    method AddContact(c: Contact) returns (r: Option<RoutingError>)
      requires Valid()
      modifies this, root.Repr
      ensures Valid() && fresh(root.Repr - old(root.Repr)) && ops == old(ops) + [T.AddOp(c)]
      ensures (State(), r) == T.AddContact(old(State()), c)
      ensures T.ContactOutcome(old(Contacts()), Contacts(), r, c, maxSize)
    {
      hide T.TableOk, T.Run, T.AddContact, T.ContactOutcome, Z.Index, T.WithMaxSize;
      T.ReachableTables(ownId, maxSize, ops);
      T.AddContactSpec(State(), c);
      T.RunSnoc(T.WithMaxSize(ownId, maxSize), ops, T.AddOp(c));
      r := Admit(c);
      ops := ops + [T.AddOp(c)];
    }

    /** The body of `add_contact`. */
    method Admit(c: Contact) returns (r: Option<RoutingError>)
      requires Owns()
      modifies this`ipCounts, this`subnetCounts, this`totalContacts, root.Repr
      ensures Owns() && fresh(root.Repr - old(root.Repr))
      ensures (State(), r) == T.AddContact(old(State()), c)
    {
      hide Z.Add, Z.Get, T.Increment, T.Decrement, IsLan, Subnet24, T.CountOf;
      var known := root.Get(c.id);
      var oldIp := if known.Some? then Some(known.value.ip) else None;
      if T.CountOf(ipCounts, c.ip) > 0 {
        if oldIp != Some(c.ip) { return Some(IpLimitExceeded(c.ip)); }
      }
      if !IsLan(c.ip) {
        if oldIp != Some(c.ip) && T.CountOf(subnetCounts, Subnet24(c.ip)) >= T.GLOBAL_MAX_PER_SUBNET24 {
          return Some(SubnetLimitExceeded(Global));
        }
      }
      var result := root.Add(c, totalContacts, maxSize);
      if result.Err? { return Some(result.error); }
      Recount(oldIp, c.ip, result.value);
      return None;
    }

    /** The counters after an accepted contact. */
    method Recount(oldIp: Option<Ipv4>, ip: Ipv4, added: bool)
      modifies this`ipCounts, this`subnetCounts, this`totalContacts
      ensures added ==>
                && ipCounts == T.Increment(old(ipCounts), T.IpKey(ip))
                && subnetCounts == T.Increment(old(subnetCounts), T.SubnetKey(ip))
                && totalContacts == old(totalContacts) + 1
      ensures !added ==> totalContacts == old(totalContacts)
      ensures !added && (oldIp.None? || oldIp == Some(ip)) ==>
                ipCounts == old(ipCounts) && subnetCounts == old(subnetCounts)
      ensures !added && oldIp.Some? && oldIp != Some(ip) ==>
                && ipCounts == T.Increment(T.Decrement(old(ipCounts), T.IpKey(oldIp.value)), T.IpKey(ip))
                && subnetCounts
                   == T.Increment(T.Decrement(old(subnetCounts), T.SubnetKey(oldIp.value)), T.SubnetKey(ip))
    {
      hide T.Increment, T.Decrement;
      if added {
        CountIn(ip);
        totalContacts := totalContacts + 1;
      } else if oldIp.Some? && oldIp.value != ip {
        CountOut(oldIp.value);
        CountIn(ip);
      }
    }

    method Remove(id: NodeId) returns (found: bool)
      requires Valid()
      modifies this, root.Repr
      ensures Valid() && root.Repr == old(root.Repr) && ops == old(ops) + [T.RemoveOp(id)]
      ensures (State(), found) == T.RemoveContact(old(State()), id)
      ensures Contacts() == old(Contacts()) - {id} && found == (id in old(Contacts()))
    {
      hide T.TableOk, T.Run, T.RemoveContact, Z.Index, T.WithMaxSize;
      T.ReachableTables(ownId, maxSize, ops);
      T.RemoveContactSpec(State(), id);
      T.RunSnoc(T.WithMaxSize(ownId, maxSize), ops, T.RemoveOp(id));
      found := Evict(id);
      ops := ops + [T.RemoveOp(id)];
    }

    /** The body of `remove`. */
    method Evict(id: NodeId) returns (found: bool)
      requires Owns()
      modifies this`ipCounts, this`subnetCounts, this`totalContacts, root.Repr
      ensures Owns() && root.Repr == old(root.Repr)
      ensures (State(), found) == T.RemoveContact(old(State()), id)
    {
      hide Z.Remove, T.Increment, T.Decrement;
      var removed := root.Remove(id);
      found := removed.Some?;
      if found {
        CountOut(removed.value.ip);
        totalContacts := totalContacts - 1;
      }
    }

    method CountIn(ip: Ipv4)
      modifies this`ipCounts, this`subnetCounts
      ensures ipCounts == T.Increment(old(ipCounts), T.IpKey(ip))
      ensures subnetCounts == T.Increment(old(subnetCounts), T.SubnetKey(ip))
    {
      ipCounts := ipCounts[ip := T.CountOf(ipCounts, ip) + 1];
      if !IsLan(ip) {
        var subnet := Subnet24(ip);
        subnetCounts := subnetCounts[subnet := T.CountOf(subnetCounts, subnet) + 1];
      }
    }

    method CountOut(ip: Ipv4)
      modifies this`ipCounts, this`subnetCounts
      ensures ipCounts == T.Decrement(old(ipCounts), T.IpKey(ip))
      ensures subnetCounts == T.Decrement(old(subnetCounts), T.SubnetKey(ip))
    {
      if ip in ipCounts {
        if ipCounts[ip] > 1 { ipCounts := ipCounts[ip := ipCounts[ip] - 1]; } else { ipCounts := ipCounts - {ip}; }
      }
      if !IsLan(ip) {
        var subnet := Subnet24(ip);
        if subnet in subnetCounts {
          if subnetCounts[subnet] > 1 {
            subnetCounts := subnetCounts[subnet := subnetCounts[subnet] - 1];
          } else {
            subnetCounts := subnetCounts - {subnet};
          }
        }
      }
    }

    /** Exactly the `n` held contacts nearest to `target`, nearest first. */
    method GetClosest(target: NodeId, n: nat) returns (result: seq<Contact>)
      requires Valid()
      ensures IsNearest(result, Contacts(), DistanceTo(target), n)
    {
      hide IsNearest, Z.ZoneOk, Z.Index, SortByRank, Truncate, DistanceTo, T.Run, T.WithMaxSize;
      T.ReachableTables(ownId, maxSize, ops);
      GetClosestSpec(State().root, target, n);
      result := root.GetClosest(target, Z.USIZE_MAX, []);
      result := SortByRank(result, DistanceTo(target));
      result := Truncate(result, n);
    }

    /** Every held contact, ordered by distance from our own ID. */
    method AllContacts() returns (result: seq<Contact>)
      requires Valid()
      ensures IsNearest(result, Contacts(), DistanceTo(ownId), |Contacts()|)
    {
      hide IsNearest, T.Run, T.WithMaxSize;
      T.ReachableTables(ownId, maxSize, ops);
      result := GetClosest(ownId, totalContacts);
    }
  }
}
