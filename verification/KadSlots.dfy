/** In which order searches find the sources and notes of a target: by when their slots were created, not by when
    they were last published. A republish replaces the entry in its old slot. */
module SlotOrder {
  import opened Common
  import opened Sequences
  import opened EntryLists
  import opened PublishCache
  import opened KeywordHistory
  import opened SearchAnswers

  datatype Limits = Limits(ttl: nat, capacity: nat, quota: Option<nat>)

  /** What one operation of a run does to one list. */
  datatype Change<!B> = Store(entry: Stored<B>, same: Stored<B> -> bool) | Sweep(at: Time) | Nothing

  function Apply<B>(l: Limits, es: seq<Stored<B>>, ch: Change<B>): seq<Stored<B>>
  {
    match ch
    case Store(e, same) => Upsert(Purge(es, l.ttl, e.at), l.capacity, l.quota, same, e)
    case Sweep(at) => Purge(es, l.ttl, at)
    case Nothing => es
  }

  // ---- slots --------------------------------------------------------------------------------------------------------

  /** An entry with the operations that created its slot and last published into it. */
  datatype Slot<+B> = Slot(born: nat, touched: nat, entry: Stored<B>)

  function Entries<B>(slots: seq<Slot<B>>): (r: seq<Stored<B>>)
    ensures |r| == |slots| && forall i :: 0 <= i < |slots| ==> r[i] == slots[i].entry
  {
    seq(|slots|, i requires 0 <= i < |slots| => slots[i].entry)
  }

  function LiveSlot<B>(ttl: nat, now: Time): Slot<B> -> bool { (s: Slot<B>) => s.entry.at + ttl > now }

  function SlotPurge<B>(slots: seq<Slot<B>>, ttl: nat, now: Time): seq<Slot<B>> { Filter(slots, LiveSlot(ttl, now)) }

  function SlotTrim<B>(slots: seq<Slot<B>>, quota: Option<nat>, target: Id): seq<Slot<B>>
  {
    var es := Entries(slots);
    if quota.Some? && CountFor(es, target) > quota.value && First(es, For(target)).Some?
    then RemoveAt(slots, First(es, For(target)).value)
    else slots
  }

  function SlotRoom<B>(slots: seq<Slot<B>>, capacity: nat): seq<Slot<B>>
  {
    if |slots| >= capacity && slots != [] then RemoveAt(slots, Oldest(Entries(slots))) else slots
  }

  function SlotStore<B>(l: Limits, slots: seq<Slot<B>>, e: Stored<B>, same: Stored<B> -> bool, n: nat): seq<Slot<B>>
  {
    match First(Entries(slots), same)
    case Some(i) => slots[i := Slot(slots[i].born, n, e)]
    case None => SlotRoom(SlotTrim(slots, l.quota, e.target), l.capacity) + [Slot(n, n, e)]
  }

  function SlotStep<B>(l: Limits, slots: seq<Slot<B>>, ch: Change<B>, n: nat): seq<Slot<B>>
  {
    match ch
    case Store(e, same) => SlotStore(l, SlotPurge(slots, l.ttl, e.at), e, same, n)
    case Sweep(at) => SlotPurge(slots, l.ttl, at)
    case Nothing => slots
  }

  function Slots<B>(l: Limits, changes: seq<Change<B>>): seq<Slot<B>>
  {
    if changes == [] then []
    else
      var n := |changes| - 1;
      SlotStep(l, Slots(l, changes[..n]), changes[n], n)
  }

  lemma {:induction false} EntriesPurged<B>(slots: seq<Slot<B>>, ttl: nat, now: Time)
    ensures Entries(SlotPurge(slots, ttl, now)) == Purge(Entries(slots), ttl, now)
  {
    if slots != [] {
      var n := |slots| - 1;
      EntriesPurged(slots[..n], ttl, now);
      assert Entries(slots)[..n] == Entries(slots[..n]);
    }
  }

  lemma EntriesRemoved<B>(slots: seq<Slot<B>>, i: nat)
    requires i < |slots|
    ensures Entries(RemoveAt(slots, i)) == RemoveAt(Entries(slots), i)
  {
  }

  lemma EntriesStored<B>(l: Limits, slots: seq<Slot<B>>, e: Stored<B>, same: Stored<B> -> bool, n: nat)
    ensures Entries(SlotStore(l, slots, e, same, n)) == Upsert(Entries(slots), l.capacity, l.quota, same, e)
  {
    hide Filter, First, Oldest, RemoveAt;
    var es := Entries(slots);
    match First(es, same)
    case Some(i) =>
      assert Entries(slots[i := Slot(slots[i].born, n, e)]) == es[i := e];
    case None =>
      var trimmed := SlotTrim(slots, l.quota, e.target);
      if First(es, For(e.target)).Some? { EntriesRemoved(slots, First(es, For(e.target)).value); }
      assert Entries(trimmed) == TrimTarget(es, l.quota, e.target);
      if trimmed != [] { EntriesRemoved(trimmed, Oldest(Entries(trimmed))); }
      assert Entries(SlotRoom(trimmed, l.capacity)) == MakeRoom(Entries(trimmed), l.capacity);
      assert Entries(SlotRoom(trimmed, l.capacity) + [Slot(n, n, e)])
          == Entries(SlotRoom(trimmed, l.capacity)) + [e];
  }

  lemma EntriesStep<B>(l: Limits, slots: seq<Slot<B>>, ch: Change<B>, n: nat)
    ensures Entries(SlotStep(l, slots, ch, n)) == Apply(l, Entries(slots), ch)
  {
    hide Purge, SlotPurge, SlotStore, Upsert;
    match ch
    case Store(e, same) =>
      EntriesPurged(slots, l.ttl, e.at);
      EntriesStored(l, SlotPurge(slots, l.ttl, e.at), e, same, n);
    case Sweep(at) => EntriesPurged(slots, l.ttl, at);
    case Nothing =>
  }

  // ---- the order of slots -------------------------------------------------------------------------------------------

  /** The slot was last published into by the operation it says. */
  ghost predicate InHistory<B>(s: Slot<B>, changes: seq<Change<B>>)
  {
    s.born <= s.touched < |changes| && changes[s.touched].Store? && changes[s.touched].entry == s.entry
  }

  ghost predicate ByCreation<B>(slots: seq<Slot<B>>)
  {
    forall i, j :: 0 <= i < j < |slots| ==> slots[i].born < slots[j].born
  }

  lemma {:induction false} FilterByCreation<B>(slots: seq<Slot<B>>, p: Slot<B> -> bool)
    requires ByCreation(slots)
    ensures ByCreation(Filter(slots, p))
  {
    if slots != [] {
      var (front, s) := (slots[..|slots| - 1], slots[|slots| - 1]);
      FilterByCreation(front, p);
      forall i | 0 <= i < |Filter(front, p)| ensures Filter(front, p)[i].born < s.born {
        FilterMember(front, p, Filter(front, p)[i]);
      }
    }
  }

  lemma RemoveByCreation<B>(slots: seq<Slot<B>>, i: nat)
    requires i < |slots| && ByCreation(slots)
    ensures ByCreation(RemoveAt(slots, i))
    ensures forall s :: s in RemoveAt(slots, i) ==> s in slots
  {
  }

  lemma RoomByCreation<B>(slots: seq<Slot<B>>, l: Limits, target: Id)
    requires ByCreation(slots)
    ensures ByCreation(SlotRoom(SlotTrim(slots, l.quota, target), l.capacity))
    ensures forall s :: s in SlotRoom(SlotTrim(slots, l.quota, target), l.capacity) ==> s in slots
  {
    hide ByCreation, RemoveAt, CountFor, First, Oldest;
    var es := Entries(slots);
    if First(es, For(target)).Some? { RemoveByCreation(slots, First(es, For(target)).value); }
    var trimmed := SlotTrim(slots, l.quota, target);
    if trimmed != [] { RemoveByCreation(trimmed, Oldest(Entries(trimmed))); }
  }

  /** What a publish puts into the list: the slot it replaces keeps its place and birth. */
  function Published<B>(slots: seq<Slot<B>>, e: Stored<B>, same: Stored<B> -> bool, n: nat): Slot<B>
  {
    match First(Entries(slots), same)
    case Some(i) => Slot(slots[i].born, n, e)
    case None => Slot(n, n, e)
  }

  lemma StoreKeeps<B>(l: Limits, slots: seq<Slot<B>>, e: Stored<B>, same: Stored<B> -> bool, n: nat)
    requires ByCreation(slots) && forall s :: s in slots ==> s.born < n
    ensures ByCreation(SlotStore(l, slots, e, same, n))
    ensures forall s :: s in SlotStore(l, slots, e, same, n) ==> s in slots || s == Published(slots, e, same, n)
    ensures Published(slots, e, same, n) in SlotStore(l, slots, e, same, n)
  {
    hide First, SlotRoom, SlotTrim;
    var r := SlotStore(l, slots, e, same, n);
    match First(Entries(slots), same)
    case Some(i) => assert r[i] == Published(slots, e, same, n);
    case None =>
      RoomByCreation(slots, l, e.target);
      assert r[|r| - 1] == Published(slots, e, same, n);
  }

  lemma StepKeeps<B>(l: Limits, slots: seq<Slot<B>>, ch: Change<B>, n: nat)
    requires ByCreation(slots) && forall s :: s in slots ==> s.born < n
    ensures ByCreation(SlotStep(l, slots, ch, n))
    ensures forall s :: s in SlotStep(l, slots, ch, n) ==> s in slots || (ch.Store? && s == Arrived(l, slots, ch, n))
    ensures ch.Store? ==>
              && Arrived(l, slots, ch, n) in SlotStep(l, slots, ch, n)
              && forall s :: s in SlotStep(l, slots, ch, n) ==>
                   s in SlotPurge(slots, l.ttl, ch.entry.at) || s == Arrived(l, slots, ch, n)
  {
    hide ByCreation, Filter, SlotStore, Published;
    match ch
    case Store(e, same) =>
      FilterByCreation(slots, LiveSlot(l.ttl, e.at));
      forall s | s in SlotPurge(slots, l.ttl, e.at) ensures s in slots {
        FilterMember(slots, LiveSlot(l.ttl, e.at), s);
      }
      StoreKeeps(l, SlotPurge(slots, l.ttl, e.at), e, same, n);
    case Sweep(at) =>
      FilterByCreation(slots, LiveSlot(l.ttl, at));
      forall s | s in SlotPurge(slots, l.ttl, at) ensures s in slots { FilterMember(slots, LiveSlot(l.ttl, at), s); }
    case Nothing =>
  }

  function Arrived<B>(l: Limits, slots: seq<Slot<B>>, ch: Change<B>, n: nat): Slot<B>
    requires ch.Store?
  {
    Published(SlotPurge(slots, l.ttl, ch.entry.at), ch.entry, ch.same, n)
  }

  lemma ArrivedFields<B>(l: Limits, slots: seq<Slot<B>>, ch: Change<B>, n: nat)
    requires ch.Store? && forall s :: s in slots ==> s.born < n
    ensures var a := Arrived(l, slots, ch, n); a.touched == n && a.entry == ch.entry && a.born <= n
  {
    var before := SlotPurge(slots, l.ttl, ch.entry.at);
    match First(Entries(before), ch.same)
    case Some(i) => FilterMember(slots, LiveSlot(l.ttl, ch.entry.at), before[i]);
    case None =>
  }

  /** The order of entries is the order in which their slots were created, whatever was republished since. */
  lemma {:induction false} CreationOrder<B>(l: Limits, changes: seq<Change<B>>)
    ensures ByCreation(Slots(l, changes)) && forall s :: s in Slots(l, changes) ==> InHistory(s, changes)
  {
    hide ByCreation, SlotStep, Arrived;
    if changes == [] {
      NoSlots<B>();
    } else {
      var n := |changes| - 1;
      var (front, ch) := (changes[..n], changes[n]);
      CreationOrder(l, front);
      StepKeeps(l, Slots(l, front), ch, n);
      if ch.Store? { ArrivedFields(l, Slots(l, front), ch, n); }
    }
  }

  lemma NoSlots<B>()
    ensures ByCreation<B>([])
  {
  }

  /** A slot not touched from operation `k` on was there before it. */
  lemma {:induction false} Untouched<B>(l: Limits, changes: seq<Change<B>>, k: nat, s: Slot<B>)
    requires k <= |changes| && s in Slots(l, changes) && s.touched < k
    ensures s in Slots(l, changes[..k])
  {
    hide SlotStep, Arrived, ByCreation;
    if k == |changes| {
      assert changes[..k] == changes;
    } else {
      var n := |changes| - 1;
      var front := changes[..n];
      CreationOrder(l, front);
      StepKeeps(l, Slots(l, front), changes[n], n);
      if changes[n].Store? { ArrivedFields(l, Slots(l, front), changes[n], n); }
      Untouched(l, front, k, s);
      assert front[..k] == changes[..k];
    }
  }

  // ---- newest first ---------------------------------------------------------------------------------------------

  ghost predicate NewestFirst<B>(list: seq<Stored<B>>)
  {
    forall i, j :: 0 <= i < j < |list| ==> list[i].at >= list[j].at
  }

  ghost predicate InOrder<B>(es: seq<Stored<B>>, want: Stored<B> -> bool)
  {
    forall i, j :: 0 <= i < j < |es| && want(es[i]) && want(es[j]) ==> es[i].at <= es[j].at
  }

  ghost predicate Timely<B>(changes: seq<Change<B>>)
  {
    forall i, j :: 0 <= i < j < |changes| && changes[i].Store? && changes[j].Store? ==>
                     changes[i].entry.at <= changes[j].entry.at
  }

  /** What publish `k` finds. */
  function Found<B>(l: Limits, changes: seq<Change<B>>, k: nat): seq<Slot<B>>
    requires k < |changes| && changes[k].Store?
  {
    SlotPurge(Slots(l, changes[..k]), l.ttl, changes[k].entry.at)
  }

  /** The slot of the earlier entry that publish `k` replaces. */
  function Refreshed<B>(l: Limits, changes: seq<Change<B>>, k: nat): Option<nat>
    requires k < |changes| && changes[k].Store?
  {
    First(Entries(Found(l, changes, k)), changes[k].same)
  }

  /** Publish `k` refreshed a wanted entry in place, in front of an older wanted one that has not been published
      again since; and both are still there. */
  ghost predicate Overtakes<B>(l: Limits, changes: seq<Change<B>>, k: nat, want: Stored<B> -> bool)
  {
    && k < |changes| && changes[k].Store? && Refreshed(l, changes, k).Some?
    && var (found, i) := (Found(l, changes, k), Refreshed(l, changes, k).value);
       && (exists j :: i < j < |found| && found[j].entry.at < changes[k].entry.at
                       && found[j] in Slots(l, changes) && want(found[j].entry))
       && (exists s :: s in Slots(l, changes) && s.born == found[i].born && want(s.entry))
  }

  lemma {:induction false} FilterInOrder<B>(es: seq<Stored<B>>, want: Stored<B> -> bool)
    ensures InOrder(es, want) <==> InOrder(Filter(es, want), want)
  {
    hide InOrder;
    if es == [] {
      assert Filter(es, want) == es;
    } else {
      hide Filter;
      var (front, x) := (es[..|es| - 1], es[|es| - 1]);
      FilterInOrder(front, want);
      InOrderSnoc(front, x, want);
      InOrderSnoc(Filter(front, want), x, want);
      FilterSnoc(front, x, want);
      assert es == front + [x];
      assert Filter(es, want) == if want(x) then Filter(front, want) + [x] else Filter(front, want);
      UpToIs(front, x.at, want);
    }
  }

  ghost predicate UpTo<B>(es: seq<Stored<B>>, at: Time, want: Stored<B> -> bool)
  {
    forall i :: 0 <= i < |es| && want(es[i]) ==> es[i].at <= at
  }

  lemma UpToIs<B>(es: seq<Stored<B>>, at: Time, want: Stored<B> -> bool)
    ensures UpTo(es, at, want) <==> UpTo(Filter(es, want), at, want)
  {
    hide Filter;
    var kept := Filter(es, want);
    if UpTo(es, at, want) {
      forall i | 0 <= i < |kept| ensures kept[i].at <= at { FilterMember(es, want, kept[i]); }
    }
    if UpTo(kept, at, want) {
      forall i | 0 <= i < |es| && want(es[i]) ensures es[i].at <= at { FilterMember(es, want, es[i]); }
    }
  }

  lemma InOrderSnoc<B>(es: seq<Stored<B>>, x: Stored<B>, want: Stored<B> -> bool)
    ensures InOrder(es + [x], want) <==> InOrder(es, want) && (want(x) ==> UpTo(es, x.at, want))
  {
    var all := es + [x];
    if InOrder(all, want) {
      forall i, j | 0 <= i < j < |es| && want(es[i]) && want(es[j]) ensures es[i].at <= es[j].at {
        assert all[i] == es[i] && all[j] == es[j];
      }
      forall i | 0 <= i < |es| && want(es[i]) && want(x) ensures es[i].at <= x.at {
        assert all[i] == es[i] && all[|es|] == x;
      }
    }
  }

  lemma NewestFirstIs<B>(es: seq<Stored<B>>, want: Stored<B> -> bool)
    ensures NewestFirst(Reversed(Filter(es, want))) <==> InOrder(es, want)
  {
    FilterInOrder(es, want);
    hide Filter;
    var kept := Filter(es, want);
    forall i | 0 <= i < |kept| ensures want(kept[i]) { FilterMember(es, want, kept[i]); }
    var list := Reversed(kept);
    if NewestFirst(list) {
      forall i, j | 0 <= i < j < |kept| ensures kept[i].at <= kept[j].at {
        assert kept[i] == list[|kept| - 1 - i] && kept[j] == list[|kept| - 1 - j];
      }
    }
  }

  /** Two entries out of order: the one in front was refreshed past the other. */
  lemma OvertakerExists<B>(l: Limits, changes: seq<Change<B>>, want: Stored<B> -> bool, x: nat, y: nat)
    requires Timely(changes)
    requires var slots := Slots(l, changes);
             && x < y < |slots| && want(slots[x].entry) && want(slots[y].entry)
             && slots[x].entry.at > slots[y].entry.at
    ensures Overtakes(l, changes, Slots(l, changes)[x].touched, want)
  {
    hide SlotStep, Slots;
    var slots := Slots(l, changes);
    var (a, b) := (slots[x], slots[y]);
    CreationOrder(l, changes);
    var k := a.touched;
    assert InHistory(a, changes) && InHistory(b, changes);
    assert b.touched < k;
    JustPublished(l, changes, a);
    StillFound(l, changes, k, b);
    var (found, i) := (Found(l, changes, k), Refreshed(l, changes, k).value);
    var j :| 0 <= j < |found| && found[j] == b;
    FoundByCreation(l, changes, k);
    assert i < j;
  }

  lemma FoundByCreation<B>(l: Limits, changes: seq<Change<B>>, k: nat)
    requires k < |changes| && changes[k].Store?
    ensures ByCreation(Found(l, changes, k))
  {
    CreationOrder(l, changes[..k]);
    FilterByCreation(Slots(l, changes[..k]), LiveSlot(l.ttl, changes[k].entry.at));
  }

  lemma NextSlots<B>(l: Limits, changes: seq<Change<B>>, k: nat)
    requires k < |changes|
    ensures Slots(l, changes[..k + 1]) == SlotStep(l, Slots(l, changes[..k]), changes[k], k)
  {
    assert changes[..k + 1][..k] == changes[..k];
  }

  /** A slot last touched by operation `k` but born earlier was refreshed by it. */
  lemma JustPublished<B>(l: Limits, changes: seq<Change<B>>, a: Slot<B>)
    requires a in Slots(l, changes) && a.born < a.touched
    ensures InHistory(a, changes) && Refreshed(l, changes, a.touched).Some?
    ensures Found(l, changes, a.touched)[Refreshed(l, changes, a.touched).value].born == a.born
  {
    hide SlotStep, Slots, ByCreation, First;
    CreationOrder(l, changes);
    var k := a.touched;
    Untouched(l, changes, k + 1, a);
    NextSlots(l, changes, k);
    CreationOrder(l, changes[..k]);
    StepKeeps(l, Slots(l, changes[..k]), changes[k], k);
  }

  /** A slot not touched since operation `k` was found by it. */
  lemma StillFound<B>(l: Limits, changes: seq<Change<B>>, k: nat, b: Slot<B>)
    requires k < |changes| && changes[k].Store? && b in Slots(l, changes) && b.touched < k
    ensures b in Found(l, changes, k)
  {
    hide SlotStep, Slots, ByCreation, Arrived;
    Untouched(l, changes, k + 1, b);
    NextSlots(l, changes, k);
    CreationOrder(l, changes[..k]);
    StepKeeps(l, Slots(l, changes[..k]), changes[k], k);
    ArrivedFields(l, Slots(l, changes[..k]), changes[k], k);
  }

  lemma OvertakenOutOfOrder<B>(l: Limits, changes: seq<Change<B>>, want: Stored<B> -> bool, k: nat)
    requires Timely(changes) && Overtakes(l, changes, k, want)
    ensures !InOrder(Entries(Slots(l, changes)), want)
  {
    hide SlotStep, Slots, InOrder, First;
    var slots := Slots(l, changes);
    var (found, i) := (Found(l, changes, k), Refreshed(l, changes, k).value);
    var j :| i < j < |found| && found[j].entry.at < changes[k].entry.at && found[j] in slots && want(found[j].entry);
    var a :| a in slots && a.born == found[i].born && want(a.entry);
    CreationOrder(l, changes);
    FoundByCreation(l, changes, k);
    TouchedSince(l, changes, k, a);
    assert InHistory(a, changes);
    OutOfOrder(slots, a, found[j], want);
  }

  lemma OutOfOrder<B>(slots: seq<Slot<B>>, a: Slot<B>, b: Slot<B>, want: Stored<B> -> bool)
    requires ByCreation(slots) && a in slots && b in slots && a.born < b.born
    requires want(a.entry) && want(b.entry) && a.entry.at > b.entry.at
    ensures !InOrder(Entries(slots), want)
  {
    var x, y :| 0 <= x < |slots| && 0 <= y < |slots| && slots[x] == a && slots[y] == b;
    assert x < y;
    assert Entries(slots)[x] == a.entry && Entries(slots)[y] == b.entry;
  }

  /** The slot refreshed by operation `k` has not been touched earlier than that. */
  lemma TouchedSince<B>(l: Limits, changes: seq<Change<B>>, k: nat, a: Slot<B>)
    requires k < |changes| && changes[k].Store? && Refreshed(l, changes, k).Some? && a in Slots(l, changes)
    requires a.born == Found(l, changes, k)[Refreshed(l, changes, k).value].born
    ensures a.touched >= k
  {
    hide SlotStep, Slots, First, Refreshed;
    if a.touched < k {
      Untouched(l, changes, k + 1, a);
      NextSlots(l, changes, k);
      var before := Slots(l, changes[..k]);
      CreationOrder(l, changes[..k]);
      StepKeeps(l, before, changes[k], k);
      ArrivedFields(l, before, changes[k], k);
      ArrivedBirth(l, changes, k);
      SameBirth(SlotStep(l, before, changes[k], k), a, Arrived(l, before, changes[k], k));
      assert false;
    }
  }

  lemma ArrivedBirth<B>(l: Limits, changes: seq<Change<B>>, k: nat)
    requires k < |changes| && changes[k].Store? && Refreshed(l, changes, k).Some?
    ensures Arrived(l, Slots(l, changes[..k]), changes[k], k).born
            == Found(l, changes, k)[Refreshed(l, changes, k).value].born
  {
  }

  lemma SameBirth<B>(slots: seq<Slot<B>>, a: Slot<B>, b: Slot<B>)
    requires ByCreation(slots) && a in slots && b in slots && a.born == b.born
    ensures a == b
  {
  }

  /** With non-decreasing times, the wanted entries from the last slot back are newest first if and only if no
      publish overtook one of them. */
  lemma NewestFirstIff<B>(l: Limits, changes: seq<Change<B>>, want: Stored<B> -> bool)
    requires Timely(changes)
    ensures NewestFirst(Reversed(Filter(Entries(Slots(l, changes)), want)))
            <==> !exists k :: Overtakes(l, changes, k, want)
  {
    hide Slots, Overtakes, Filter;
    var slots := Slots(l, changes);
    NewestFirstIs(Entries(slots), want);
    if !InOrder(Entries(slots), want) {
      var x, y :| 0 <= x < y < |slots| && want(slots[x].entry) && want(slots[y].entry)
                  && slots[x].entry.at > slots[y].entry.at;
      OvertakerExists(l, changes, want, x, y);
    }
    if k :| Overtakes(l, changes, k, want) { OvertakenOutOfOrder(l, changes, want, k); }
  }

  // ---- a simpler condition that suffices ------------------------------------------------------------------------

  /** Publishes only replace entries of their own target. */
  ghost predicate Targeted<B(!new)>(changes: seq<Change<B>>)
  {
    forall k :: 0 <= k < |changes| && changes[k].Store? ==> SameTarget(changes[k].same, changes[k].entry.target)
  }

  /** Publish `k` replaced an entry of the target standing before an older one of it. */
  ghost predicate RefreshesInFront<B>(l: Limits, changes: seq<Change<B>>, k: nat, target: Id)
  {
    && k < |changes| && changes[k].Store? && changes[k].entry.target == target && Refreshed(l, changes, k).Some?
    && var found := Found(l, changes, k);
       exists j :: Refreshed(l, changes, k).value < j < |found| && found[j].entry.target == target
                   && found[j].entry.at < changes[k].entry.at
  }

  /** A slot belongs to the target it was created for. */
  ghost predicate KeptTarget<B>(s: Slot<B>, changes: seq<Change<B>>)
  {
    s.born < |changes| && changes[s.born].Store? && changes[s.born].entry.target == s.entry.target
  }

  lemma ArrivedTarget<B(!new)>(l: Limits, changes: seq<Change<B>>, n: nat)
    requires n < |changes| && changes[n].Store? && Targeted(changes)
    requires forall s :: s in Slots(l, changes[..n]) ==> KeptTarget(s, changes)
    ensures KeptTarget(Arrived(l, Slots(l, changes[..n]), changes[n], n), changes)
  {
    hide Slots, SlotPurge;
    var found := Found(l, changes, n);
    match First(Entries(found), changes[n].same)
    case Some(i) =>
      assert SameTarget(changes[n].same, changes[n].entry.target);
      FoundMember(l, changes, n, found[i]);
    case None =>
  }

  lemma FoundMember<B>(l: Limits, changes: seq<Change<B>>, k: nat, s: Slot<B>)
    requires k < |changes| && changes[k].Store? && s in Found(l, changes, k)
    ensures s in Slots(l, changes[..k])
  {
    FilterMember(Slots(l, changes[..k]), LiveSlot(l.ttl, changes[k].entry.at), s);
  }

  lemma {:induction false} TargetsKept<B(!new)>(l: Limits, changes: seq<Change<B>>, n: nat)
    requires n <= |changes| && Targeted(changes)
    ensures forall s :: s in Slots(l, changes[..n]) ==> KeptTarget(s, changes)
  {
    hide SlotStep, Arrived, KeptTarget, ByCreation;
    if n == 0 {
      assert Slots(l, changes[..n]) == [];
    } else {
      var k := n - 1;
      TargetsKept(l, changes, k);
      NextSlots(l, changes, k);
      CreationOrder(l, changes[..k]);
      StepKeeps(l, Slots(l, changes[..k]), changes[k], k);
      if changes[k].Store? { ArrivedTarget(l, changes, k); }
    }
  }

  /** Whoever overtakes refreshes in front. */
  lemma OvertakerInFront<B(!new)>(
    l: Limits, changes: seq<Change<B>>, want: Stored<B> -> bool, target: Id, k: nat)
    requires Targeted(changes) && SameTarget(want, target) && Overtakes(l, changes, k, want)
    ensures RefreshesInFront(l, changes, k, target)
  {
    hide Slots, SlotPurge;
    var (found, i) := (Found(l, changes, k), Refreshed(l, changes, k).value);
    var a :| a in Slots(l, changes) && a.born == found[i].born && want(a.entry);
    TargetsKept(l, changes, k);
    TargetsKept(l, changes, |changes|);
    assert changes[..|changes|] == changes;
    FoundMember(l, changes, k, found[i]);
    assert KeptTarget(a, changes) && KeptTarget(found[i], changes);
    assert SameTarget(changes[k].same, changes[k].entry.target);
  }

  /** So the order is newest first if no publish replaced an entry of the target before an older one. */
  lemma NewestFirstIfInPlace<B(!new)>(l: Limits, changes: seq<Change<B>>, want: Stored<B> -> bool, target: Id)
    requires Timely(changes) && Targeted(changes) && SameTarget(want, target)
    requires forall k :: !RefreshesInFront(l, changes, k, target)
    ensures NewestFirst(Reversed(Filter(Entries(Slots(l, changes)), want)))
  {
    hide Slots, Overtakes, Filter, NewestFirst, RefreshesInFront;
    NewestFirstIff(l, changes, want);
    if k :| Overtakes(l, changes, k, want) { OvertakerInFront(l, changes, want, target, k); }
  }

  // ---- notes ----------------------------------------------------------------------------------------------------

  function NoteLimits(c: StoreConfig): Limits
  {
    Limits(c.notesTtl, c.notesCapacity, Some(STOCK_MAX_NOTES_PER_FILE))
  }

  function NoteChange(c: StoreConfig, op: Op): Change<NotesBody>
  {
    if c.enabled && op.NotesOp? && Notable(op.note)
    then Store(NotesEntry(op.note, op.at), SameNote(op.note.target, op.note.publisher, op.note.ip))
    else if c.enabled && op.NotesSearch? && op.limit > 0 then Sweep(op.at)
    else Nothing
  }

  function NoteChanges(c: StoreConfig, ops: seq<Op>): (r: seq<Change<NotesBody>>)
    ensures |r| == |ops| && forall i :: 0 <= i < |ops| ==> r[i] == NoteChange(c, ops[i])
  {
    seq(|ops|, i requires 0 <= i < |ops| => NoteChange(c, ops[i]))
  }

  lemma {:induction false} NoteSlotsAre(c: StoreConfig, ops: seq<Op>)
    ensures Entries(Slots(NoteLimits(c), NoteChanges(c, ops))) == Run(c, ops).notes
  {
    hide SlotStep, Step, Apply, NoteChange;
    if ops != [] {
      var (front, op) := (ops[..|ops| - 1], ops[|ops| - 1]);
      NoteSlotsAre(c, front);
      assert NoteChanges(c, ops)[..|ops| - 1] == NoteChanges(c, front);
      EntriesStep(NoteLimits(c), Slots(NoteLimits(c), NoteChanges(c, front)), NoteChange(c, op), |ops| - 1);
      NoteStepIs(c, Run(c, front), op);
    }
  }

  lemma NoteStepIs(c: StoreConfig, s: State, op: Op)
    ensures Step(c, s, op).notes == Apply(NoteLimits(c), s.notes, NoteChange(c, op))
  {
    hide Purge, PublishAll, StoreSource, Upsert, Notable, Filter;
  }

  lemma NotesTimely(c: StoreConfig, ops: seq<Op>)
    requires Ordered(ops)
    ensures Timely(NoteChanges(c, ops)) && Targeted(NoteChanges(c, ops))
  {
    hide Notable;
  }

  /** Some publish of the run refreshed a note that the search wants past an older one it also wants. */
  ghost predicate NotesOvertaken(c: StoreConfig, ops: seq<Op>, want: Note -> bool)
  {
    exists k :: Overtakes(NoteLimits(c), NoteChanges(c, ops), k, want)
  }

  /** After any run with non-decreasing times: a notes search returns the first `limit` of its live notes from the
      last slot back. They are newest first if and only if no publish overtook one of them, so certainly if no
      publish replaced a note of the file standing before an older one. */
  lemma NotesNewestFirstIff(c: StoreConfig, ops: seq<Op>, target: Id, size: nat, now: Time)
    requires Ordered(ops)
    ensures var (es, want) := (Run(c, ops).notes, WantedNote(c.notesTtl, now, target, size));
            var all := Reversed(Filter(es, want));
            && (forall limit: nat :: NotesResults(Purge(es, c.notesTtl, now), target, size, limit)
                                     == Truncate(all, limit))
            && (NewestFirst(all) <==> !NotesOvertaken(c, ops, want))
            && ((forall k :: !RefreshesInFront(NoteLimits(c), NoteChanges(c, ops), k, target)) ==> NewestFirst(all))
  {
    hide Run, Filter, Slots, NewestFirst, Overtakes, RefreshesInFront, NotesResults, Truncate, Timely, Targeted;
    var (es, want) := (Run(c, ops).notes, WantedNote(c.notesTtl, now, target, size));
    var (l, changes) := (NoteLimits(c), NoteChanges(c, ops));
    forall limit: nat
      ensures NotesResults(Purge(es, c.notesTtl, now), target, size, limit)
           == Truncate(Reversed(Filter(es, want)), limit)
    {
      NotesAnswer(es, c.notesTtl, now, target, size, limit);
    }
    NoteSlotsAre(c, ops);
    NotesTimely(c, ops);
    NewestFirstIff(l, changes, want);
    if forall k :: !RefreshesInFront(l, changes, k, target) { NewestFirstIfInPlace(l, changes, want, target); }
  }

  lemma NewNote(c: StoreConfig, ops: seq<Op>, p: NotesPublish, at: Time)
    requires c.enabled && Notable(p) && |Run(c, ops).notes| < Min(c.notesCapacity, STOCK_MAX_NOTES_PER_FILE)
    requires forall e :: e in Run(c, ops).notes ==>
                           e.at + c.notesTtl > at && e.body.ip != p.ip && e.body.publisher != p.publisher
    ensures Run(c, ops + [NotesOp(p, at)]).notes == Run(c, ops).notes + [NotesEntry(p, at)]
  {
    hide Run, Notable, Upsert, First;
    var es := Run(c, ops).notes;
    RunSnoc(c, ops, NotesOp(p, at));
    PurgeNothing(es, c.notesTtl, at);
    StoredBehind(es, c.notesCapacity, STOCK_MAX_NOTES_PER_FILE, SameNote(p.target, p.publisher, p.ip),
                 NotesEntry(p, at));
  }

  lemma FirstNoteAgain(c: StoreConfig, ops: seq<Op>, p: NotesPublish, at: Time)
    requires c.enabled && Notable(p) && Run(c, ops).notes != []
    requires forall e :: e in Run(c, ops).notes ==> e.at + c.notesTtl > at
    requires SameNote(p.target, p.publisher, p.ip)(Run(c, ops).notes[0])
    ensures Run(c, ops + [NotesOp(p, at)]).notes == Run(c, ops).notes[0 := NotesEntry(p, at)]
  {
    hide Run, Notable;
    RunSnoc(c, ops, NotesOp(p, at));
    PurgeNothing(Run(c, ops).notes, c.notesTtl, at);
  }

  /** Two notes by different publishers, and then the first publisher again. */
  function Renote(a: NotesPublish, b: NotesPublish, again: NotesPublish, at: Time): seq<Op>
  {
    [NotesOp(a, at), NotesOp(b, at + 1), NotesOp(again, at + 2)]
  }

  /** The smallest failure: the republished note is the newest, and a search limited to one note returns the other. */
  lemma NewestNoteMissed(c: StoreConfig, a: NotesPublish, b: NotesPublish, again: NotesPublish, at: Time)
    requires c.enabled && c.notesCapacity >= 2 && c.notesTtl > 2 && Notable(a) && Notable(b) && Notable(again)
    requires a.target == b.target == again.target && a.publisher != b.publisher && a.ip != b.ip
    requires again.publisher == a.publisher || again.ip == a.ip
    ensures Ordered(Renote(a, b, again, at))
    ensures var es := Run(c, Renote(a, b, again, at)).notes;
            && es == [NotesEntry(again, at + 2), NotesEntry(b, at + 1)]
            && NotesResults(Purge(es, c.notesTtl, at + 2), a.target, 0, 1) == [NotesEntry(b, at + 1)]
  {
    hide Run, Notable, NotesResults, Filter;
    EmptyRun(c);
    NewNote(c, [], a, at);
    NewNote(c, [] + [NotesOp(a, at)], b, at + 1);
    FirstNoteAgain(c, [] + [NotesOp(a, at)] + [NotesOp(b, at + 1)], again, at + 2);
    assert [] + [NotesOp(a, at)] + [NotesOp(b, at + 1)] + [NotesOp(again, at + 2)] == Renote(a, b, again, at);
    var es := Run(c, Renote(a, b, again, at)).notes;
    assert es == [NotesEntry(again, at + 2), NotesEntry(b, at + 1)];
    FilterAll(es, WantedNote(c.notesTtl, at + 2, a.target, 0));
    NotesAnswer(es, c.notesTtl, at + 2, a.target, 0, 1);
  }

  // ---- sources --------------------------------------------------------------------------------------------------

  function SourceLimits(c: StoreConfig): Limits
  {
    Limits(c.sourceTtl, c.sourceCapacity, Some(STOCK_MAX_SOURCES_PER_FILE))
  }

  function SourceChange(c: StoreConfig, op: Op): Change<SourceBody>
  {
    if c.enabled && op.SourceOp? && Storable(op.source)
    then
      var e := SourceEntry(op.source, op.at);
      Store(e, SameSource(e.target, e.body.ip, e.body.tcp, e.body.udp))
    else if c.enabled && op.SourceSearch? && op.limit > 0 then Sweep(op.at)
    else Nothing
  }

  function SourceChanges(c: StoreConfig, ops: seq<Op>): (r: seq<Change<SourceBody>>)
    ensures |r| == |ops| && forall i :: 0 <= i < |ops| ==> r[i] == SourceChange(c, ops[i])
  {
    seq(|ops|, i requires 0 <= i < |ops| => SourceChange(c, ops[i]))
  }

  lemma {:induction false} SourceSlotsAre(c: StoreConfig, ops: seq<Op>)
    ensures Entries(Slots(SourceLimits(c), SourceChanges(c, ops))) == Run(c, ops).sources
  {
    hide SlotStep, Step, Apply, SourceChange;
    if ops != [] {
      var (front, op) := (ops[..|ops| - 1], ops[|ops| - 1]);
      SourceSlotsAre(c, front);
      assert SourceChanges(c, ops)[..|ops| - 1] == SourceChanges(c, front);
      EntriesStep(SourceLimits(c), Slots(SourceLimits(c), SourceChanges(c, front)), SourceChange(c, op), |ops| - 1);
      SourceStepIs(c, Run(c, front), op);
    }
  }

  lemma SourceStepIs(c: StoreConfig, s: State, op: Op)
    ensures Step(c, s, op).sources == Apply(SourceLimits(c), s.sources, SourceChange(c, op))
  {
    hide Purge, PublishAll, StoreNote, Upsert, Storable, Filter;
  }

  lemma SourcesTimely(c: StoreConfig, ops: seq<Op>)
    requires Ordered(ops)
    ensures Timely(SourceChanges(c, ops)) && Targeted(SourceChanges(c, ops))
  {
    hide Storable;
  }

  ghost predicate SourcesOvertaken(c: StoreConfig, ops: seq<Op>, want: Source -> bool)
  {
    exists k :: Overtakes(SourceLimits(c), SourceChanges(c, ops), k, want)
  }

  /** The same for the list of sources that the offset of a source search counts through. */
  lemma SourcesNewestFirstIff(c: StoreConfig, ops: seq<Op>, target: Id, now: Time)
    requires Ordered(ops)
    ensures var all := BackToFront(Run(c, ops).sources, c.sourceTtl, now, target);
            && (NewestFirst(all) <==> !SourcesOvertaken(c, ops, Wanted(c.sourceTtl, now, target)))
            && ((forall k :: !RefreshesInFront(SourceLimits(c), SourceChanges(c, ops), k, target)) ==>
                  NewestFirst(all))
  {
    hide Run, Filter, Slots, NewestFirst, Overtakes, RefreshesInFront, Timely, Targeted;
    var (l, changes) := (SourceLimits(c), SourceChanges(c, ops));
    var want: Source -> bool := Wanted(c.sourceTtl, now, target);
    SourceSlotsAre(c, ops);
    SourcesTimely(c, ops);
    NewestFirstIff(l, changes, want);
    if forall k :: !RefreshesInFront(l, changes, k, target) { NewestFirstIfInPlace(l, changes, want, target); }
  }
}
