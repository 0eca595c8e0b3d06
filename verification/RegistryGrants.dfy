/** What each caller of the workspace registry gets
    (src/cmd/ragrep/daemon.go:253-440, 480-670, 732-850). */
module RegistryGrants {
  import opened Options
  import opened Registry

  /** The workspace a listed slot holds. */
  function Held(s: State, slot: Slot): Option<nat>
    requires Shaped(s)
  {
    if slot in s.entries then s.heap[s.entries[slot]].state else None
  }

  function HoldersOf(s: State, e: nat): set<nat> {
    if e < |s.heap| then s.heap[e].holders else {}
  }

  /** The slot is listed with an open workspace, the one it held if it held one. */
  predicate Serves(s: State, s': State, slot: Slot)
    requires Shaped(s)
  {
    && slot in s'.entries && s'.entries[slot] < |s'.heap| && s'.heap[s'.entries[slot]].state.Some?
    && (slot in s.entries ==> s'.entries[slot] == s.entries[slot])
    && (Held(s, slot).Some? ==> s'.heap[s'.entries[slot]].state == Held(s, slot))
  }

  /** Nobody gets a lease. */
  predicate NoLease(s: State, s': State) {
    s'.nextHolder == s.nextHolder && forall e :: 0 <= e < |s'.heap| ==> HoldersOf(s', e) <= HoldersOf(s, e)
  }

  /** The caller, and nobody else, gets a lease on entry e, which no timer can evict. */
  predicate LeasedAt(s: State, s': State, e: nat) {
    && e < |s'.heap| && Listed(s', e) && s'.heap[e].state.Some?
    && s.nextHolder !in HoldersOf(s, e) && s'.heap[e].holders == HoldersOf(s, e) + {s.nextHolder}
    && s'.heap[e].leases == |s'.heap[e].holders| && !s'.heap[e].timer && s'.nextHolder == s.nextHolder + 1
    && (forall x :: 0 <= x < |s'.heap| && x != e ==> HoldersOf(s', x) == HoldersOf(s, x))
    && (forall t :: t in s'.timers && t.entry == e ==> !Evicts(s', t) && t.epoch < s'.heap[e].epoch)
  }

  // ---- the pieces ----

  /** Looking a slot up, and making an empty entry for it when there is none. */
  ghost predicate LookedUp(s: State, s1: State, slot: Slot) {
    && slot in s1.entries && Listed(s1, s1.entries[slot]) && s1.closed == s.closed
    && (slot in s.entries ==> s1 == s)
    && (slot !in s.entries ==> s1.heap[s1.entries[slot]] == Blank(slot))
    && s1.nextHolder == s.nextHolder && forall x: nat :: HoldersOf(s1, x) == HoldersOf(s, x)
  }

  lemma EnsureGives(s: State, slot: Slot)
    requires Inv(s) && !s.closed && slot != Unlisted
    ensures Inv(Ensure(s, slot)) && LookedUp(s, Ensure(s, slot), slot)
  {
    EnsureKeeps(s, slot);
    EnsuredListed(s, slot);
    hide Inv;
  }

  lemma ThenLeased(s: State, s1: State, s2: State, slot: Slot)
    requires LookedUp(s, s1, slot) && LeasedAt(s1, s2, s1.entries[slot])
    ensures LeasedAt(s, s2, s1.entries[slot])
  {
  }

  lemma ThenServes(s: State, s1: State, s2: State, slot: Slot)
    requires Shaped(s) && LookedUp(s, s1, slot) && OpenedAt(s1, s2, s1.entries[slot])
    ensures Serves(s, s2, slot)
  {
  }

  lemma ThenNoLease(s: State, s1: State, s2: State, slot: Slot)
    requires LookedUp(s, s1, slot) && NoLease(s1, s2)
    ensures NoLease(s, s2)
  {
    assert forall e :: 0 <= e < |s2.heap| ==> HoldersOf(s2, e) <= HoldersOf(s1, e);
  }

  lemma SameNoLease(s: State)
    ensures NoLease(s, s)
  {
  }

  /** Entry e is as listed as it was, and has the workspace it had, or one. */
  predicate OpenedAt(s: State, s': State, e: nat) {
    && e < |s.heap| && e < |s'.heap| && s'.entries == s.entries && s'.heap[e].state.Some?
    && (s.heap[e].state.Some? ==> s'.heap[e].state == s.heap[e].state)
  }

  /** Opening an entry's workspace leaves leases, listing and timers as they are. */
  lemma OpenGives(s: State, e: nat)
    requires e < |s.heap|
    ensures var s' := OpenIfNone(s, e);
      && s' == s.(heap := s.heap[e := s.heap[e].(state := s'.heap[e].state)], where := s'.where, nextWs := s'.nextWs)
      && OpenedAt(s, s', e)
  {
  }

  lemma LeaseGives(s: State, e: nat)
    requires Inv(s) && Listed(s, e)
    ensures LeasedAt(s, Lease(OpenIfNone(s, e), e), e) && OpenedAt(s, Lease(OpenIfNone(s, e), e), e)
  {
    EntryFacts(s, e);
    OpenGives(s, e);
    hide Inv, OpenIfNone;
  }

  lemma EntryFacts(s: State, e: nat)
    requires Inv(s) && Listed(s, e)
    ensures s.nextHolder !in s.heap[e].holders && s.heap[e].leases == |s.heap[e].holders|
    ensures forall t :: t in s.timers && t.entry == e ==> t.epoch <= s.heap[e].epoch
  {
    SoundFromInv(s, e);
    FreshHolder(s, e);
    assert TimersTidy(s) && Calm(s, e);
    hide Own, RestoresTidy, WaitersTidy, EntriesTidy, AllCalm, Sound;
  }

  lemma ScheduleGives(s: State, e: nat)
    requires e < |s.heap|
    ensures var s' := Schedule(OpenIfNone(s, e), e); NoLease(s, s') && OpenedAt(s, s', e)
  {
    OpenGives(s, e);
    var s1 := OpenIfNone(s, e);
    var s2 := Schedule(s1, e);
    hide OpenIfNone, Busy;
    assert |s2.heap| == |s.heap| && s2.nextHolder == s.nextHolder && forall x :: 0 <= x < |s.heap| ==> s2.heap[x].holders == s.heap[x].holders;
    hide Schedule;
  }

  lemma DropGives(s: State, e: nat)
    requires e < |s.heap|
    ensures NoLease(s, Drop(s, e)) && NoLease(s, OpenFails(s, e)) && NoLease(s, DropAndClose(s, e))
  {
  }

  // ---- code workspaces ----

  /** AcquireCode leases an open, listed workspace exactly when the registry is open and
      the workspace is there or opens. */
  lemma AcquireCodeLeases(s: State, root: string, db: string, opens: bool)
    requires Inv(s) && Shaped(s)
    ensures var s', slot := Next(s, AcquireCode(root, db, opens)), CodeSlot(root, db);
      if !s.closed && (Held(s, slot).Some? || opens)
      then Serves(s, s', slot) && LeasedAt(s, s', s'.entries[slot])
      else NoLease(s, s')
  {
    var slot, s1 := CodeSlot(root, db), Ensure(s, CodeSlot(root, db));
    hide Inv, Shaped, Ensure, OpenIfNone, Lease, Drop, NoLease, LeasedAt, Serves, OpenedAt, LookedUp, Held, Listed, MustWait, BeingRemoved;
    hide StartAdd, StartResolve, StartAcquire, WakeUp, CodeResolve, StartRemove, GiveBack, FireTimer, StartRestore, RestoreOpened, SettleRestore, CloseOne;
    SameNoLease(s);
    if !s.closed {
      EnsureGives(s, slot);
      LookedUpHeld(s, s1, slot);
      var e := s1.entries[slot];
      if s1.heap[e].state.None? && !opens {
        DropGives(s1, e);
        ThenNoLease(s, s1, Drop(s1, e), slot);
      } else {
        var s2 := Lease(OpenIfNone(s1, e), e);
        LeaseGives(s1, e);
        ThenLeased(s, s1, s2, slot);
        ThenServes(s, s1, s2, slot);
        ServedEntry(s1, s2, e);
      }
    }
  }

  lemma LookedUpHeld(s: State, s1: State, slot: Slot)
    requires Shaped(s) && LookedUp(s, s1, slot)
    ensures slot in s1.entries && Listed(s1, s1.entries[slot]) && s1.closed == s.closed
    ensures s1.entries[slot] < |s1.heap| && s1.heap[s1.entries[slot]].state == Held(s, slot)
    ensures s1.heap[s1.entries[slot]].restore.Some? <==> MustWait(s, slot)
    ensures s1.heap[s1.entries[slot]].removing <==> BeingRemoved(s, slot)
    ensures s1.heap[s1.entries[slot]].explicit <==> slot in s.entries && s.heap[s.entries[slot]].explicit
    ensures slot in s.entries ==> s1 == s
  {
  }

  lemma ServedEntry(s: State, s': State, e: nat)
    requires OpenedAt(s, s', e)
    ensures s'.entries == s.entries
  {
  }

  lemma ResolveCodeServes(s: State, root: string, db: string, opens: bool)
    requires Inv(s) && Shaped(s)
    ensures var s', slot := Next(s, ResolveCode(root, db, opens)), CodeSlot(root, db);
      NoLease(s, s') && (!s.closed && (Held(s, slot).Some? || opens) ==> Serves(s, s', slot))
  {
    var slot, s1 := CodeSlot(root, db), Ensure(s, CodeSlot(root, db));
    hide Inv, Shaped, Ensure, OpenIfNone, Schedule, Drop, NoLease, Serves, OpenedAt, LookedUp;
    hide StartAdd, StartResolve, StartAcquire, WakeUp, CodeAcquire, StartRemove, GiveBack, FireTimer, StartRestore, RestoreOpened, SettleRestore, CloseOne;
    SameNoLease(s);
    if !s.closed {
      EnsureGives(s, slot);
      LookedUpHeld(s, s1, slot);
      var e := s1.entries[slot];
      ScheduleGives(s1, e);
      ThenServes(s, s1, Schedule(OpenIfNone(s1, e), e), slot);
      ThenNoLease(s, s1, Schedule(OpenIfNone(s1, e), e), slot);
      DropGives(s1, e);
      ThenNoLease(s, s1, Drop(s1, e), slot);
    }
  }

  // ---- root workspaces ----

  /** A restore is pending, so the caller waits for it. */
  predicate MustWait(s: State, slot: Slot)
    requires Shaped(s)
  {
    slot in s.entries && s.heap[s.entries[slot]].restore.Some?
  }

  predicate BeingRemoved(s: State, slot: Slot)
    requires Shaped(s)
  {
    slot in s.entries && s.heap[s.entries[slot]].removing
  }

  /** The caller is parked with the restore it waits for, and nothing else happens. */
  predicate ParksFor(s: State, s': State, slot: Slot, op: Parked)
    requires Shaped(s) && MustWait(s, slot)
  {
    var e := s.entries[slot];
    s' == s.(waiters := s.waiters[s.nextWaiter := Waiter(e, s.heap[e].restore.value, op)], nextWaiter := s.nextWaiter + 1)
  }

  lemma AcquireLeases(s: State, root: string, opens: bool)
    requires Inv(s) && Shaped(s)
    ensures var s', slot := Next(s, Step.Acquire(root, opens)), RootSlot(root);
      if s.closed then s' == s
      else if MustWait(s, slot) then ParksFor(s, s', slot, Acquiring)
      else if !BeingRemoved(s, slot) && (Held(s, slot).Some? || opens)
      then Serves(s, s', slot) && LeasedAt(s, s', s'.entries[slot])
      else NoLease(s, s')
  {
    var slot, s1 := RootSlot(root), Ensure(s, RootSlot(root));
    hide Inv, Shaped, Ensure, OpenIfNone, Lease, OpenFails, NoLease, LeasedAt, Serves, OpenedAt, LookedUp, Held, BeingRemoved;
    hide StartAdd, StartResolve, WakeUp, CodeResolve, CodeAcquire, StartRemove, GiveBack, FireTimer, StartRestore, RestoreOpened, SettleRestore, CloseOne;
    if !s.closed {
      EnsureGives(s, slot);
      LookedUpHeld(s, s1, slot);
      var e := s1.entries[slot];
      if s1.heap[e].removing || (s1.heap[e].state.None? && !opens) {
        DropGives(s1, e);
        SameNoLease(s1);
        ThenNoLease(s, s1, OpenFails(s1, e), slot);
        ThenNoLease(s, s1, s1, slot);
      } else {
        var s2 := Lease(OpenIfNone(s1, e), e);
        LeaseGives(s1, e);
        ThenLeased(s, s1, s2, slot);
        ThenServes(s, s1, s2, slot);
        ServedEntry(s1, s2, e);
      }
    }
  }

  lemma ResolveServes(s: State, root: string, opens: bool)
    requires Inv(s) && Shaped(s)
    ensures var s', slot := Next(s, Resolve(root, opens)), RootSlot(root);
      NoLease(s, s') &&
      if s.closed then s' == s
      else if MustWait(s, slot) then ParksFor(s, s', slot, Resolving)
      else !BeingRemoved(s, slot) && (Held(s, slot).Some? || opens) ==> Serves(s, s', slot)
  {
    var slot, s1 := RootSlot(root), Ensure(s, RootSlot(root));
    hide StartAdd, StartAcquire, WakeUp, CodeResolve, CodeAcquire, StartRemove, GiveBack, FireTimer, StartRestore, RestoreOpened, SettleRestore, CloseOne;
    SameNoLease(s);
    ParkNoLease(s, Next(s, Resolve(root, opens)));
    hide Inv, Shaped, Ensure, OpenIfNone, Schedule, OpenFails, NoLease, Serves, OpenedAt, LookedUp, Held, BeingRemoved;
    if !s.closed {
      EnsureGives(s, slot);
      LookedUpHeld(s, s1, slot);
      var e := s1.entries[slot];
      ScheduleGives(s1, e);
      ThenServes(s, s1, Schedule(OpenIfNone(s1, e), e), slot);
      ThenNoLease(s, s1, Schedule(OpenIfNone(s1, e), e), slot);
      DropGives(s1, e);
      SameNoLease(s1);
      ThenNoLease(s, s1, OpenFails(s1, e), slot);
      ThenNoLease(s, s1, s1, slot);
    }
  }

  lemma ParkNoLease(s: State, s': State)
    ensures s'.heap == s.heap && s'.nextHolder == s.nextHolder ==> NoLease(s, s')
  {
  }

  /** A parked Acquire that wakes gets its lease exactly when the restore succeeded, the
      registry is open, the entry is still listed and not being removed, and its
      workspace is there or opens; no other waking caller gets one. */
  lemma WakeLeasesIff(s: State, id: nat, opens: bool, persists: bool)
    requires Inv(s) && Shaped(s) && Enabled(s, Wake(id, opens, persists)) && s.waiters[id].entry < |s.heap|
    ensures var s', w := Next(s, Wake(id, opens, persists)), s.waiters[id];
      if w.op.Acquiring? && s.restores[w.restore].ok && !s.closed && Listed(s, w.entry) && !s.heap[w.entry].removing
         && (s.heap[w.entry].state.Some? || opens)
      then LeasedAt(s, s', w.entry) && (s.heap[w.entry].state.Some? ==> s'.heap[w.entry].state == s.heap[w.entry].state)
      else NoLease(s, s')
  {
    UnparkKeeps(s, id);
    var s1, w := s.(waiters := s.waiters - {id}), s.waiters[id];
    hide Inv, Shaped, AcquireTail, ResolveTail, AddTail, Drop, LeasedAt, NoLease, Schedule, Lease, OpenIfNone;
    DropGives(s1, w.entry);
    SameNoLease(s1);
    WokenNoLease(s, s1, WakeUp(s1, w, opens, persists));
    match w.op {
      case Adding(existed, oldRemoving) => AddTailNoLease(s1, w.entry, existed, false, oldRemoving, opens, persists);
      case Resolving => ResolveTailNoLease(s1, w.entry, opens);
      case Acquiring =>
        if Listed(s, w.entry) {
          AcquireTailLeases(s1, w.entry, opens);
          SameLeased(s, s1, AcquireTail(s1, w.entry, opens), w.entry);
        }
    }
  }

  lemma ResolveTailNoLease(s: State, e: nat, opens: bool)
    requires e < |s.heap|
    ensures NoLease(s, ResolveTail(s, e, opens))
  {
    ScheduleGives(s, e);
    DropGives(s, e);
    SameNoLease(s);
    hide OpenIfNone, Schedule, OpenFails, NoLease;
  }

  lemma AcquireTailLeases(s: State, e: nat, opens: bool)
    requires Inv(s) && Listed(s, e)
    ensures var s' := AcquireTail(s, e, opens);
      if !s.heap[e].removing && (s.heap[e].state.Some? || opens) then LeasedAt(s, s', e) && OpenedAt(s, s', e) else NoLease(s, s')
  {
    hide Inv;
    LeaseGives(s, e);
    DropGives(s, e);
    SameNoLease(s);
    hide OpenIfNone, Lease, OpenFails, NoLease, LeasedAt, OpenedAt;
  }

  lemma SameLeased(s: State, s1: State, s2: State, e: nat)
    requires s1 == s.(waiters := s1.waiters) && e < |s.heap|
    ensures LeasedAt(s1, s2, e) && OpenedAt(s1, s2, e) ==>
      LeasedAt(s, s2, e) && (s.heap[e].state.Some? ==> s2.heap[e].state == s.heap[e].state)
  {
  }

  lemma WokenNoLease(s: State, s1: State, s2: State)
    requires s1 == s.(waiters := s1.waiters)
    ensures NoLease(s1, s2) ==> NoLease(s, s2)
  {
  }

  lemma AddTailNoLease(s: State, e: nat, existed: bool, wasOpen: bool, oldRemoving: bool, opens: bool, persists: bool)
    requires e < |s.heap|
    ensures NoLease(s, AddTail(s, e, existed, wasOpen, oldRemoving, opens, persists))
  {
    var s1 := OpenIfNone(s, e);
    var s2 := Pin(s1, e);
    assert NoLease(s, s1) && NoLease(s1, s2) && e < |s2.heap| && s2.heap[e].state.Some?;
    NoLeaseTwice(s, s1, s2);
    UnpinNoLease(s2, e, existed, wasOpen, oldRemoving, s1.heap[e].timer);
    NoLeaseTwice(s, s2, Unpin(s2, e, existed, wasOpen, oldRemoving, s1.heap[e].timer));
    DropGives(s, e);
    SameNoLease(s);
    hide Unpin, Pin, OpenIfNone, Drop, NoLease;
  }

  lemma NoLeaseTwice(a: State, b: State, c: State)
    requires NoLease(a, b) && NoLease(b, c)
    ensures NoLease(a, c)
  {
    assert forall e :: 0 <= e < |c.heap| ==> HoldersOf(c, e) <= HoldersOf(b, e);
  }

  lemma UnpinNoLease(s: State, e: nat, existed: bool, wasOpen: bool, oldRemoving: bool, oldTimer: bool)
    requires e < |s.heap| && s.heap[e].state.Some?
    ensures NoLease(s, Unpin(s, e, existed, wasOpen, oldRemoving, oldTimer))
  {
  }

  /** Add pins an open, listed workspace when it opens and the list of roots persists;
      an entry that was pinned needs no persisting. */
  lemma AddPins(s: State, root: string, opens: bool, persists: bool)
    requires Inv(s) && Shaped(s)
    ensures var s', slot := Next(s, Add(root, opens, persists)), RootSlot(root);
      NoLease(s, s') &&
      if s.closed then s' == s
      else if MustWait(s, slot) && Held(s, slot).None? then ParksFor(s, s', slot, Adding(true, BeingRemoved(s, slot)))
      else (Held(s, slot).Some? || opens) && (persists || (slot in s.entries && s.heap[s.entries[slot]].explicit)) ==>
        Serves(s, s', slot) && s'.heap[s'.entries[slot]].explicit && !s'.heap[s'.entries[slot]].removing
  {
    var slot, s1 := RootSlot(root), Ensure(s, RootSlot(root));
    hide StartResolve, StartAcquire, WakeUp, CodeResolve, CodeAcquire, StartRemove, GiveBack, FireTimer, StartRestore, RestoreOpened, SettleRestore, CloseOne;
    SameNoLease(s);
    ParkNoLease(s, Next(s, Add(root, opens, persists)));
    hide Inv, Shaped, Ensure, NoLease, Serves, OpenedAt, LookedUp, AddTail, Listed;
    if !s.closed {
      EnsureGives(s, slot);
      LookedUpHeld(s, s1, slot);
      var e := s1.entries[slot];
      var s2 := AddTail(s1, e, slot in s.entries, s1.heap[e].state.Some?, s1.heap[e].removing, opens, persists);
      AddTailNoLease(s1, e, slot in s.entries, s1.heap[e].state.Some?, s1.heap[e].removing, opens, persists);
      ThenNoLease(s, s1, s2, slot);
      if (s1.heap[e].state.Some? || opens) && (persists || s1.heap[e].explicit) {
        AddTailPins(s1, e, slot in s.entries, s1.heap[e].state.Some?, s1.heap[e].removing, opens, persists);
        ThenServes(s, s1, s2, slot);
        ServedEntry(s1, s2, e);
      }
    }
  }

  lemma AddTailPins(s: State, e: nat, existed: bool, wasOpen: bool, oldRemoving: bool, opens: bool, persists: bool)
    requires Inv(s) && Listed(s, e) && (s.heap[e].state.Some? || opens) && (persists || s.heap[e].explicit)
    ensures var s' := AddTail(s, e, existed, wasOpen, oldRemoving, opens, persists);
      OpenedAt(s, s', e) && s'.heap[e].explicit && !s'.heap[e].removing
  {
    assert Calm(s, e);
    hide Own, Tidy, AllCalm, Unpin;
  }

  // ---- refusals ----

  /** A failed open forgets the slot, unless it is pinned, and opens nothing. */
  ghost predicate Forgotten(s: State, s': State, slot: Slot, kept: bool)
    requires Shaped(s)
  {
    && (slot in s'.entries <==> slot in s.entries && kept)
    && (forall k :: k != slot ==> (k in s'.entries <==> k in s.entries) && (k in s.entries ==> s'.entries[k] == s.entries[k]))
    && s'.where == s.where && s'.doomed == s.doomed && s'.timers == s.timers
  }

  predicate Pinned(s: State, slot: Slot)
    requires Shaped(s)
  {
    slot in s.entries && s.heap[s.entries[slot]].explicit
  }

  /** Acquire and Resolve of a root being removed change nothing; when the workspace does
      not open the slot is forgotten unless pinned. */
  lemma RootRefusals(s: State, root: string)
    requires Inv(s) && Shaped(s) && !s.closed && !MustWait(s, RootSlot(root))
    ensures var slot := RootSlot(root);
      && (BeingRemoved(s, slot) ==> forall opens :: Next(s, Step.Acquire(root, opens)) == s && Next(s, Resolve(root, opens)) == s)
      && (Held(s, slot).None? && !BeingRemoved(s, slot) ==>
            Forgotten(s, Next(s, Step.Acquire(root, false)), slot, Pinned(s, slot)) && Forgotten(s, Next(s, Resolve(root, false)), slot, Pinned(s, slot)))
  {
    hide Inv;
    hide StartAdd, WakeUp, CodeResolve, CodeAcquire, StartRemove, GiveBack, FireTimer, StartRestore, RestoreOpened, SettleRestore, CloseOne;
  }

  lemma DropForgets(s: State, slot: Slot)
    requires Shaped(s) && slot != Unlisted
    ensures var s1 := Ensure(s, slot); s1.entries[slot] < |s1.heap| && Forgotten(s, Drop(s1, s1.entries[slot]), slot, false)
  {
  }

  /** When a code workspace does not open, its slot is forgotten. */
  lemma CodeRefusals(s: State, root: string, db: string)
    requires Inv(s) && Shaped(s) && !s.closed && Held(s, CodeSlot(root, db)).None?
    ensures Forgotten(s, Next(s, AcquireCode(root, db, false)), CodeSlot(root, db), false)
    ensures Forgotten(s, Next(s, ResolveCode(root, db, false)), CodeSlot(root, db), false)
  {
    var slot, s1 := CodeSlot(root, db), Ensure(s, CodeSlot(root, db));
    EnsureGives(s, slot);
    LookedUpHeld(s, s1, slot);
    DropForgets(s, slot);
    hide Inv, Lease, Schedule, OpenIfNone, Ensure, Drop, Forgotten, LookedUp, Shaped, Held;
    hide StartAdd, StartResolve, StartAcquire, WakeUp, StartRemove, GiveBack, FireTimer, StartRestore, RestoreOpened, SettleRestore, CloseOne;
  }

  /** An Add that cannot open forgets an entry it made and leaves one it found. */
  lemma AddRefused(s: State, root: string, persists: bool)
    requires Inv(s) && Shaped(s) && !s.closed && Held(s, RootSlot(root)).None? && !MustWait(s, RootSlot(root))
    ensures Forgotten(s, Next(s, Add(root, false, persists)), RootSlot(root), true)
  {
    hide Inv, Pin, Unpin, OpenIfNone;
    hide StartResolve, StartAcquire, WakeUp, CodeResolve, CodeAcquire, StartRemove, GiveBack, FireTimer, StartRestore, RestoreOpened, SettleRestore, CloseOne;
  }

  // ---- giving back, eviction, restores, shutdown ----

  /** No other step hands out a lease. */
  lemma NobodyElseLeases(s: State, step: Step)
    requires Shaped(s) && Enabled(s, step)
    requires step.Remove? || step.Release? || step.Fire? || step.RestoreStart? || step.RestoreOpen? || step.RestoreSettle? || step.CloseAll? || step.CloseEntry?
    ensures NoLease(s, Next(s, step))
  {
    match step {
      case Remove(root, persists) => RemoveNoLease(s, RootSlot(root), persists);
      case Release(e, holder) => GiveBackNoLease(s, e, holder);
      case RestoreStart(root) => RestoreNoLease(s, RootSlot(root));
      case RestoreSettle(rid) => SettleNoLease(s, rid);
      case _ =>
    }
    hide StartRemove, GiveBack, StartRestore, SettleRestore, Shaped;
  }

  lemma RemoveNoLease(s: State, slot: Slot, persists: bool)
    requires Shaped(s) && slot.RootSlot?
    ensures NoLease(s, StartRemove(s, slot, persists))
  {
  }

  lemma GiveBackNoLease(s: State, e: nat, holder: nat)
    requires e < |s.heap|
    ensures NoLease(s, GiveBack(s, e, holder))
  {
  }

  lemma RestoreNoLease(s: State, slot: Slot)
    requires Shaped(s)
    ensures NoLease(s, StartRestore(s, slot))
  {
  }

  lemma SettleNoLease(s: State, rid: nat)
    requires Shaped(s) && Enabled(s, RestoreSettle(rid))
    ensures NoLease(s, SettleRestore(s, rid))
  {
  }

  /** A timer's callback closes its entry exactly when that is listed, idle and at the
      timer's epoch in an open registry, and otherwise only uses the timer up. */
  lemma FireClosesIff(s: State, t: Timer)
    requires Shaped(s) && t in s.timers
    ensures var s' := Next(s, Fire(t));
      if !s.closed && Listed(s, t.entry) && s.heap[t.entry].epoch == t.epoch && s.heap[t.entry].leases == 0
         && (s.heap[t.entry].slot.RootSlot? ==> !s.heap[t.entry].explicit && !s.heap[t.entry].removing)
      then s' == s.(timers := s.timers - {t}, entries := s.entries - {s.heap[t.entry].slot}, doomed := s.doomed + {t.entry})
      else s' == s.(timers := s.timers - {t})
  {
  }

  /** Close hands every listed entry over to be closed and lists nothing more; each
      hand-over then closes the entry's workspace, in turn. */
  lemma CloseTakesAll(s: State, e: nat)
    requires Shaped(s)
    ensures var s' := Next(s, CloseAll);
      s'.closed && (!s.closed ==> s'.entries == map[] && (e in s'.doomed <==> e in s.doomed || e in s.entries.Values)) && (s.closed ==> s' == s)
    ensures Enabled(s, CloseEntry(e)) ==>
      var s' := Next(s, CloseEntry(e));
      s' == s.(doomed := s.doomed - {e}, shut := s'.shut) && s'.shut == if s.heap[e].state.Some? then s.shut + [s.heap[e].state.value] else s.shut
  {
  }
}
