/** The workspace registry (src/cmd/ragrep/daemon.go:253-670, 732-776, 822-879):
    entries, leases, idle timers, single-flight restores and shutdown.  Each
    section under `mu` is one step, so is each timer firing (stopped timers may
    still fire), and so is each closeWorkspaceEntry call, which runs unlocked. */
module Registry {
  import opened Options
  import opened Sequences

  /** A key of `entries` or of `codeEntries`.  Unlisted is for entries made only to be closed. */
  datatype Slot = RootSlot(root: string) | CodeSlot(root: string, db: string) | Unlisted

  /** A workspaceRegistryEntry.  `slot` is the key it was made for; `holders` names
      the callers whose release function has not run yet. */
  datatype Entry = Entry(
    slot: Slot, state: Option<nat>, restore: Option<nat>, explicit: bool,
    timer: bool, epoch: nat, leases: nat, removing: bool, holders: set<nat>)

  datatype Timer = Timer(entry: nat, epoch: nat)

  datatype Restore = Opening(entry: nat) | OpenedFor(entry: nat, ws: nat) | OpenFailed(entry: nat) | Settled(ok: bool)

  /** A caller parked in waitForRestoreLocked, with what it read before. */
  datatype Waiter = Waiter(entry: nat, restore: nat, op: Parked)
  datatype Parked = Adding(existed: bool, oldRemoving: bool) | Resolving | Acquiring

  /** Where an opened workspace is held. */
  datatype Owner = InEntry(entry: nat) | InRestore(restore: nat)

  datatype State = State(
    closed: bool,
    entries: map<Slot, nat>,
    heap: seq<Entry>,
    where: map<nat, Owner>,       // every workspace ever opened
    nextWs: nat,
    doomed: set<nat>,             // entries handed to closeWorkspaceEntry
    shut: seq<nat>,               // workspaceState.Close calls, in order
    timers: set<Timer>,           // callbacks that may still fire
    restores: map<nat, Restore>,
    nextRestore: nat,
    waiters: map<nat, Waiter>,
    nextWaiter: nat,
    nextHolder: nat)

  datatype Step =
    | Add(root: string, opens: bool, persists: bool)
    | Resolve(root: string, opens: bool)
    | Acquire(root: string, opens: bool)
    | Wake(waiter: nat, opens: bool, persists: bool)
    | ResolveCode(root: string, db: string, opens: bool)
    | AcquireCode(root: string, db: string, opens: bool)
    | Remove(root: string, persists: bool)
    | Release(entry: nat, holder: nat)
    | Fire(timer: Timer)
    | RestoreStart(root: string)
    | RestoreOpen(restore: nat, opens: bool)
    | RestoreSettle(restore: nat)
    | CloseAll
    | CloseEntry(entry: nat)

  predicate Listed(s: State, e: nat) {
    e < |s.heap| && s.heap[e].slot in s.entries && s.entries[s.heap[e].slot] == e
  }

  // ---- the pieces of a section ----

  /** References point at what exists. */
  predicate Shaped(s: State) {
    && (forall slot :: slot in s.entries ==> slot != Unlisted && s.entries[slot] < |s.heap| && s.heap[s.entries[slot]].slot == slot)
    && (forall id :: id in s.waiters ==> s.waiters[id].entry < |s.heap|)
    && (forall rid :: rid in s.restores && !s.restores[rid].Settled? ==> s.restores[rid].entry < |s.heap|)
  }

  function Blank(slot: Slot): Entry {
    Entry(slot, None, None, false, false, 0, 0, false, {})
  }

  function Set(s: State, e: nat, en: Entry): State
    requires e < |s.heap|
  {
    s.(heap := s.heap[e := en])
  }

  function Ensure(s: State, slot: Slot): (s': State)
    requires Shaped(s) && slot != Unlisted
    ensures Shaped(s') && slot in s'.entries
  {
    if slot in s.entries then s
    else s.(heap := s.heap + [Blank(slot)], entries := s.entries[slot := |s.heap|])
  }

  function Open(s: State, e: nat): State
    requires e < |s.heap|
  {
    Set(s, e, s.heap[e].(state := Some(s.nextWs))).(where := s.where[s.nextWs := InEntry(e)], nextWs := s.nextWs + 1)
  }

  function OpenIfNone(s: State, e: nat): State
    requires e < |s.heap|
  {
    if s.heap[e].state.None? then Open(s, e) else s
  }

  function Drop(s: State, e: nat): State
    requires e < |s.heap|
  {
    s.(entries := s.entries - {s.heap[e].slot})
  }

  function DropAndClose(s: State, e: nat): State
    requires e < |s.heap|
  {
    Drop(s, e).(doomed := s.doomed + {e})
  }

  /** closeWorkspaceEntry(&workspaceRegistryEntry{state: ...}) with the entry's own state. */
  function Detach(s: State, e: nat): State
    requires e < |s.heap| && s.heap[e].state.Some?
  {
    var w := s.heap[e].state;
    var temp := |s.heap|;
    s.(heap := s.heap[e := s.heap[e].(state := None)] + [Blank(Unlisted).(state := w)],
       where := s.where[w.value := InEntry(temp)],
       doomed := s.doomed + {temp})
  }

  function Busy(en: Entry): bool {
    en.leases > 0 || (en.slot.RootSlot? && (en.explicit || en.removing))
  }

  function Schedule(s: State, e: nat): State
    requires e < |s.heap|
  {
    var en := s.heap[e];
    if Busy(en) then s
    else Set(s, e, en.(epoch := en.epoch + 1, timer := true)).(timers := s.timers + {Timer(e, en.epoch + 1)})
  }

  function Lease(s: State, e: nat): State
    requires e < |s.heap|
  {
    var en := s.heap[e];
    Set(s, e, en.(leases := en.leases + 1, epoch := en.epoch + 1, timer := false, holders := en.holders + {s.nextHolder}))
      .(nextHolder := s.nextHolder + 1)
  }

  /** An open that fails forgets the entry, unless it is pinned. */
  function OpenFails(s: State, e: nat): State
    requires e < |s.heap|
  {
    if s.heap[e].explicit then s else Drop(s, e)
  }

  function ResolveTail(s: State, e: nat, opens: bool): State
    requires e < |s.heap|
  {
    if s.heap[e].removing then s
    else if s.heap[e].state.None? && !opens then OpenFails(s, e)
    else Schedule(OpenIfNone(s, e), e)
  }

  function AcquireTail(s: State, e: nat, opens: bool): State
    requires e < |s.heap|
  {
    if s.heap[e].removing then s
    else if s.heap[e].state.None? && !opens then OpenFails(s, e)
    else Lease(OpenIfNone(s, e), e)
  }

  function Pin(s: State, e: nat): State
    requires e < |s.heap|
  {
    var en := s.heap[e];
    Set(s, e, en.(epoch := en.epoch + 1, timer := false, explicit := true, removing := false))
  }

  /** Add after its wait: `wasOpen` is oldState != nil. */
  function AddTail(s: State, e: nat, existed: bool, wasOpen: bool, oldRemoving: bool, opens: bool, persists: bool): State
    requires e < |s.heap|
  {
    if s.heap[e].state.None? && !opens then (if existed then s else Drop(s, e))
    else
      var s1 := OpenIfNone(s, e);
      if s1.heap[e].explicit then s1
      else if persists then Pin(s1, e)
      else Unpin(Pin(s1, e), e, existed, wasOpen, oldRemoving, s1.heap[e].timer)
  }

  /** Add's rollback after a failed persist. */
  function Unpin(s: State, e: nat, existed: bool, wasOpen: bool, oldRemoving: bool, oldTimer: bool): State
    requires e < |s.heap| && s.heap[e].state.Some?
  {
    var s1 := Set(s, e, s.heap[e].(explicit := false, removing := oldRemoving));
    if !existed then DropAndClose(s1, e)
    else
      var s2 := if wasOpen then s1 else Detach(s1, e);
      if oldTimer then Schedule(s2, e) else s2
  }

  function Park(s: State, e: nat, op: Parked): State
    requires e < |s.heap| && s.heap[e].restore.Some?
  {
    s.(waiters := s.waiters[s.nextWaiter := Waiter(e, s.heap[e].restore.value, op)], nextWaiter := s.nextWaiter + 1)
  }

  // ---- the steps ----

  predicate Enabled(s: State, step: Step) {
    match step
    case Wake(id, _, _) =>
      id in s.waiters && s.waiters[id].restore in s.restores && s.restores[s.waiters[id].restore].Settled?
    case Release(e, holder) => e < |s.heap| && holder in s.heap[e].holders
    case Fire(timer) => timer in s.timers
    case RestoreOpen(rid, _) => rid in s.restores && s.restores[rid].Opening?
    case RestoreSettle(rid) => rid in s.restores && (s.restores[rid].OpenedFor? || s.restores[rid].OpenFailed?)
    case CloseEntry(e) => e in s.doomed && e < |s.heap|
    case _ => true
  }

  function Next(s: State, step: Step): State
    requires Shaped(s) && Enabled(s, step)
  {
    match step
    case Add(root, opens, persists) => StartAdd(s, RootSlot(root), opens, persists)
    case Resolve(root, opens) => StartResolve(s, RootSlot(root), opens)
    case Acquire(root, opens) => StartAcquire(s, RootSlot(root), opens)
    case Wake(id, opens, persists) => WakeUp(s.(waiters := s.waiters - {id}), s.waiters[id], opens, persists)
    case ResolveCode(root, db, opens) => CodeResolve(s, CodeSlot(root, db), opens)
    case AcquireCode(root, db, opens) => CodeAcquire(s, CodeSlot(root, db), opens)
    case Remove(root, persists) => StartRemove(s, RootSlot(root), persists)
    case Release(e, holder) => GiveBack(s, e, holder)
    case Fire(timer) => FireTimer(s, timer)
    case RestoreStart(root) => StartRestore(s, RootSlot(root))
    case RestoreOpen(rid, opens) => RestoreOpened(s, rid, opens)
    case RestoreSettle(rid) => SettleRestore(s, rid)
    case CloseAll => if s.closed then s else s.(closed := true, entries := map[], doomed := s.doomed + s.entries.Values)
    case CloseEntry(e) => CloseOne(s, e)
  }

  function StartAdd(s: State, slot: Slot, opens: bool, persists: bool): State
    requires Shaped(s) && slot.RootSlot?
  {
    if s.closed then s
    else
      var existed := slot in s.entries;
      var s1 := Ensure(s, slot);
      var e := s1.entries[slot];
      var en := s1.heap[e];
      if en.state.None? && en.restore.Some? then Park(s1, e, Adding(existed, en.removing))
      else AddTail(s1, e, existed, en.state.Some?, en.removing, opens, persists)
  }

  function StartResolve(s: State, slot: Slot, opens: bool): State
    requires Shaped(s) && slot.RootSlot?
  {
    if s.closed then s
    else
      var s1 := Ensure(s, slot);
      var e := s1.entries[slot];
      if s1.heap[e].restore.Some? then Park(s1, e, Resolving) else ResolveTail(s1, e, opens)
  }

  function StartAcquire(s: State, slot: Slot, opens: bool): State
    requires Shaped(s) && slot.RootSlot?
  {
    if s.closed then s
    else
      var s1 := Ensure(s, slot);
      var e := s1.entries[slot];
      if s1.heap[e].restore.Some? then Park(s1, e, Acquiring) else AcquireTail(s1, e, opens)
  }

  /** The sections after a wait. */
  function WakeUp(s: State, w: Waiter, opens: bool, persists: bool): State
    requires w.entry < |s.heap| && w.restore in s.restores && s.restores[w.restore].Settled?
  {
    if !s.restores[w.restore].ok then
      (if w.op.Adding? && !w.op.existed && Listed(s, w.entry) then Drop(s, w.entry) else s)
    else if s.closed || !Listed(s, w.entry) then s
    else match w.op
      case Adding(existed, oldRemoving) => AddTail(s, w.entry, existed, false, oldRemoving, opens, persists)
      case Resolving => ResolveTail(s, w.entry, opens)
      case Acquiring => AcquireTail(s, w.entry, opens)
  }

  function CodeResolve(s: State, slot: Slot, opens: bool): State
    requires Shaped(s) && slot.CodeSlot?
  {
    if s.closed then s
    else
      var s1 := Ensure(s, slot);
      var e := s1.entries[slot];
      if s1.heap[e].state.None? && !opens then Drop(s1, e)
      else Schedule(OpenIfNone(s1, e), e)
  }

  function CodeAcquire(s: State, slot: Slot, opens: bool): State
    requires Shaped(s) && slot.CodeSlot?
  {
    if s.closed then s
    else
      var s1 := Ensure(s, slot);
      var e := s1.entries[slot];
      if s1.heap[e].state.None? && !opens then Drop(s1, e)
      else Lease(OpenIfNone(s1, e), e)
  }

  function StartRemove(s: State, slot: Slot, persists: bool): State
    requires Shaped(s) && slot.RootSlot?
  {
    if slot !in s.entries || !s.heap[s.entries[slot]].explicit then s
    else
      var e := s.entries[slot];
      var en := s.heap[e].(epoch := s.heap[e].epoch + 1, timer := false);
      if !persists then Set(s, e, en.(explicit := true, removing := false))
      else
        var s1 := Set(s, e, en.(explicit := false, removing := true));
        if en.leases == 0 then DropAndClose(s1, e) else s1
  }

  function GiveBack(s: State, e: nat, holder: nat): State
    requires e < |s.heap|
  {
    var en := s.heap[e].(holders := s.heap[e].holders - {holder});
    if !Listed(s, e) || en.leases == 0 then Set(s, e, en)
    else
      var s1 := Set(s, e, en.(leases := en.leases - 1));
      if en.leases == 1 && en.removing then DropAndClose(s1, e) else Schedule(s1, e)
  }

  predicate Evicts(s: State, timer: Timer) {
    Listed(s, timer.entry) && !Busy(s.heap[timer.entry]) && s.heap[timer.entry].epoch == timer.epoch && !s.closed
  }

  function FireTimer(s: State, timer: Timer): State {
    var s1 := s.(timers := s.timers - {timer});
    if Evicts(s, timer) then DropAndClose(s1, timer.entry) else s1
  }

  function StartRestore(s: State, slot: Slot): State
    requires Shaped(s)
  {
    if s.closed || slot !in s.entries then s
    else
      var e := s.entries[slot];
      var en := s.heap[e];
      if !en.explicit || en.state.Some? || en.restore.Some? then s
      else Set(s, e, en.(restore := Some(s.nextRestore)))
             .(restores := s.restores[s.nextRestore := Opening(e)], nextRestore := s.nextRestore + 1)
  }

  function RestoreOpened(s: State, rid: nat, opens: bool): State
    requires rid in s.restores && s.restores[rid].Opening?
  {
    var e := s.restores[rid].entry;
    if opens then s.(restores := s.restores[rid := OpenedFor(e, s.nextWs)], where := s.where[s.nextWs := InRestore(rid)], nextWs := s.nextWs + 1)
    else s.(restores := s.restores[rid := OpenFailed(e)])
  }

  predicate Welcome(s: State, e: nat) {
    !s.closed && Listed(s, e) && s.heap[e].explicit && !s.heap[e].removing
  }

  function RestoreCleared(en: Entry, rid: nat): Entry {
    if en.restore == Some(rid) then en.(restore := None) else en
  }

  function MoveIn(s: State, rid: nat): State
    requires rid in s.restores && s.restores[rid].OpenedFor? && s.restores[rid].entry < |s.heap|
  {
    var r := s.restores[rid];
    Set(s, r.entry, s.heap[r.entry].(state := Some(r.ws)))
      .(where := s.where[r.ws := InEntry(r.entry)], restores := s.restores[rid := Settled(true)])
  }

  function MoveOut(s: State, rid: nat): State
    requires rid in s.restores && s.restores[rid].OpenedFor?
  {
    var r, temp := s.restores[rid], |s.heap|;
    s.(heap := s.heap + [Blank(Unlisted).(state := Some(r.ws))],
       where := s.where[r.ws := InEntry(temp)],
       doomed := s.doomed + {temp},
       restores := s.restores[rid := Settled(false)])
  }

  function SettleRestore(s: State, rid: nat): State
    requires Shaped(s) && rid in s.restores && (s.restores[rid].OpenedFor? || s.restores[rid].OpenFailed?)
  {
    var r := s.restores[rid];
    var s1 := Set(s, r.entry, RestoreCleared(s.heap[r.entry], rid));
    if r.OpenFailed? then s1.(restores := s.restores[rid := Settled(false)])
    else if Welcome(s, r.entry) then MoveIn(s1, rid)
    else MoveOut(s1, rid)
  }

  function CloseOne(s: State, e: nat): State
    requires e in s.doomed && e < |s.heap|
  {
    s.(doomed := s.doomed - {e},
       shut := match s.heap[e].state case None => s.shut case Some(w) => s.shut + [w])
  }

  // ---- who owns each opened workspace ----

  predicate EntryOwns(s: State, e: nat)
    requires e < |s.heap|
  {
    var state := s.heap[e].state;
    state.Some? ==>
      && state.value in s.where && s.where[state.value] == InEntry(e)
      && (state.value in s.shut <==> !Listed(s, e) && e !in s.doomed)
  }

  predicate OwnerExists(s: State, w: nat)
    requires w in s.where
  {
    match s.where[w]
    case InEntry(e) => e < |s.heap| && s.heap[e].state == Some(w)
    case InRestore(rid) => rid in s.restores && s.restores[rid].OpenedFor? && s.restores[rid].ws == w && w !in s.shut
  }

  predicate RestoreOwns(s: State, rid: nat)
    requires rid in s.restores
  {
    s.restores[rid].OpenedFor? ==> s.restores[rid].ws in s.where && s.where[s.restores[rid].ws] == InRestore(rid)
  }

  predicate DoomedUnlisted(s: State) {
    forall e :: e in s.doomed ==> e < |s.heap| && !Listed(s, e)
  }

  predicate EntriesOwn(s: State) {
    forall e :: 0 <= e < |s.heap| ==> EntryOwns(s, e)
  }

  predicate RestoresOwn(s: State) {
    forall rid :: rid in s.restores ==> RestoreOwns(s, rid)
  }

  predicate OpenedOwned(s: State) {
    forall w :: w in s.where ==> w < s.nextWs && OwnerExists(s, w)
  }

  predicate ShutOnce(s: State) {
    (forall w :: w in s.shut ==> w in s.where) && Distinct(s.shut)
  }

  /** Every opened workspace has exactly one owner, listed, in flight, about to be
      closed, or closed; and none is closed twice. */
  predicate Own(s: State) {
    Shaped(s) && DoomedUnlisted(s) && EntriesOwn(s) && RestoresOwn(s) && OpenedOwned(s) && ShutOnce(s)
  }

  lemma EnsureOwns(s: State, slot: Slot)
    requires Own(s) && slot != Unlisted
    ensures Own(Ensure(s, slot))
  {
    var s' := Ensure(s, slot);
    assert forall e :: 0 <= e < |s.heap| ==> (Listed(s, e) <==> Listed(s', e));
    forall e | 0 <= e < |s'.heap|
      ensures EntryOwns(s', e)
    {
      if e < |s.heap| {
        assert EntryOwns(s, e);
      }
    }
  }

  lemma SetOwns(s: State, e: nat, en: Entry)
    requires Own(s) && e < |s.heap| && en.slot == s.heap[e].slot && en.state == s.heap[e].state
    ensures Own(Set(s, e, en))
  {
    var s' := Set(s, e, en);
    assert forall x :: 0 <= x < |s.heap| ==> (Listed(s, x) <==> Listed(s', x));
    forall x | 0 <= x < |s'.heap|
      ensures EntryOwns(s', x)
    {
      assert EntryOwns(s, x);
    }
  }

  lemma OpenOwns(s: State, e: nat)
    requires Own(s) && Listed(s, e) && s.heap[e].state.None?
    ensures Own(Open(s, e))
  {
    var s' := Open(s, e);
    assert forall x :: 0 <= x < |s.heap| ==> (Listed(s, x) <==> Listed(s', x));
    forall x | 0 <= x < |s'.heap|
      ensures EntryOwns(s', x)
    {
      assert EntryOwns(s, x);
    }
    forall w | w in s'.where
      ensures w < s'.nextWs && OwnerExists(s', w)
    {
      assert w in s.where ==> OwnerExists(s, w);
    }
  }

  lemma DropOwns(s: State, e: nat)
    requires Own(s) && Listed(s, e) && s.heap[e].state.None?
    ensures Own(Drop(s, e))
  {
    var s' := Drop(s, e);
    assert forall x :: 0 <= x < |s.heap| && x != e ==> (Listed(s, x) <==> Listed(s', x));
    forall x | 0 <= x < |s'.heap|
      ensures EntryOwns(s', x)
    {
      assert EntryOwns(s, x);
    }
  }

  lemma DropAndCloseOwns(s: State, e: nat)
    requires Own(s) && Listed(s, e)
    ensures Own(DropAndClose(s, e))
  {
    var s' := DropAndClose(s, e);
    assert forall x :: 0 <= x < |s.heap| && x != e ==> (Listed(s, x) <==> Listed(s', x));
    forall x | 0 <= x < |s'.heap|
      ensures EntryOwns(s', x)
    {
      assert EntryOwns(s, x);
    }
  }

  lemma DetachOwns(s: State, e: nat)
    requires Own(s) && Listed(s, e) && s.heap[e].state.Some?
    ensures Own(Detach(s, e))
  {
    var s' := Detach(s, e);
    assert EntryOwns(s, e);
    assert forall x :: 0 <= x < |s.heap| ==> (Listed(s, x) <==> Listed(s', x));
    forall x | 0 <= x < |s'.heap|
      ensures EntryOwns(s', x)
    {
      if x < |s.heap| {
        assert EntryOwns(s, x);
      }
    }
    forall w | w in s'.where
      ensures w < s'.nextWs && OwnerExists(s', w)
    {
      assert OwnerExists(s, w);
    }
  }

  /** Ownership does not look at timers, waiters or counters. */
  lemma OwnIgnores(s: State, s': State)
    requires Own(s) && Shaped(s')
    requires s'.entries == s.entries && s'.heap == s.heap && s'.where == s.where && s'.nextWs == s.nextWs
    requires s'.doomed == s.doomed && s'.shut == s.shut && s'.restores == s.restores
    ensures Own(s')
  {
    assert forall x :: 0 <= x < |s.heap| ==> (Listed(s, x) <==> Listed(s', x));
    forall x | 0 <= x < |s'.heap|
      ensures EntryOwns(s', x)
    {
      assert EntryOwns(s, x);
    }
    forall w | w in s'.where
      ensures w < s'.nextWs && OwnerExists(s', w)
    {
      assert OwnerExists(s, w);
    }
  }

  // ---- what holds of each listed entry ----

  predicate Awake(en: Entry) {
    en.state.Some? || !en.explicit
  }

  /** Leases are counted right; a pending restore has the entry to itself; an entry
      being removed is leased; an idle workspace nobody pinned has a live timer. */
  predicate Calm(s: State, e: nat)
    requires e < |s.heap|
  {
    var en := s.heap[e];
    && en.leases == |en.holders|
    && (en.restore.Some? ==> en.explicit && en.state.None?)
    && (en.explicit && en.state.None? ==> en.leases == 0)
    && (en.removing ==> !en.explicit && en.leases > 0 && en.state.Some?)
    && (en.slot.CodeSlot? ==> !en.explicit && !en.removing)
    && (en.state.Some? && !Busy(en) ==> en.timer && Timer(e, en.epoch) in s.timers)
  }

  predicate AllCalm(s: State) {
    forall e :: 0 <= e < |s.heap| && Listed(s, e) ==> Calm(s, e)
  }

  predicate RestoreTidy(s: State, rid: nat)
    requires rid in s.restores
  {
    && rid < s.nextRestore
    && (!s.restores[rid].Settled? ==> s.restores[rid].entry < |s.heap| && s.heap[s.restores[rid].entry].restore == Some(rid))
  }

  predicate RestoresTidy(s: State) {
    forall rid :: rid in s.restores ==> RestoreTidy(s, rid)
  }

  predicate WaiterTidy(s: State, id: nat)
    requires id in s.waiters
  {
    var w := s.waiters[id];
    && id < s.nextWaiter && w.entry < |s.heap| && s.heap[w.entry].slot.RootSlot?
    && w.restore in s.restores
    && (w.op.Adding? ==> w.op.existed && !w.op.oldRemoving)
    && (!s.restores[w.restore].Settled? ==> s.restores[w.restore].entry == w.entry)
    && (s.restores[w.restore].Settled? && s.restores[w.restore].ok && Listed(s, w.entry) ==> Awake(s.heap[w.entry]))
  }

  predicate WaitersTidy(s: State) {
    forall id :: id in s.waiters ==> WaiterTidy(s, id)
  }

  predicate EntryTidy(s: State, e: nat)
    requires e < |s.heap|
  {
    && (forall h :: h in s.heap[e].holders ==> h < s.nextHolder)
    && (s.heap[e].restore.Some? ==>
          var rid := s.heap[e].restore.value;
          rid in s.restores && !s.restores[rid].Settled? && s.restores[rid].entry == e)
  }

  predicate EntriesTidy(s: State) {
    forall e :: 0 <= e < |s.heap| ==> EntryTidy(s, e)
  }

  predicate TimersTidy(s: State) {
    forall t :: t in s.timers ==> t.entry < |s.heap| && t.epoch <= s.heap[t.entry].epoch
  }

  predicate Tidy(s: State) {
    && RestoresTidy(s) && WaitersTidy(s) && EntriesTidy(s) && TimersTidy(s)
    && (s.closed ==> s.entries == map[])
  }

  predicate Inv(s: State) {
    Own(s) && Tidy(s) && AllCalm(s)
  }

  // ---- steps on one entry ----

  /** s' differs from s only at entry e, which may have been dropped, and in
      entries made to be closed. */
  predicate Touches(s: State, s': State, e: nat) {
    && e < |s.heap| <= |s'.heap|
    && (forall x :: 0 <= x < |s.heap| && x != e ==> s'.heap[x] == s.heap[x])
    && (forall x :: |s.heap| <= x < |s'.heap| ==> s'.heap[x].slot == Unlisted && s'.heap[x].holders == {} && s'.heap[x].restore == None)
    && s'.heap[e].slot == s.heap[e].slot && s'.heap[e].restore == s.heap[e].restore && s'.heap[e].epoch >= s.heap[e].epoch
    && (forall h :: h in s'.heap[e].holders ==> h < s'.nextHolder) && s'.nextHolder >= s.nextHolder
    && (s'.entries == s.entries || s'.entries == s.entries - {s.heap[e].slot})
    && (forall t :: t in s'.timers ==> t in s.timers || (t.entry == e && t.epoch <= s'.heap[e].epoch))
    && (forall t :: t in s.timers && t.entry != e ==> t in s'.timers)
    && s'.restores == s.restores && s'.nextRestore == s.nextRestore
    && s'.waiters == s.waiters && s'.nextWaiter == s.nextWaiter && s'.closed == s.closed
  }

  lemma TouchedTidy(s: State, s': State, e: nat)
    requires Own(s) && Tidy(s) && Touches(s, s', e) && Listed(s, e) && Shaped(s')
    requires Listed(s', e) && Awake(s.heap[e]) ==> Awake(s'.heap[e])
    ensures Tidy(s')
  {
    forall x | 0 <= x < |s'.heap|
      ensures EntryTidy(s', x)
    {
      if x < |s.heap| {
        assert EntryTidy(s, x);
      }
    }
    forall rid | rid in s'.restores
      ensures RestoreTidy(s', rid)
    {
      assert RestoreTidy(s, rid);
    }
    forall id | id in s'.waiters
      ensures WaiterTidy(s', id)
    {
      assert WaiterTidy(s, id);
    }
  }

  predicate CalmBut(s: State, e: nat) {
    forall x :: 0 <= x < |s.heap| && Listed(s, x) && x != e ==> Calm(s, x)
  }

  /** Everything but e's own accounting, which a section may break and mend. */
  predicate Sound(s: State, e: nat) {
    Own(s) && Tidy(s) && CalmBut(s, e) && e < |s.heap|
  }

  lemma Touched(s: State, s': State, e: nat)
    requires Sound(s, e) && Touches(s, s', e) && Listed(s, e) && Own(s')
    requires Listed(s', e) && Awake(s.heap[e]) ==> Awake(s'.heap[e])
    ensures Sound(s', e)
  {
    hide EntriesOwn, RestoresOwn, OpenedOwned, ShutOnce, DoomedUnlisted, WaitersTidy, RestoresTidy, EntriesTidy, TimersTidy;
    TouchedTidy(s, s', e) by { }
    forall x | 0 <= x < |s'.heap| && Listed(s', x) && x != e
      ensures Calm(s', x)
    {
      assert x < |s.heap| && Listed(s, x);
      assert Calm(s, x);
    }
  }

  lemma ScheduleKeeps(s: State, e: nat)
    requires Sound(s, e) && Listed(s, e)
    ensures Sound(Schedule(s, e), e) && Listed(Schedule(s, e), e)
  {
    hide EntriesOwn, RestoresOwn, OpenedOwned, ShutOnce, DoomedUnlisted, WaitersTidy, RestoresTidy, TimersTidy, CalmBut, Calm;
    var en := s.heap[e];
    if !Busy(en) {
      var mid := Set(s, e, en.(epoch := en.epoch + 1, timer := true));
      SetOwns(s, e, mid.heap[e]);
      OwnIgnores(mid, Schedule(s, e));
      assert EntryTidy(s, e);
      Touched(s, Schedule(s, e), e);
    }
  }

  lemma LeaseKeeps(s: State, e: nat)
    requires Sound(s, e) && Listed(s, e)
    ensures Sound(Lease(s, e), e) && Listed(Lease(s, e), e)
  {
    hide EntriesOwn, RestoresOwn, OpenedOwned, ShutOnce, DoomedUnlisted, WaitersTidy, RestoresTidy, TimersTidy, CalmBut, Calm;
    var s' := Lease(s, e);
    var mid := Set(s, e, s'.heap[e]);
    SetOwns(s, e, s'.heap[e]);
    OwnIgnores(mid, s');
    assert EntryTidy(s, e);
    Touched(s, s', e);
  }

  lemma OpenKeeps(s: State, e: nat)
    requires Sound(s, e) && Listed(s, e)
    ensures Sound(OpenIfNone(s, e), e) && Listed(OpenIfNone(s, e), e)
    ensures OpenIfNone(s, e).heap[e] == s.heap[e].(state := OpenIfNone(s, e).heap[e].state)
    ensures OpenIfNone(s, e).heap[e].state.Some?
  {
    hide EntriesOwn, RestoresOwn, OpenedOwned, ShutOnce, DoomedUnlisted, WaitersTidy, RestoresTidy, TimersTidy, CalmBut, Calm;
    if s.heap[e].state.None? {
      OpenOwns(s, e);
      assert EntryTidy(s, e);
      Touched(s, Open(s, e), e);
    }
  }

  lemma SetKeeps(s: State, e: nat, en: Entry)
    requires Sound(s, e) && Listed(s, e)
    requires en.slot == s.heap[e].slot && en.state == s.heap[e].state && en.restore == s.heap[e].restore
    requires en.epoch >= s.heap[e].epoch && en.holders <= s.heap[e].holders
    requires Awake(s.heap[e]) ==> Awake(en)
    ensures Sound(Set(s, e, en), e) && Listed(Set(s, e, en), e)
  {
    hide EntriesOwn, RestoresOwn, OpenedOwned, ShutOnce, DoomedUnlisted, WaitersTidy, RestoresTidy, TimersTidy, CalmBut, Calm;
    SetOwns(s, e, en);
    assert EntryTidy(s, e);
    Touched(s, Set(s, e, en), e);
  }

  lemma DropKeeps(s: State, e: nat)
    requires Sound(s, e) && Listed(s, e)
    ensures Inv(DropAndClose(s, e)) && !Listed(DropAndClose(s, e), e)
    ensures s.heap[e].state.None? ==> Inv(Drop(s, e)) && !Listed(Drop(s, e), e)
  {
    hide EntriesOwn, RestoresOwn, OpenedOwned, ShutOnce, DoomedUnlisted, WaitersTidy, RestoresTidy, TimersTidy, Calm;
    DropAndCloseOwns(s, e);
    assert EntryTidy(s, e);
    Touched(s, DropAndClose(s, e), e);
    if s.heap[e].state.None? {
      DropOwns(s, e);
      Touched(s, Drop(s, e), e);
    }
  }

  lemma DetachKeeps(s: State, e: nat)
    requires Sound(s, e) && Listed(s, e) && s.heap[e].state.Some? && !s.heap[e].explicit
    ensures Sound(Detach(s, e), e) && Listed(Detach(s, e), e)
  {
    hide EntriesOwn, RestoresOwn, OpenedOwned, ShutOnce, DoomedUnlisted, WaitersTidy, RestoresTidy, TimersTidy, CalmBut, Calm;
    DetachOwns(s, e);
    assert EntryTidy(s, e);
    Touched(s, Detach(s, e), e);
  }

  lemma Mended(s: State, e: nat)
    requires Sound(s, e) && Calm(s, e)
    ensures Inv(s)
  {
    hide Own, Tidy, Calm;
    forall x | 0 <= x < |s.heap| && Listed(s, x)
      ensures Calm(s, x)
    {
    }
  }

  // ---- the sections keep the invariant ----

  lemma ResolveTailKeeps(s: State, e: nat, opens: bool)
    requires Inv(s) && Listed(s, e) && s.heap[e].restore.None?
    ensures Inv(ResolveTail(s, e, opens))
  {
    hide Own, Tidy;
    assert Calm(s, e);
    if !s.heap[e].removing {
      if s.heap[e].state.None? && !opens {
        DropKeeps(s, e);
      } else {
        OpenKeeps(s, e);
        ScheduleKeeps(OpenIfNone(s, e), e);
        Mended(ResolveTail(s, e, opens), e);
      }
    }
  }

  lemma AcquireTailKeeps(s: State, e: nat, opens: bool)
    requires Inv(s) && Listed(s, e) && s.heap[e].restore.None?
    ensures Inv(AcquireTail(s, e, opens))
  {
    hide Own, Tidy;
    assert Calm(s, e);
    if !s.heap[e].removing {
      if s.heap[e].state.None? && !opens {
        DropKeeps(s, e);
      } else {
        OpenKeeps(s, e);
        LeaseKeeps(OpenIfNone(s, e), e);
        FreshHolder(OpenIfNone(s, e), e);
        Mended(AcquireTail(s, e, opens), e);
      }
    }
  }

  lemma FreshHolder(s: State, e: nat)
    requires Sound(s, e)
    ensures s.nextHolder !in s.heap[e].holders
  {
    assert EntryTidy(s, e);
  }

  /** What a rollback relies on: without a wait, the entry is as it was read. */
  predicate AddReady(s: State, e: nat, existed: bool, wasOpen: bool, oldRemoving: bool)
    requires e < |s.heap|
  {
    && s.heap[e].restore.None?
    && (!existed ==> s.heap[e].state.None? && !s.heap[e].explicit)
    && (wasOpen ==> s.heap[e].state.Some?)
    && (oldRemoving ==> s.heap[e].removing)
    && (wasOpen || !oldRemoving)
  }

  lemma AddTailKeeps(s: State, e: nat, existed: bool, wasOpen: bool, oldRemoving: bool, opens: bool, persists: bool)
    requires Inv(s) && Listed(s, e) && s.heap[e].slot.RootSlot? && AddReady(s, e, existed, wasOpen, oldRemoving)
    ensures Inv(AddTail(s, e, existed, wasOpen, oldRemoving, opens, persists))
  {
    hide Own, Tidy;
    assert Calm(s, e);
    if s.heap[e].state.None? && !opens {
      if !existed {
        DropKeeps(s, e);
      }
    } else {
      OpenKeeps(s, e);
      var s1 := OpenIfNone(s, e);
      if s1.heap[e].explicit {
        Mended(s1, e);
      } else {
        PinKeeps(s1, e);
        if persists {
          Mended(Pin(s1, e), e);
        } else {
          UnpinKeeps(Pin(s1, e), e, existed, wasOpen, oldRemoving, s1.heap[e].timer);
        }
      }
    }
  }

  lemma PinKeeps(s: State, e: nat)
    requires Sound(s, e) && Listed(s, e) && s.heap[e].state.Some?
    ensures Sound(Pin(s, e), e) && Listed(Pin(s, e), e)
  {
    hide Own, Tidy, CalmBut;
    var en := s.heap[e];
    SetKeeps(s, e, en.(epoch := en.epoch + 1, timer := false, explicit := true, removing := false));
  }

  lemma UnpinKeeps(s: State, e: nat, existed: bool, wasOpen: bool, oldRemoving: bool, oldTimer: bool)
    requires Sound(s, e) && Listed(s, e) && s.heap[e].slot.RootSlot?
    requires s.heap[e].state.Some? && s.heap[e].restore.None? && s.heap[e].leases == |s.heap[e].holders|
    requires oldRemoving ==> wasOpen && s.heap[e].leases > 0
    requires existed && wasOpen && !oldRemoving && s.heap[e].leases == 0 ==> oldTimer
    ensures Inv(Unpin(s, e, existed, wasOpen, oldRemoving, oldTimer))
  {
    hide Own, Tidy, CalmBut;
    var en := s.heap[e].(explicit := false, removing := oldRemoving);
    SetKeeps(s, e, en);
    var s1 := Set(s, e, en);
    if !existed {
      DropKeeps(s1, e);
    } else {
      if !wasOpen {
        DetachKeeps(s1, e);
      }
      var s2 := if wasOpen then s1 else Detach(s1, e);
      if oldTimer {
        ScheduleKeeps(s2, e);
      }
      Mended(Unpin(s, e, existed, wasOpen, oldRemoving, oldTimer), e);
    }
  }

  lemma StartRemoveKeeps(s: State, slot: Slot, persists: bool)
    requires Inv(s) && slot.RootSlot?
    ensures Inv(StartRemove(s, slot, persists))
  {
    if slot in s.entries && s.heap[s.entries[slot]].explicit {
      var e := s.entries[slot];
      assert Listed(s, e);
      hide Own, Tidy;
      assert Calm(s, e);
      var en := s.heap[e].(epoch := s.heap[e].epoch + 1, timer := false);
      if !persists {
        SetKeeps(s, e, en.(explicit := true, removing := false));
        Mended(StartRemove(s, slot, persists), e);
      } else {
        var s1 := Set(s, e, en.(explicit := false, removing := true));
        SetKeeps(s, e, en.(explicit := false, removing := true));
        if en.leases == 0 {
          DropKeeps(s1, e);
        } else {
          Mended(s1, e);
        }
      }
    }
  }

  lemma ReleasedKeeps(s: State, e: nat, holder: nat)
    requires Inv(s) && e < |s.heap| && !Listed(s, e)
    ensures Inv(Set(s, e, s.heap[e].(holders := s.heap[e].holders - {holder})))
  {
    hide EntriesOwn, RestoresOwn, OpenedOwned, ShutOnce, DoomedUnlisted, Calm;
    var s' := Set(s, e, s.heap[e].(holders := s.heap[e].holders - {holder}));
    SetOwns(s, e, s'.heap[e]);
    forall x | 0 <= x < |s'.heap|
      ensures EntryTidy(s', x)
    {
      assert EntryTidy(s, x);
    }
    forall rid | rid in s'.restores
      ensures RestoreTidy(s', rid)
    {
      assert RestoreTidy(s, rid);
    }
    forall id | id in s'.waiters
      ensures WaiterTidy(s', id)
    {
      assert WaiterTidy(s, id);
    }
    forall x | 0 <= x < |s'.heap| && Listed(s', x)
      ensures Calm(s', x)
    {
      assert Listed(s, x) && Calm(s, x) && x != e;
      CalmSame(s, s', x);
    }
  }

  lemma CalmSame(s: State, s': State, e: nat)
    requires e < |s.heap| && e < |s'.heap| && Calm(s, e) && s'.heap[e] == s.heap[e]
    requires Timer(e, s.heap[e].epoch) in s.timers ==> Timer(e, s.heap[e].epoch) in s'.timers
    ensures Calm(s', e)
  {
  }

  lemma GiveBackKeeps(s: State, e: nat, holder: nat)
    requires Inv(s) && e < |s.heap| && holder in s.heap[e].holders
    ensures Inv(GiveBack(s, e, holder))
  {
    if !Listed(s, e) {
      ReleasedKeeps(s, e, holder);
    } else {
      hide Own, Tidy;
      assert Calm(s, e);
      assert |s.heap[e].holders| > 0;
      var en := s.heap[e].(holders := s.heap[e].holders - {holder}, leases := s.heap[e].leases - 1);
      SetKeeps(s, e, en);
      var s1 := Set(s, e, en);
      if s.heap[e].leases == 1 && en.removing {
        DropKeeps(s1, e);
      } else {
        ScheduleKeeps(s1, e);
        Mended(Schedule(s1, e), e);
      }
    }
  }

  lemma FewerTimers(s: State, timer: Timer)
    requires Inv(s)
    requires timer.entry < |s.heap| && Listed(s, timer.entry) ==> Busy(s.heap[timer.entry]) || s.heap[timer.entry].epoch != timer.epoch || s.heap[timer.entry].state.None?
    ensures Inv(s.(timers := s.timers - {timer}))
  {
    hide EntriesOwn, RestoresOwn, OpenedOwned, ShutOnce, DoomedUnlisted;
    var s' := s.(timers := s.timers - {timer});
    OwnIgnores(s, s');
    TidyIgnores(s, s');
    forall x | 0 <= x < |s'.heap| && Listed(s', x)
      ensures Calm(s', x)
    {
      assert Listed(s, x) && Calm(s, x);
    }
  }

  lemma TidyIgnores(s: State, s': State)
    requires Tidy(s) && s' == s.(timers := s'.timers) && s'.timers <= s.timers
    ensures Tidy(s')
  {
    forall x | 0 <= x < |s'.heap|
      ensures EntryTidy(s', x)
    {
      assert EntryTidy(s, x);
    }
    forall rid | rid in s'.restores
      ensures RestoreTidy(s', rid)
    {
      assert RestoreTidy(s, rid);
    }
    forall id | id in s'.waiters
      ensures WaiterTidy(s', id)
    {
      assert WaiterTidy(s, id);
    }
  }

  lemma FireTimerKeeps(s: State, timer: Timer)
    requires Inv(s) && timer in s.timers
    ensures Inv(FireTimer(s, timer))
  {
    assert s.closed ==> s.entries == map[];
    hide Own, Tidy, Calm;
    if Evicts(s, timer) {
      DropKeeps(s, timer.entry);
      var s1 := DropAndClose(s, timer.entry);
      FewerTimers(s1, timer);
      assert FireTimer(s, timer) == s1.(timers := s1.timers - {timer});
    } else {
      FewerTimers(s, timer);
    }
  }

  lemma EnsureKeeps(s: State, slot: Slot)
    requires Inv(s) && slot != Unlisted && !s.closed
    ensures Inv(Ensure(s, slot))
  {
    hide EntriesOwn, RestoresOwn, OpenedOwned, ShutOnce, DoomedUnlisted;
    EnsureOwns(s, slot);
    var s' := Ensure(s, slot);
    if slot !in s.entries {
      assert forall e :: 0 <= e < |s.heap| ==> (Listed(s, e) <==> Listed(s', e));
      forall x | 0 <= x < |s'.heap|
        ensures EntryTidy(s', x)
      {
        if x < |s.heap| {
          assert EntryTidy(s, x);
        }
      }
      forall rid | rid in s'.restores
        ensures RestoreTidy(s', rid)
      {
        assert RestoreTidy(s, rid);
      }
      forall id | id in s'.waiters
        ensures WaiterTidy(s', id)
      {
        assert WaiterTidy(s, id);
      }
      forall x | 0 <= x < |s'.heap| && Listed(s', x)
        ensures Calm(s', x)
      {
        if x < |s.heap| {
          assert Calm(s, x);
        }
      }
    }
  }

  lemma ParkKeeps(s: State, e: nat, op: Parked)
    requires Inv(s) && Listed(s, e) && s.heap[e].slot.RootSlot? && s.heap[e].restore.Some?
    requires op.Adding? ==> op.existed && !op.oldRemoving
    ensures Inv(Park(s, e, op))
  {
    hide EntriesOwn, RestoresOwn, OpenedOwned, ShutOnce, DoomedUnlisted;
    var s' := Park(s, e, op);
    assert EntryTidy(s, e);
    OwnIgnores(s, s');
    forall x | 0 <= x < |s'.heap|
      ensures EntryTidy(s', x)
    {
      assert EntryTidy(s, x);
    }
    forall rid | rid in s'.restores
      ensures RestoreTidy(s', rid)
    {
      assert RestoreTidy(s, rid);
    }
    forall id | id in s'.waiters
      ensures WaiterTidy(s', id)
    {
      assert id in s.waiters ==> WaiterTidy(s, id);
    }
    forall x | 0 <= x < |s'.heap| && Listed(s', x)
      ensures Calm(s', x)
    {
      assert Listed(s, x) && Calm(s, x);
    }
  }

  lemma EnsuredListed(s: State, slot: Slot)
    requires Shaped(s) && slot != Unlisted
    ensures var s' := Ensure(s, slot);
      && Listed(s', s'.entries[slot]) && s'.heap[s'.entries[slot]].slot == slot
      && (slot !in s.entries ==> s'.heap[s'.entries[slot]] == Blank(slot))
  {
  }

  lemma StartAddKeeps(s: State, slot: Slot, opens: bool, persists: bool)
    requires Inv(s) && slot.RootSlot?
    ensures Inv(StartAdd(s, slot, opens, persists))
  {
    if !s.closed {
      EnsureKeeps(s, slot);
      EnsuredListed(s, slot);
      var s1 := Ensure(s, slot);
      hide Own, Tidy;
      var e := s1.entries[slot];
      var en := s1.heap[e];
      assert Calm(s1, e);
      if en.state.None? && en.restore.Some? {
        ParkKeeps(s1, e, Adding(slot in s.entries, en.removing));
      } else {
        AddTailKeeps(s1, e, slot in s.entries, en.state.Some?, en.removing, opens, persists);
      }
    }
  }

  lemma StartResolveKeeps(s: State, slot: Slot, opens: bool)
    requires Inv(s) && slot.RootSlot?
    ensures Inv(StartResolve(s, slot, opens)) && Inv(StartAcquire(s, slot, opens))
  {
    if !s.closed {
      EnsureKeeps(s, slot);
      EnsuredListed(s, slot);
      var s1 := Ensure(s, slot);
      hide Own, Tidy;
      var e := s1.entries[slot];
      if s1.heap[e].restore.Some? {
        ParkKeeps(s1, e, Resolving);
        ParkKeeps(s1, e, Acquiring);
      } else {
        ResolveTailKeeps(s1, e, opens);
        AcquireTailKeeps(s1, e, opens);
      }
    }
  }

  lemma CodeTailKeeps(s: State, e: nat)
    requires Inv(s) && Listed(s, e) && s.heap[e].slot.CodeSlot?
    ensures Inv(Schedule(OpenIfNone(s, e), e)) && Inv(Lease(OpenIfNone(s, e), e))
  {
    hide Own, Tidy, CalmBut;
    assert Calm(s, e);
    SoundFromInv(s, e);
    OpenKeeps(s, e);
    var s1 := OpenIfNone(s, e);
    ScheduleKeeps(s1, e);
    Mended(Schedule(s1, e), e);
    LeaseKeeps(s1, e);
    FreshHolder(s1, e);
    Mended(Lease(s1, e), e);
  }

  lemma CodeStepsKeep(s: State, slot: Slot, opens: bool)
    requires Inv(s) && slot.CodeSlot?
    ensures Inv(CodeResolve(s, slot, opens)) && Inv(CodeAcquire(s, slot, opens))
  {
    if !s.closed {
      EnsureKeeps(s, slot);
      EnsuredListed(s, slot);
      var s1 := Ensure(s, slot);
      hide Own, Tidy, AllCalm, Schedule, Lease;
      var e := s1.entries[slot];
      if s1.heap[e].state.None? && !opens {
        SoundFromInv(s1, e);
        DropKeeps(s1, e);
      } else {
        CodeTailKeeps(s1, e);
      }
    }
  }

  lemma SoundFromInv(s: State, e: nat)
    requires Inv(s) && e < |s.heap|
    ensures Sound(s, e)
  {
    hide Own, Tidy, Calm;
  }

  lemma WakeUpKeeps(s: State, id: nat, opens: bool, persists: bool)
    requires Inv(s) && Enabled(s, Wake(id, opens, persists))
    ensures Inv(WakeUp(s.(waiters := s.waiters - {id}), s.waiters[id], opens, persists))
  {
    var s1 := s.(waiters := s.waiters - {id});
    var w := s.waiters[id];
    assert WaiterTidy(s, id);
    UnparkKeeps(s, id);
    if s.restores[w.restore].ok && !s.closed && Listed(s, w.entry) {
      hide Own, Tidy;
      assert Calm(s, w.entry);
      match w.op {
        case Adding(existed, oldRemoving) => AddTailKeeps(s1, w.entry, existed, false, oldRemoving, opens, persists);
        case Resolving => ResolveTailKeeps(s1, w.entry, opens);
        case Acquiring => AcquireTailKeeps(s1, w.entry, opens);
      }
    }
  }

  lemma UnparkKeeps(s: State, id: nat)
    requires Inv(s)
    ensures Inv(s.(waiters := s.waiters - {id}))
  {
    hide EntriesOwn, RestoresOwn, OpenedOwned, ShutOnce, DoomedUnlisted;
    var s' := s.(waiters := s.waiters - {id});
    OwnIgnores(s, s');
    forall x | 0 <= x < |s'.heap|
      ensures EntryTidy(s', x)
    {
      assert EntryTidy(s, x);
    }
    forall rid | rid in s'.restores
      ensures RestoreTidy(s', rid)
    {
      assert RestoreTidy(s, rid);
    }
    forall other | other in s'.waiters
      ensures WaiterTidy(s', other)
    {
      assert WaiterTidy(s, other);
    }
    forall x | 0 <= x < |s'.heap| && Listed(s', x)
      ensures Calm(s', x)
    {
      assert Listed(s, x) && Calm(s, x);
    }
  }

  lemma StartRestoreKeeps(s: State, slot: Slot)
    requires Inv(s) && slot.RootSlot?
    ensures Inv(StartRestore(s, slot))
  {
    hide EntriesOwn, OpenedOwned, ShutOnce, DoomedUnlisted;
    var s' := StartRestore(s, slot);
    if s' != s {
      var e := s.entries[slot];
      var rid := s.nextRestore;
      assert Calm(s, e) && EntryTidy(s, e);
      assert rid !in s.restores by {
        assert rid in s.restores ==> RestoreTidy(s, rid);
      }
      var mid := Set(s, e, s'.heap[e]);
      SetOwns(s, e, s'.heap[e]);
      RestoreAdded(mid, s', rid, Opening(e));
      forall x | 0 <= x < |s'.heap|
        ensures EntryTidy(s', x)
      {
        assert EntryTidy(s, x);
      }
      forall r | r in s'.restores
        ensures RestoreTidy(s', r)
      {
        assert r in s.restores ==> RestoreTidy(s, r);
      }
      forall id | id in s'.waiters
        ensures WaiterTidy(s', id)
      {
        assert WaiterTidy(s, id);
      }
      forall x | 0 <= x < |s'.heap| && Listed(s', x)
        ensures Calm(s', x)
      {
        assert Listed(s, x) && Calm(s, x);
      }
    }
  }

  /** A restore record that holds no workspace, replacing none or one that held none. */
  lemma RestoreAdded(s: State, s': State, rid: nat, r: Restore)
    requires Own(s) && Shaped(s') && !r.OpenedFor?
    requires rid in s.restores ==> !s.restores[rid].OpenedFor?
    requires s'.entries == s.entries && s'.heap == s.heap && s'.where == s.where && s'.nextWs == s.nextWs
    requires s'.doomed == s.doomed && s'.shut == s.shut && s'.restores == s.restores[rid := r]
    ensures Own(s')
  {
    assert forall x :: 0 <= x < |s.heap| ==> (Listed(s, x) <==> Listed(s', x));
    forall x | 0 <= x < |s'.heap|
      ensures EntryOwns(s', x)
    {
      assert EntryOwns(s, x);
    }
    forall w | w in s'.where
      ensures w < s'.nextWs && OwnerExists(s', w)
    {
      assert OwnerExists(s, w);
    }
    forall other | other in s'.restores
      ensures RestoreOwns(s', other)
    {
      assert other in s.restores ==> RestoreOwns(s, other);
    }
  }

  /** The bookkeeping of a restore record moving on, entry untouched. */
  lemma RestoreMoved(s: State, s': State, rid: nat)
    requires Own(s) && Tidy(s) && AllCalm(s) && Own(s') && rid in s.restores && !s.restores[rid].Settled?
    requires s'.restores.Keys == s.restores.Keys && (forall r :: r in s.restores && r != rid ==> s'.restores[r] == s.restores[r])
    requires !s'.restores[rid].Settled? && s'.restores[rid].entry == s.restores[rid].entry
    requires s' == s.(restores := s'.restores, where := s'.where, nextWs := s'.nextWs)
    ensures Inv(s')
  {
    hide EntriesOwn, RestoresOwn, OpenedOwned, ShutOnce, DoomedUnlisted;
    forall x | 0 <= x < |s'.heap|
      ensures EntryTidy(s', x)
    {
      assert EntryTidy(s, x);
    }
    forall r | r in s'.restores
      ensures RestoreTidy(s', r)
    {
      assert RestoreTidy(s, r);
    }
    forall id | id in s'.waiters
      ensures WaiterTidy(s', id)
    {
      assert WaiterTidy(s, id);
    }
    forall x | 0 <= x < |s'.heap| && Listed(s', x)
      ensures Calm(s', x)
    {
      assert Listed(s, x) && Calm(s, x);
    }
  }

  lemma RestoreOpenedKeeps(s: State, rid: nat, opens: bool)
    requires Inv(s) && rid in s.restores && s.restores[rid].Opening?
    ensures Inv(RestoreOpened(s, rid, opens))
  {
    var s' := RestoreOpened(s, rid, opens);
    assert RestoreTidy(s, rid);
    if opens {
      OpenedForOwns(s, rid);
    } else {
      RestoreAdded(s, s', rid, OpenFailed(s.restores[rid].entry));
    }
    RestoreMoved(s, s', rid);
  }

  lemma OpenedForOwns(s: State, rid: nat)
    requires Own(s) && rid in s.restores && s.restores[rid].Opening?
    ensures Own(RestoreOpened(s, rid, true))
  {
    var s' := RestoreOpened(s, rid, true);
    assert forall x :: 0 <= x < |s.heap| ==> (Listed(s, x) <==> Listed(s', x));
    forall x | 0 <= x < |s'.heap|
      ensures EntryOwns(s', x)
    {
      assert EntryOwns(s, x);
    }
    forall w | w in s'.where
      ensures w < s'.nextWs && OwnerExists(s', w)
    {
      assert w in s.where ==> OwnerExists(s, w);
    }
    forall other | other in s'.restores
      ensures RestoreOwns(s', other)
    {
      assert RestoreOwns(s, other);
    }
  }

  /** Settling moves the workspace into its entry ... */
  lemma MoveInOwns(s: State, rid: nat)
    requires Own(s) && rid in s.restores && s.restores[rid].OpenedFor?
    requires Listed(s, s.restores[rid].entry) && s.heap[s.restores[rid].entry].state.None?
    ensures Own(MoveIn(s, rid))
  {
    var s' := MoveIn(s, rid);
    var r := s.restores[rid];
    assert RestoreOwns(s, rid) && OwnerExists(s, r.ws);
    assert forall x :: 0 <= x < |s.heap| ==> (Listed(s, x) <==> Listed(s', x));
    forall x | 0 <= x < |s'.heap|
      ensures EntryOwns(s', x)
    {
      assert EntryOwns(s, x);
    }
    forall w | w in s'.where
      ensures w < s'.nextWs && OwnerExists(s', w)
    {
      assert OwnerExists(s, w);
    }
    forall other | other in s'.restores
      ensures RestoreOwns(s', other)
    {
      assert RestoreOwns(s, other);
    }
  }

  /** ... or into one about to be closed. */
  lemma MoveOutOwns(s: State, rid: nat)
    requires Own(s) && rid in s.restores && s.restores[rid].OpenedFor?
    ensures Own(MoveOut(s, rid))
  {
    var s' := MoveOut(s, rid);
    var r := s.restores[rid];
    assert RestoreOwns(s, rid) && OwnerExists(s, r.ws);
    assert forall x :: 0 <= x < |s.heap| ==> (Listed(s, x) <==> Listed(s', x));
    forall x | 0 <= x < |s'.heap|
      ensures EntryOwns(s', x)
    {
      if x < |s.heap| {
        assert EntryOwns(s, x);
      }
    }
    forall w | w in s'.where
      ensures w < s'.nextWs && OwnerExists(s', w)
    {
      assert OwnerExists(s, w);
    }
    forall other | other in s'.restores
      ensures RestoreOwns(s', other)
    {
      assert RestoreOwns(s, other);
    }
  }

  lemma SettleOwns(s: State, rid: nat)
    requires Own(s) && rid in s.restores && (s.restores[rid].OpenedFor? || s.restores[rid].OpenFailed?)
    requires s.restores[rid].OpenedFor? && Welcome(s, s.restores[rid].entry) ==> s.heap[s.restores[rid].entry].state.None?
    ensures Own(SettleRestore(s, rid))
  {
    hide EntriesOwn, RestoresOwn, OpenedOwned, ShutOnce, DoomedUnlisted, MoveIn, MoveOut;
    var r := s.restores[rid];
    var s1 := Set(s, r.entry, RestoreCleared(s.heap[r.entry], rid));
    SetOwns(s, r.entry, s1.heap[r.entry]);
    if r.OpenFailed? {
      RestoreAdded(s1, SettleRestore(s, rid), rid, Settled(false));
    } else if Welcome(s, r.entry) {
      MoveInOwns(s1, rid);
    } else {
      MoveOutOwns(s1, rid);
    }
  }

  lemma SettleKeeps(s: State, rid: nat)
    requires Inv(s) && Enabled(s, RestoreSettle(rid))
    ensures Inv(SettleRestore(s, rid))
  {
    hide EntriesOwn, RestoresOwn, OpenedOwned, ShutOnce, DoomedUnlisted;
    var e := s.restores[rid].entry;
    assert RestoreTidy(s, rid) && EntryTidy(s, e);
    assert Listed(s, e) ==> Calm(s, e);
    SettleOwns(s, rid);
    SettleTidy(s, rid);
    SettleCalm(s, rid);
  }

  lemma SettleTidy(s: State, rid: nat)
    requires Own(s) && Tidy(s) && Enabled(s, RestoreSettle(rid))
    ensures Tidy(SettleRestore(s, rid))
  {
    hide EntriesOwn, RestoresOwn, OpenedOwned, ShutOnce, DoomedUnlisted, WaitersTidy, EntriesTidy, RestoresTidy;
    SettleEntries(s, rid);
    SettleWaiters(s, rid);
    SettleTimers(s, rid);
  }

  lemma SettleTimers(s: State, rid: nat)
    requires Shaped(s) && TimersTidy(s) && Enabled(s, RestoreSettle(rid)) && (s.closed ==> s.entries == map[])
    ensures TimersTidy(SettleRestore(s, rid)) && (SettleRestore(s, rid).closed ==> SettleRestore(s, rid).entries == map[])
  {
  }

  lemma SettleEntries(s: State, rid: nat)
    requires Shaped(s) && EntriesTidy(s) && RestoresTidy(s) && Enabled(s, RestoreSettle(rid))
    ensures EntriesTidy(SettleRestore(s, rid)) && RestoresTidy(SettleRestore(s, rid))
  {
    var s' := SettleRestore(s, rid);
    assert RestoreTidy(s, rid);
    forall x | 0 <= x < |s'.heap|
      ensures EntryTidy(s', x)
    {
      if x < |s.heap| {
        assert EntryTidy(s, x);
      }
    }
    forall r | r in s'.restores
      ensures RestoreTidy(s', r)
    {
      assert RestoreTidy(s, r);
    }
  }

  /** What the entries and records look like after settling. */
  lemma SettleFacts(s: State, rid: nat)
    requires Shaped(s) && Enabled(s, RestoreSettle(rid))
    ensures var s', r := SettleRestore(s, rid), s.restores[rid];
      && s'.waiters == s.waiters && s'.entries == s.entries && s'.nextWaiter == s.nextWaiter
      && |s.heap| <= |s'.heap|
      && (forall x :: 0 <= x < |s.heap| ==> s'.heap[x].slot == s.heap[x].slot && (Awake(s.heap[x]) ==> Awake(s'.heap[x])))
      && s'.restores == s.restores[rid := s'.restores[rid]]
      && s'.restores[rid].Settled? && (s'.restores[rid].ok ==> Awake(s'.heap[r.entry]))
  {
  }

  lemma SettleWaiters(s: State, rid: nat)
    requires Shaped(s) && WaitersTidy(s) && Enabled(s, RestoreSettle(rid))
    ensures WaitersTidy(SettleRestore(s, rid))
  {
    SettleFacts(s, rid);
    hide SettleRestore, Shaped, Awake;
    var s' := SettleRestore(s, rid);
    forall id | id in s'.waiters
      ensures WaiterTidy(s', id)
    {
      assert WaiterTidy(s, id);
      var w := s.waiters[id];
      assert Listed(s', w.entry) ==> Listed(s, w.entry);
    }
  }

  lemma SettleCalm(s: State, rid: nat)
    requires Own(s) && AllCalm(s) && Enabled(s, RestoreSettle(rid))
    requires s.heap[s.restores[rid].entry].restore == Some(rid)
    ensures AllCalm(SettleRestore(s, rid))
  {
    hide EntriesOwn, RestoresOwn, OpenedOwned, ShutOnce, DoomedUnlisted;
    var s' := SettleRestore(s, rid);
    var e := s.restores[rid].entry;
    assert s'.entries == s.entries && s'.timers == s.timers;
    forall x | 0 <= x < |s'.heap| && Listed(s', x)
      ensures Calm(s', x)
    {
      assert x < |s.heap| && Listed(s, x) && Calm(s, x);
      if x != e {
        CalmSame(s, s', x);
      }
    }
  }

  lemma CloseAllKeeps(s: State)
    requires Inv(s)
    ensures Inv(Next(s, CloseAll))
  {
    var s' := Next(s, CloseAll);
    if !s.closed {
      assert forall x :: 0 <= x < |s.heap| && Listed(s, x) ==> x in s'.doomed by {
        assert forall x :: 0 <= x < |s.heap| && Listed(s, x) ==> s.entries[s.heap[x].slot] in s.entries.Values;
      }
      forall e | e in s'.doomed
        ensures e < |s'.heap| && !Listed(s', e)
      {
      }
      forall x | 0 <= x < |s'.heap|
        ensures EntryOwns(s', x)
      {
        assert EntryOwns(s, x);
      }
      forall w | w in s'.where
        ensures w < s'.nextWs && OwnerExists(s', w)
      {
        assert OwnerExists(s, w);
      }
      ClosedTidy(s, s');
    }
  }

  lemma ClosedTidy(s: State, s': State)
    requires Tidy(s) && s' == s.(closed := true, entries := map[], doomed := s'.doomed)
    ensures Tidy(s')
  {
    forall x | 0 <= x < |s'.heap|
      ensures EntryTidy(s', x)
    {
      assert EntryTidy(s, x);
    }
    forall r | r in s'.restores
      ensures RestoreTidy(s', r)
    {
      assert RestoreTidy(s, r);
    }
    forall id | id in s'.waiters
      ensures WaiterTidy(s', id)
    {
      assert WaiterTidy(s, id);
    }
  }

  lemma CloseOneKeeps(s: State, e: nat)
    requires Inv(s) && e in s.doomed
    ensures Inv(CloseOne(s, e))
  {
    var s' := CloseOne(s, e);
    assert EntryOwns(s, e);
    forall x | 0 <= x < |s'.heap|
      ensures EntryOwns(s', x)
    {
      assert EntryOwns(s, x);
    }
    forall w | w in s'.where
      ensures w < s'.nextWs && OwnerExists(s', w)
    {
      assert OwnerExists(s, w);
    }
    forall r | r in s'.restores
      ensures RestoreOwns(s', r)
    {
      assert RestoreOwns(s, r);
    }
    ShutTidy(s, s');
  }

  lemma ShutTidy(s: State, s': State)
    requires Inv(s) && s' == s.(doomed := s'.doomed, shut := s'.shut)
    ensures Tidy(s') && AllCalm(s')
  {
    forall x | 0 <= x < |s'.heap|
      ensures EntryTidy(s', x)
    {
      assert EntryTidy(s, x);
    }
    forall r | r in s'.restores
      ensures RestoreTidy(s', r)
    {
      assert RestoreTidy(s, r);
    }
    forall id | id in s'.waiters
      ensures WaiterTidy(s', id)
    {
      assert WaiterTidy(s, id);
    }
    forall x | 0 <= x < |s'.heap| && Listed(s', x)
      ensures Calm(s', x)
    {
      assert Listed(s, x) && Calm(s, x);
    }
  }

  lemma StepKeepsInv(s: State, step: Step)
    requires Inv(s) && Enabled(s, step)
    ensures Inv(Next(s, step))
  {
    match step
    case Add(root, opens, persists) => StartAddKeeps(s, RootSlot(root), opens, persists);
    case Resolve(root, opens) => StartResolveKeeps(s, RootSlot(root), opens);
    case Acquire(root, opens) => StartResolveKeeps(s, RootSlot(root), opens);
    case Wake(id, opens, persists) => WakeUpKeeps(s, id, opens, persists);
    case ResolveCode(root, db, opens) => CodeStepsKeep(s, CodeSlot(root, db), opens);
    case AcquireCode(root, db, opens) => CodeStepsKeep(s, CodeSlot(root, db), opens);
    case Remove(root, persists) => StartRemoveKeeps(s, RootSlot(root), persists);
    case Release(e, holder) => GiveBackKeeps(s, e, holder);
    case Fire(timer) => FireTimerKeeps(s, timer);
    case RestoreStart(root) => StartRestoreKeeps(s, RootSlot(root));
    case RestoreOpen(rid, opens) => RestoreOpenedKeeps(s, rid, opens);
    case RestoreSettle(rid) => SettleKeeps(s, rid);
    case CloseAll => CloseAllKeeps(s);
    case CloseEntry(e) => CloseOneKeeps(s, e);
  }
}
