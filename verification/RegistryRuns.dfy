/** What holds over every run of the workspace registry. */
module RegistryRuns {
  import opened Options
  import opened Registry
  import opened Sequences

  // ---- runs ----

  function Empty(): State {
    State(false, map[], [], map[], 0, {}, [], {}, map[], 0, map[], 0, 0)
  }

  function PinSaved(s: State, slot: Slot): (s': State)
    requires Shaped(s) && slot != Unlisted
    ensures Shaped(s')
  {
    var s1 := Ensure(s, slot);
    Set(s1, s1.entries[slot], s1.heap[s1.entries[slot]].(explicit := true))
  }

  /** newWorkspaceRegistry: one pinned, unopened entry per saved root. */
  function Loaded(roots: seq<string>): (s: State)
    ensures Shaped(s)
  {
    if roots == [] then Empty() else PinSaved(Loaded(roots[..|roots| - 1]), RootSlot(roots[|roots| - 1]))
  }

  lemma EmptyInv()
    ensures Inv(Empty())
  {
  }

  predicate Untouched(s: State) {
    && s.timers == {} && !s.closed && s.restores == map[] && s.where == map[] && s.doomed == {}
    && forall e :: 0 <= e < |s.heap| ==> s.heap[e].state.None? && s.heap[e].leases == 0
  }

  lemma {:induction false} LoadedInv(roots: seq<string>)
    ensures Inv(Loaded(roots)) && Untouched(Loaded(roots))
  {
    if roots == [] {
      EmptyInv();
    } else {
      LoadedInv(roots[..|roots| - 1]);
      PinSavedInv(Loaded(roots[..|roots| - 1]), RootSlot(roots[|roots| - 1]));
    }
  }

  lemma PinSavedInv(s: State, slot: Slot)
    requires Inv(s) && Untouched(s) && slot.RootSlot?
    ensures Inv(PinSaved(s, slot)) && Untouched(PinSaved(s, slot))
  {
    EnsureKeeps(s, slot);
    EnsuredListed(s, slot);
    var s1 := Ensure(s, slot);
    hide Own, Tidy, AllCalm;
    PinFresh(s1, s1.entries[slot]);
  }

  lemma PinFresh(s: State, e: nat)
    requires Inv(s) && Listed(s, e) && s.restores == map[] && s.heap[e].state.None? && s.heap[e].leases == 0
    requires s.heap[e].slot.RootSlot?
    ensures Inv(Set(s, e, s.heap[e].(explicit := true)))
  {
    hide EntriesOwn, RestoresOwn, OpenedOwned, ShutOnce, DoomedUnlisted;
    var s' := Set(s, e, s.heap[e].(explicit := true));
    SetOwns(s, e, s'.heap[e]);
    forall x | 0 <= x < |s'.heap|
      ensures EntryTidy(s', x)
    {
      assert EntryTidy(s, x);
    }
    assert WaitersTidy(s') by {
      assert forall id :: id in s.waiters ==> WaiterTidy(s, id);
    }
    forall x | 0 <= x < |s'.heap| && Listed(s', x)
      ensures Calm(s', x)
    {
      assert Listed(s, x) && Calm(s, x);
    }
  }

  predicate IsRun(run: seq<State>, steps: seq<Step>, roots: seq<string>) {
    && |run| == |steps| + 1 && run[0] == Loaded(roots)
    && forall i :: 0 <= i < |steps| ==> Shaped(run[i]) && Enabled(run[i], steps[i]) && run[i + 1] == Next(run[i], steps[i])
  }

  lemma {:induction false} RunKeepsInv(run: seq<State>, steps: seq<Step>, roots: seq<string>, k: nat)
    requires IsRun(run, steps, roots) && k <= |steps|
    ensures Inv(run[k])
  {
    if k == 0 {
      LoadedInv(roots);
    } else {
      RunKeepsInv(run, steps, roots, k - 1);
      StepKeepsInv(run[k - 1], steps[k - 1]);
    }
  }

  // ---- every opened workspace, in exactly one place ----

  ghost predicate InUse(s: State, w: nat) {
    exists e: nat :: Listed(s, e) && s.heap[e].state == Some(w)
  }

  predicate InFlight(s: State, w: nat) {
    exists rid :: rid in s.restores && s.restores[rid].OpenedFor? && s.restores[rid].ws == w
  }

  ghost predicate AboutToClose(s: State, w: nat) {
    exists e :: 0 <= e < |s.heap| && e in s.doomed && s.heap[e].state == Some(w)
  }

  predicate ExactlyOne(a: bool, b: bool, c: bool, d: bool) {
    (a || b || c || d) && !(a && b) && !(a && c) && !(a && d) && !(b && c) && !(b && d) && !(c && d)
  }

  /** In every reachable state each opened workspace is in use, in flight, about to
      be closed, or closed: one of the four, in one entry, and closed only once. */
  lemma OpenedExactlyOnce(run: seq<State>, steps: seq<Step>, roots: seq<string>, k: nat, w: nat)
    requires IsRun(run, steps, roots) && k <= |steps| && w in run[k].where
    ensures var s := run[k];
      && ExactlyOne(InUse(s, w), InFlight(s, w), AboutToClose(s, w), w in s.shut)
      && (forall a, b :: 0 <= a < |s.heap| && 0 <= b < |s.heap| && s.heap[a].state == Some(w) && s.heap[b].state == Some(w) ==> a == b)
      && multiset(s.shut)[w] <= 1
  {
    RunKeepsInv(run, steps, roots, k);
    PlacedOnce(run[k], w);
    CountedOnce(run[k].shut, w);
  }

  lemma PlacedOnce(s: State, w: nat)
    requires Own(s) && w in s.where
    ensures ExactlyOne(InUse(s, w), InFlight(s, w), AboutToClose(s, w), w in s.shut)
    ensures forall a, b :: 0 <= a < |s.heap| && 0 <= b < |s.heap| && s.heap[a].state == Some(w) && s.heap[b].state == Some(w) ==> a == b
  {
    assert OwnerExists(s, w);
    assert forall x :: 0 <= x < |s.heap| && s.heap[x].state == Some(w) ==> s.where[w] == InEntry(x) by {
      forall x | 0 <= x < |s.heap| && s.heap[x].state == Some(w)
        ensures s.where[w] == InEntry(x)
      {
        assert EntryOwns(s, x);
      }
    }
    assert forall rid :: rid in s.restores && s.restores[rid].OpenedFor? && s.restores[rid].ws == w ==> s.where[w] == InRestore(rid) by {
      assert forall rid :: rid in s.restores ==> RestoreOwns(s, rid);
    }
    match s.where[w] {
      case InEntry(e) =>
        assert EntryOwns(s, e);
        assert InUse(s, w) <==> Listed(s, e);
        assert AboutToClose(s, w) <==> e in s.doomed;
      case InRestore(rid) =>
        assert InFlight(s, w);
    }
  }

  /** Once closed and drained, nothing the registry opened stays open. */
  lemma NothingStaysOpen(run: seq<State>, steps: seq<Step>, roots: seq<string>, k: nat, w: nat)
    requires IsRun(run, steps, roots) && k <= |steps|
    requires run[k].closed && run[k].doomed == {} && forall rid :: rid in run[k].restores ==> !run[k].restores[rid].OpenedFor?
    requires w in run[k].where
    ensures multiset(run[k].shut)[w] == 1
  {
    RunKeepsInv(run, steps, roots, k);
    OpenedExactlyOnce(run, steps, roots, k, w);
    assert w in run[k].shut;
    assert w in multiset(run[k].shut);
  }

  /** A workspace nobody pinned or leases is always due for eviction. */
  lemma IdleIsScheduled(run: seq<State>, steps: seq<Step>, roots: seq<string>, k: nat, e: nat)
    requires IsRun(run, steps, roots) && k <= |steps|
    requires Listed(run[k], e) && run[k].heap[e].state.Some? && !Busy(run[k].heap[e])
    ensures Evicts(run[k], Timer(e, run[k].heap[e].epoch)) && Enabled(run[k], Fire(Timer(e, run[k].heap[e].epoch)))
  {
    RunKeepsInv(run, steps, roots, k);
    assert Calm(run[k], e);
  }

  /** A restore in flight is the only one for its entry, and nothing else opens it meanwhile. */
  lemma RestoreIsSingleFlight(run: seq<State>, steps: seq<Step>, roots: seq<string>, k: nat, a: nat, b: nat)
    requires IsRun(run, steps, roots) && k <= |steps|
    requires a in run[k].restores && b in run[k].restores
    requires !run[k].restores[a].Settled? && !run[k].restores[b].Settled? && run[k].restores[a].entry == run[k].restores[b].entry
    ensures a == b
    ensures Listed(run[k], run[k].restores[a].entry) ==> run[k].heap[run[k].restores[a].entry].state.None?
  {
    RunKeepsInv(run, steps, roots, k);
    assert RestoreTidy(run[k], a) && RestoreTidy(run[k], b);
    if Listed(run[k], run[k].restores[a].entry) {
      assert Calm(run[k], run[k].restores[a].entry);
    }
  }

  // ---- what may close a leased workspace ----

  predicate GivenUp(s: State, w: nat) {
    w in s.where && s.where[w].InEntry? && s.where[w].entry in s.doomed
  }

  /** A step that hands nothing to closeWorkspaceEntry and leaves w where it is. */
  predicate Gentle(s: State, s': State, w: nat) {
    s'.doomed == s.doomed && w in s.where && w in s'.where && s'.where[w] == s.where[w]
  }

  lemma GentlePieces(s: State, e: nat, w: nat)
    requires w in s.where && w < s.nextWs && e < |s.heap|
    ensures Gentle(s, Schedule(s, e), w) && Gentle(s, Lease(s, e), w) && Gentle(s, OpenIfNone(s, e), w)
    ensures Gentle(s, Drop(s, e), w) && Gentle(s, Pin(s, e), w)
    ensures |OpenIfNone(s, e).heap| == |s.heap| && OpenIfNone(s, e).nextWs >= s.nextWs
  {
  }

  lemma GentleTails(s: State, e: nat, opens: bool, w: nat)
    requires w in s.where && w < s.nextWs && e < |s.heap|
    ensures Gentle(s, ResolveTail(s, e, opens), w) && Gentle(s, AcquireTail(s, e, opens), w)
    ensures Gentle(s, Schedule(OpenIfNone(s, e), e), w) && Gentle(s, Lease(OpenIfNone(s, e), e), w)
  {
    GentlePieces(s, e, w);
    GentlePieces(OpenIfNone(s, e), e, w);
    hide Schedule, Lease, OpenIfNone, Drop, Pin;
  }

  lemma GentleEnsure(s: State, slot: Slot, w: nat)
    requires Shaped(s) && slot != Unlisted && w in s.where
    ensures Gentle(s, Ensure(s, slot), w) && Ensure(s, slot).nextWs == s.nextWs
    ensures Ensure(s, slot).entries[slot] < |Ensure(s, slot).heap|
  {
  }

  /** A lookup that allocates: the start of Resolve and Acquire. */
  lemma GentleStarts(s: State, slot: Slot, opens: bool, w: nat)
    requires Shaped(s) && slot != Unlisted && w in s.where && w < s.nextWs
    ensures slot.RootSlot? ==> Gentle(s, StartResolve(s, slot, opens), w) && Gentle(s, StartAcquire(s, slot, opens), w)
    ensures slot.CodeSlot? ==> Gentle(s, CodeResolve(s, slot, opens), w) && Gentle(s, CodeAcquire(s, slot, opens), w)
  {
    var s1 := Ensure(s, slot);
    GentleEnsure(s, slot, w);
    GentlePieces(s1, s1.entries[slot], w);
    GentleTails(s1, s1.entries[slot], opens, w);
    hide ResolveTail, AcquireTail, Schedule, Lease, OpenIfNone, Drop;
  }

  /** Add's last section gives up its entry's workspace in two ways: the entry is
      one it made itself, or it found the entry unopened and cannot persist. */
  lemma AddTailGivesUpIff(s: State, e: nat, existed: bool, wasOpen: bool, oldRemoving: bool, opens: bool, persists: bool, w: nat)
    requires Own(s) && w in s.where && e < |s.heap| && !GivenUp(s, w)
    ensures GivenUp(AddTail(s, e, existed, wasOpen, oldRemoving, opens, persists), w) <==>
      s.heap[e].state == Some(w) && !s.heap[e].explicit && !persists && (!existed || !wasOpen)
  {
    assert w < s.nextWs && OwnerExists(s, w);
    assert EntryOwns(s, e);
    GentlePieces(s, e, w);
    var s1 := OpenIfNone(s, e);
    GentlePieces(s1, e, w);
    UnpinGivesUpIff(Pin(s1, e), e, existed, wasOpen, oldRemoving, s1.heap[e].timer, w) by {
      OpenedSlot(s, e);
    }
    hide Own, Drop, Unpin;
    OpenedSlot(s, e);
  }

  lemma OpenedSlot(s: State, e: nat)
    requires e < |s.heap|
    ensures var s' := OpenIfNone(s, e);
      s'.heap[e].state.Some? && s'.heap[e].explicit == s.heap[e].explicit
      && (s.heap[e].state.Some? ==> s' == s)
      && (s.heap[e].state.None? ==> s'.where == s.where[s.nextWs := InEntry(e)] && s'.heap[e].state == Some(s.nextWs))
  {
  }

  lemma UnpinGivesUpIff(s: State, e: nat, existed: bool, wasOpen: bool, oldRemoving: bool, oldTimer: bool, w: nat)
    requires e < |s.heap| && s.heap[e].state.Some? && w in s.where && !GivenUp(s, w)
    requires s.where[w] == InEntry(e) <==> s.heap[e].state == Some(w)
    requires s.where[w].InEntry? ==> s.where[w].entry < |s.heap|
    ensures GivenUp(Unpin(s, e, existed, wasOpen, oldRemoving, oldTimer), w) <==>
      s.heap[e].state == Some(w) && (!existed || !wasOpen)
  {
    if existed {
      var s1 := Set(s, e, s.heap[e].(explicit := false, removing := oldRemoving));
      var s2 := if wasOpen then s1 else Detach(s1, e);
      QuietSchedule(s2, e);
    }
  }

  lemma QuietSchedule(s: State, e: nat)
    requires e < |s.heap|
    ensures Schedule(s, e).where == s.where && Schedule(s, e).doomed == s.doomed
  {
  }

  /** Add's rollback after a wait, on an entry another caller may have leased since. */
  predicate RollsBack(s: State, step: Step, e: nat)
    requires Enabled(s, step) && e < |s.heap|
  {
    && step.Wake? && s.waiters[step.waiter].entry == e && s.waiters[step.waiter].op.Adding?
    && s.restores[s.waiters[step.waiter].restore].ok && !step.persists
    && !s.closed && Listed(s, e) && !s.heap[e].explicit
  }

  /** The one section that can give up a leased workspace before shutdown does so
      exactly when it rolls back, leases or none: the lease count is not looked at. */
  lemma WakeGivesUpIff(s: State, step: Step, e: nat, w: nat)
    requires Inv(s) && Enabled(s, step) && step.Wake? && Listed(s, e) && s.heap[e].state == Some(w)
    ensures GivenUp(Next(s, step), w) <==> RollsBack(s, step, e)
  {
    WokenEntry(s, step.waiter, e, w);
    UnparkKeeps(s, step.waiter);
    var s1 := s.(waiters := s.waiters - {step.waiter});
    WakeUpGivesUpIff(s1, s.waiters[step.waiter], step.opens, step.persists, e, w);
    hide Inv, WakeUp;
  }

  lemma WakeUpGivesUpIff(s: State, waiter: Waiter, opens: bool, persists: bool, e: nat, w: nat)
    requires Own(s) && Listed(s, e) && s.heap[e].state == Some(w) && w in s.where && w < s.nextWs && !GivenUp(s, w)
    requires waiter.entry < |s.heap| && (waiter.entry != e ==> s.heap[waiter.entry].state != Some(w))
    requires waiter.restore in s.restores && s.restores[waiter.restore].Settled?
    ensures GivenUp(WakeUp(s, waiter, opens, persists), w) <==>
      waiter.entry == e && waiter.op.Adding? && s.restores[waiter.restore].ok && !persists && !s.closed && !s.heap[e].explicit
  {
    GentlePieces(s, waiter.entry, w);
    GentleTails(s, waiter.entry, opens, w);
    if waiter.op.Adding? {
      AddTailGivesUpIff(s, waiter.entry, waiter.op.existed, false, waiter.op.oldRemoving, opens, persists, w);
    }
    hide Own, AddTail, ResolveTail, AcquireTail, Drop, Schedule, Lease, OpenIfNone, Pin;
  }

  lemma WokenEntry(s: State, id: nat, e: nat, w: nat)
    requires Inv(s) && id in s.waiters && Listed(s, e) && s.heap[e].state == Some(w)
    ensures w in s.where && w < s.nextWs && !GivenUp(s, w)
    ensures s.waiters[id].entry < |s.heap|
    ensures s.waiters[id].entry != e ==> s.heap[s.waiters[id].entry].state != Some(w)
  {
    hide RestoresOwn, ShutOnce, AllCalm, RestoresTidy, EntriesTidy, TimersTidy;
    assert WaiterTidy(s, id) && EntryOwns(s, e) && EntryOwns(s, s.waiters[id].entry);
  }

  /** Eviction, Remove, release, and every other step but Close and that rollback:
      a workspace in use is given up only when no caller holds a lease on it, or
      the last one is being returned. */
  lemma LeasedIsKept(s: State, step: Step, e: nat, w: nat)
    requires Inv(s) && Enabled(s, step) && Listed(s, e) && s.heap[e].state == Some(w)
    requires GivenUp(Next(s, step), w)
    ensures s.heap[e].holders == {} || (step.Release? && step.entry == e && s.heap[e].holders == {step.holder})
         || step.CloseAll? || RollsBack(s, step, e)
  {
    InUseFacts(s, e, w);
    hide Own, Tidy, AllCalm, WakeUp, StartResolve, StartAcquire, CodeResolve, CodeAcquire, StartAdd, StartRemove, GiveBack, FireTimer, SettleRestore;
    match step {
      case Wake(_, _, _) => WakeGivesUpIff(s, step, e, w);
      case Resolve(root, opens) => GentleStarts(s, RootSlot(root), opens, w);
      case Acquire(root, opens) => GentleStarts(s, RootSlot(root), opens, w);
      case ResolveCode(root, db, opens) => GentleStarts(s, CodeSlot(root, db), opens, w);
      case AcquireCode(root, db, opens) => GentleStarts(s, CodeSlot(root, db), opens, w);
      case Add(root, opens, persists) => AddKeepsLeased(s, RootSlot(root), opens, persists, w);
      case Remove(root, persists) => if s.heap[e].leases > 0 { RemoveKeepsLeased(s, RootSlot(root), persists, e, w); }
      case Release(r, holder) => ReleaseKeepsLeased(s, r, holder, e, w);
      case Fire(timer) => if s.heap[e].leases > 0 { FireKeepsLeased(s, timer, e, w); }
      case RestoreSettle(rid) => SettleKeepsLeased(s, rid, w);
      case _ =>
    }
  }

  lemma InUseFacts(s: State, e: nat, w: nat)
    requires Inv(s) && Listed(s, e) && s.heap[e].state == Some(w)
    ensures Shaped(s) && w in s.where && w < s.nextWs && s.where[w] == InEntry(e) && !GivenUp(s, w)
    ensures s.heap[e].leases == |s.heap[e].holders| && (s.heap[e].leases == 0 ==> s.heap[e].holders == {})
  {
    hide RestoresOwn, ShutOnce, Tidy;
    assert Calm(s, e) && EntryOwns(s, e);
  }

  lemma AddKeepsLeased(s: State, slot: Slot, opens: bool, persists: bool, w: nat)
    requires Own(s) && slot.RootSlot? && w in s.where && !GivenUp(s, w)
    ensures !GivenUp(StartAdd(s, slot, opens, persists), w)
  {
    EnsureOwns(s, slot);
    EnsuredListed(s, slot);
    var s1 := Ensure(s, slot);
    GentleEnsure(s, slot, w);
    if !s.closed {
      var e := s1.entries[slot];
      AddTailGivesUpIff(s1, e, slot in s.entries, s1.heap[e].state.Some?, s1.heap[e].removing, opens, persists, w);
    }
    hide Own, AddTail, Ensure;
  }

  lemma RemoveKeepsLeased(s: State, slot: Slot, persists: bool, e: nat, w: nat)
    requires Own(s) && slot.RootSlot? && Listed(s, e) && s.heap[e].state == Some(w) && s.heap[e].leases > 0
    ensures !GivenUp(StartRemove(s, slot, persists), w)
  {
    hide RestoresOwn, ShutOnce;
    assert EntryOwns(s, e);
  }

  lemma ReleaseKeepsLeased(s: State, r: nat, holder: nat, e: nat, w: nat)
    requires Own(s) && r < |s.heap| && holder in s.heap[r].holders && Listed(s, e) && s.heap[e].state == Some(w)
    requires s.heap[e].leases == |s.heap[e].holders|
    requires GivenUp(GiveBack(s, r, holder), w)
    ensures r == e && s.heap[e].holders == {holder}
  {
    hide RestoresOwn, ShutOnce;
    assert EntryOwns(s, e) && EntryOwns(s, r);
    assert s.heap[r].holders == (s.heap[r].holders - {holder}) + {holder};
  }

  lemma FireKeepsLeased(s: State, timer: Timer, e: nat, w: nat)
    requires Own(s) && Listed(s, e) && s.heap[e].state == Some(w) && s.heap[e].leases > 0
    ensures !GivenUp(FireTimer(s, timer), w)
  {
    hide RestoresOwn, ShutOnce;
    assert EntryOwns(s, e);
  }

  lemma SettleKeepsLeased(s: State, rid: nat, w: nat)
    requires Own(s) && Enabled(s, RestoreSettle(rid)) && w in s.where && s.where[w].InEntry? && !GivenUp(s, w)
    ensures !GivenUp(SettleRestore(s, rid), w)
  {
    hide EntriesOwn, ShutOnce;
    assert RestoreOwns(s, rid);
    assert OwnerExists(s, w);
  }

  // A concrete run: a restore begins, Add and Acquire wait for it, Acquire wakes
  // first, Remove unpins the root, and Add wakes and cannot persist.

  function Scene(root: string, en: Entry, restores: map<nat, Restore>, waiters: map<nat, Waiter>, owners: map<nat, Owner>, holders: nat): State {
    State(false, map[RootSlot(root) := 0], [en], owners, |owners|, {}, [], {}, restores, |restores|, waiters, 2, holders)
  }

  const ADDER := Waiter(0, 0, Adding(true, false))
  const ACQUIRER := Waiter(0, 0, Acquiring)

  function Pinned(root: string): Entry {
    Blank(RootSlot(root)).(explicit := true)
  }

  function BothWaiting(root: string): State {
    Scene(root, Pinned(root).(restore := Some(0)), map[0 := Opening(0)], map[0 := ADDER, 1 := ACQUIRER], map[], 0)
  }

  function Restored(root: string): State {
    Scene(root, Pinned(root).(state := Some(0)), map[0 := Settled(true)], map[0 := ADDER, 1 := ACQUIRER], map[0 := InEntry(0)], 0)
  }

  function Leased(root: string): State {
    Scene(root, Entry(RootSlot(root), Some(0), None, true, false, 1, 1, false, {0}), map[0 := Settled(true)], map[0 := ADDER], map[0 := InEntry(0)], 1)
  }

  function Unpinned(root: string): State {
    Scene(root, Entry(RootSlot(root), Some(0), None, false, false, 2, 1, true, {0}), map[0 := Settled(true)], map[0 := ADDER], map[0 := InEntry(0)], 1)
  }

  function Restoring(root: string): State {
    Scene(root, Pinned(root).(restore := Some(0)), map[0 := Opening(0)], map[], map[], 0).(nextWaiter := 0)
  }

  function AddWaiting(root: string): State {
    Scene(root, Pinned(root).(restore := Some(0)), map[0 := Opening(0)], map[0 := ADDER], map[], 0).(nextWaiter := 1)
  }

  lemma LoadedOne(root: string)
    ensures Loaded([root]) == Empty().(heap := [Pinned(root)], entries := map[RootSlot(root) := 0])
  {
    assert [root][..0] == [];
    assert Loaded([root]) == PinSaved(Empty(), RootSlot(root));
  }

  lemma ToRestoring(root: string)
    ensures Next(Loaded([root]), RestoreStart(root)) == Restoring(root)
  {
    LoadedOne(root);
    hide Loaded;
    assert map[][0 := Opening(0)] == map[0 := Opening(0)];
  }

  lemma ToAddWaiting(root: string)
    ensures Shaped(Restoring(root)) && Next(Restoring(root), Add(root, true, false)) == AddWaiting(root)
  {
    assert map[][0 := ADDER] == map[0 := ADDER];
  }

  lemma ToBothWaiting(root: string)
    ensures Shaped(AddWaiting(root)) && Next(AddWaiting(root), Acquire(root, true)) == BothWaiting(root)
  {
    assert map[0 := ADDER][1 := ACQUIRER] == map[0 := ADDER, 1 := ACQUIRER];
  }

  lemma ToRestored(root: string)
    ensures var s := BothWaiting(root);
      Shaped(s) && Enabled(s, RestoreOpen(0, true))
      && Shaped(Next(s, RestoreOpen(0, true))) && Enabled(Next(s, RestoreOpen(0, true)), RestoreSettle(0))
      && Next(Next(s, RestoreOpen(0, true)), RestoreSettle(0)) == Restored(root)
  {
    var s := BothWaiting(root);
    assert Next(s, RestoreOpen(0, true)) == s.(restores := map[0 := OpenedFor(0, 0)], where := map[0 := InRestore(0)], nextWs := 1);
  }

  lemma ToLeased(root: string)
    ensures Shaped(Restored(root)) && Enabled(Restored(root), Wake(1, true, true))
    ensures Next(Restored(root), Wake(1, true, true)) == Leased(root)
  {
    assert map[0 := ADDER, 1 := ACQUIRER] - {1} == map[0 := ADDER];
    assert {} + {0} == {0};
  }

  lemma ToUnpinned(root: string)
    ensures Shaped(Leased(root)) && Next(Leased(root), Remove(root, true)) == Unpinned(root)
  {
  }

  lemma ToGivenUp(root: string)
    ensures Shaped(Unpinned(root)) && Enabled(Unpinned(root), Wake(0, true, false))
    ensures ClosesLeased(Unpinned(root), Next(Unpinned(root), Wake(0, true, false)))
  {
    assert map[0 := ADDER] - {0} == map[];
  }

  lemma OneMore(run: seq<State>, steps: seq<Step>, roots: seq<string>, step: Step)
    requires IsRun(run, steps, roots) && Shaped(run[|steps|]) && Enabled(run[|steps|], step)
    ensures IsRun(run + [Next(run[|steps|], step)], steps + [step], roots)
  {
    hide Shaped, Next, Enabled;
    var run', steps' := run + [Next(run[|steps|], step)], steps + [step];
    forall i | 0 <= i < |steps'|
      ensures Shaped(run'[i]) && Enabled(run'[i], steps'[i]) && run'[i + 1] == Next(run'[i], steps'[i])
    {
      assert run'[i] == run[i] && (i < |steps| ==> run'[i + 1] == run[i + 1] && steps'[i] == steps[i]);
    }
  }

  predicate ClosesLeased(before: State, after: State) {
    && Listed(before, 0) && before.heap[0].state == Some(0) && before.heap[0].holders == {0}
    && !GivenUp(before, 0) && GivenUp(after, 0) && Holding(after, 0, 0)
  }

  predicate Holding(s: State, e: nat, holder: nat) {
    e < |s.heap| && holder in s.heap[e].holders
  }

  /** The rollback's condition is met on a run: a caller still holds a lease on the
      workspace that somebody else's failed Add hands to be closed. */
  lemma LeasedWorkspaceClosed(root: string) returns (run: seq<State>, steps: seq<Step>)
    ensures |run| == |steps| + 1 > 1 && ClosesLeased(run[|steps| - 1], run[|steps|])
    ensures IsRun(run, steps, [root])
  {
    ToRestoring(root);
    ToAddWaiting(root);
    ToBothWaiting(root);
    ToRestored(root);
    ToLeased(root);
    ToUnpinned(root);
    ToGivenUp(root);
    run, steps := [Loaded([root])], [];
    hide Next, Shaped, Loaded, ClosesLeased, Restoring, AddWaiting, BothWaiting, Restored, Leased, Unpinned;
    run, steps := Extend(run, steps, root, RestoreStart(root));
    hide IsRun;
    run, steps := Extend(run, steps, root, Add(root, true, false));
    run, steps := Extend(run, steps, root, Acquire(root, true));
    run, steps := Extend(run, steps, root, RestoreOpen(0, true));
    run, steps := Extend(run, steps, root, RestoreSettle(0));
    run, steps := Extend(run, steps, root, Wake(1, true, true));
    run, steps := Extend(run, steps, root, Remove(root, true));
    run, steps := Extend(run, steps, root, Wake(0, true, false));
  }

  lemma Extend(run: seq<State>, steps: seq<Step>, root: string, step: Step) returns (run': seq<State>, steps': seq<Step>)
    requires IsRun(run, steps, [root]) && Shaped(run[|steps|]) && Enabled(run[|steps|], step)
    ensures |steps'| == |steps| + 1 && |run'| == |run| + 1 && IsRun(run', steps', [root])
    ensures run'[|steps|] == run[|steps|] && run'[|steps'|] == Next(run[|steps|], step)
  {
    OneMore(run, steps, [root], step);
    run', steps' := run + [Next(run[|steps|], step)], steps + [step];
  }

  // ---- stale timers ----

  /** Epochs only grow, a dropped entry stays dropped, and while the epoch stands
      still an entry can only lose leases. */
  predicate Ages(s: State, s': State, e: nat) {
    e < |s.heap| ==>
    && e < |s'.heap| && s'.heap[e].slot == s.heap[e].slot && s'.heap[e].epoch >= s.heap[e].epoch
    && (Listed(s', e) ==> Listed(s, e))
    && (s'.heap[e].epoch == s.heap[e].epoch ==>
          s'.heap[e].leases <= s.heap[e].leases && s'.heap[e].explicit == s.heap[e].explicit && s'.heap[e].removing == s.heap[e].removing)
  }

  /** Timers come only from Schedule, for an entry that is then listed and idle. */
  predicate Armed(s: State, t: Timer) {
    Listed(s, t.entry) && !Busy(s.heap[t.entry]) && s.heap[t.entry].epoch == t.epoch
  }

  ghost predicate NewlyArmed(s: State, s': State) {
    forall t :: t in s'.timers && t !in s.timers ==> Armed(s', t)
  }

  lemma AgesTrans(a: State, b: State, c: State, e: nat)
    requires Ages(a, b, e) && Ages(b, c, e)
    ensures Ages(a, c, e)
  {
  }

  lemma AgesVia(a: State, b: State, c: State, e: nat)
    requires Ages(a, b, e) && b.timers == a.timers && Ages(b, c, e) && NewlyArmed(b, c)
    ensures Ages(a, c, e) && NewlyArmed(a, c)
  {
  }

  lemma SameAge(s: State, s': State, e: nat)
    requires s'.heap == s.heap && s'.entries == s.entries && s'.timers == s.timers
    ensures Ages(s, s', e) && NewlyArmed(s, s')
  {
  }

  lemma ScheduleAges(s: State, x: nat, e: nat)
    requires x < |s.heap|
    ensures Ages(s, Schedule(s, x), e)
    ensures Listed(s, x) ==> NewlyArmed(s, Schedule(s, x))
  {
  }

  lemma LeaseAges(s: State, x: nat, e: nat)
    requires x < |s.heap|
    ensures Ages(s, Lease(s, x), e) && Lease(s, x).timers == s.timers
  {
  }

  lemma OpenAges(s: State, x: nat, e: nat)
    requires x < |s.heap|
    ensures Ages(s, OpenIfNone(s, x), e) && OpenIfNone(s, x).timers == s.timers
    ensures |OpenIfNone(s, x).heap| == |s.heap| && OpenIfNone(s, x).heap[x].state.Some?
    ensures Listed(s, x) ==> Listed(OpenIfNone(s, x), x)
  {
  }

  lemma DropAges(s: State, x: nat, e: nat)
    requires x < |s.heap|
    ensures Ages(s, Drop(s, x), e) && Drop(s, x).timers == s.timers
    ensures Ages(s, DropAndClose(s, x), e) && DropAndClose(s, x).timers == s.timers
  {
  }

  lemma PinAges(s: State, x: nat, e: nat)
    requires x < |s.heap|
    ensures Ages(s, Pin(s, x), e) && Pin(s, x).timers == s.timers && Pin(s, x).heap[x].epoch > s.heap[x].epoch
    ensures |Pin(s, x).heap| == |s.heap| && Pin(s, x).heap[x].state == s.heap[x].state && (Listed(s, x) ==> Listed(Pin(s, x), x))
  {
  }

  lemma DetachAges(s: State, x: nat, e: nat)
    requires x < |s.heap| && s.heap[x].state.Some?
    ensures Ages(s, Detach(s, x), e) && Detach(s, x).timers == s.timers && |Detach(s, x).heap| > |s.heap|
    ensures Listed(s, x) ==> Listed(Detach(s, x), x)
  {
  }

  /** The weaker half of aging, which the rollback keeps after Pin has moved the epoch on. */
  predicate Follows(s: State, s': State, e: nat) {
    e < |s.heap| ==>
    && e < |s'.heap| && s'.heap[e].slot == s.heap[e].slot && s'.heap[e].epoch >= s.heap[e].epoch
    && (Listed(s', e) ==> Listed(s, e))
  }

  lemma UnpinFollows(s: State, x: nat, existed: bool, wasOpen: bool, oldRemoving: bool, oldTimer: bool, e: nat)
    requires x < |s.heap| && s.heap[x].state.Some? && Listed(s, x)
    ensures var s' := Unpin(s, x, existed, wasOpen, oldRemoving, oldTimer);
      (if x == e then Follows(s, s', e) else Ages(s, s', e)) && NewlyArmed(s, s')
  {
    var s1 := Set(s, x, s.heap[x].(explicit := false, removing := oldRemoving));
    assert if x == e then Follows(s, s1, e) else Ages(s, s1, e);
    DropAges(s1, x, e);
    DroppedArmsNothing(s1, x);
    DetachAges(s1, x, e);
    var s2 := if wasOpen then s1 else Detach(s1, x);
    ScheduleAges(s2, x, e);
    var s' := Unpin(s, x, existed, wasOpen, oldRemoving, oldTimer);
    SameAge(s2, s2, e);
    hide Set, DropAndClose, Detach, Schedule, Ages, NewlyArmed, Listed, Follows;
    if existed {
      SameAge(s1, s1, e);
      AgesVia(s1, s2, s', e);
    }
    FollowsThenAges(s, s1, s', x, e);
  }

  lemma FollowsThenAges(a: State, b: State, c: State, x: nat, e: nat)
    requires if x == e then Follows(a, b, e) else Ages(a, b, e)
    requires b.timers == a.timers && Ages(b, c, e) && NewlyArmed(b, c)
    ensures (if x == e then Follows(a, c, e) else Ages(a, c, e)) && NewlyArmed(a, c)
  {
  }

  lemma AddTailAges(s: State, x: nat, existed: bool, wasOpen: bool, oldRemoving: bool, opens: bool, persists: bool, e: nat)
    requires x < |s.heap| && Listed(s, x)
    ensures var s' := AddTail(s, x, existed, wasOpen, oldRemoving, opens, persists);
      Ages(s, s', e) && NewlyArmed(s, s')
  {
    DropAges(s, x, e);
    OpenAges(s, x, e);
    OpenAges(s, x, x);
    var s1 := OpenIfNone(s, x);
    PinAges(s1, x, e);
    PinAges(s1, x, x);
    UnpinFollows(Pin(s1, x), x, existed, wasOpen, oldRemoving, s1.heap[x].timer, e);
    hide Drop, OpenIfNone, Pin, Unpin;
  }

  lemma TailsAge(s: State, x: nat, opens: bool, e: nat)
    requires x < |s.heap| && Listed(s, x)
    ensures Ages(s, ResolveTail(s, x, opens), e) && NewlyArmed(s, ResolveTail(s, x, opens))
    ensures Ages(s, AcquireTail(s, x, opens), e) && NewlyArmed(s, AcquireTail(s, x, opens))
    ensures Ages(s, Schedule(OpenIfNone(s, x), x), e) && NewlyArmed(s, Schedule(OpenIfNone(s, x), x))
    ensures Ages(s, Lease(OpenIfNone(s, x), x), e) && NewlyArmed(s, Lease(OpenIfNone(s, x), x))
  {
    DropAges(s, x, e);
    OpenAges(s, x, e);
    var s1 := OpenIfNone(s, x);
    ScheduleAges(s1, x, e);
    LeaseAges(s1, x, e);
    hide Drop, OpenIfNone, Schedule, Lease;
  }

  lemma EnsureAges(s: State, slot: Slot, e: nat)
    requires Shaped(s) && slot != Unlisted
    ensures var s' := Ensure(s, slot);
      && Ages(s, s', e) && s'.timers == s.timers && |s'.heap| >= |s.heap| && s'.entries[slot] < |s'.heap|
      && (e < |s.heap| ==> s'.heap[e] == s.heap[e] && (Listed(s', e) <==> Listed(s, e))) && Listed(s', s'.entries[slot])
  {
  }

  lemma StartAddAges(s: State, slot: Slot, opens: bool, persists: bool, e: nat)
    requires Shaped(s) && slot.RootSlot?
    ensures Ages(s, StartAdd(s, slot, opens, persists), e) && NewlyArmed(s, StartAdd(s, slot, opens, persists))
  {
    EnsureAges(s, slot, e);
    var s1 := Ensure(s, slot);
    var x := s1.entries[slot];
    AddTailAges(s1, x, slot in s.entries, s1.heap[x].state.Some?, s1.heap[x].removing, opens, persists, e);
    hide Ensure, AddTail, Shaped, Ages, NewlyArmed, Listed;
    var s' := StartAdd(s, slot, opens, persists);
    if s.closed {
      SameAge(s, s', e);
    } else {
      if s1.heap[x].state.None? && s1.heap[x].restore.Some? {
        SameAge(s1, s', e);
      }
      AgesVia(s, s1, s', e);
    }
  }

  lemma StartAges(s: State, slot: Slot, opens: bool, e: nat)
    requires Shaped(s) && slot.RootSlot?
    ensures Ages(s, StartResolve(s, slot, opens), e) && NewlyArmed(s, StartResolve(s, slot, opens))
    ensures Ages(s, StartAcquire(s, slot, opens), e) && NewlyArmed(s, StartAcquire(s, slot, opens))
  {
    EnsureAges(s, slot, e);
    var s1 := Ensure(s, slot);
    var x := s1.entries[slot];
    TailsAge(s1, x, opens, e);
    hide Ensure, ResolveTail, AcquireTail, Shaped, Schedule, Lease, OpenIfNone, Ages, NewlyArmed, Listed;
    var r, a := StartResolve(s, slot, opens), StartAcquire(s, slot, opens);
    if s.closed {
      SameAge(s, s, e);
    } else {
      if s1.heap[x].restore.Some? {
        SameAge(s1, r, e);
        SameAge(s1, a, e);
      }
      AgesVia(s, s1, r, e);
      AgesVia(s, s1, a, e);
    }
  }

  lemma CodeStartsAge(s: State, slot: Slot, opens: bool, e: nat)
    requires Shaped(s) && slot.CodeSlot?
    ensures Ages(s, CodeResolve(s, slot, opens), e) && NewlyArmed(s, CodeResolve(s, slot, opens))
    ensures Ages(s, CodeAcquire(s, slot, opens), e) && NewlyArmed(s, CodeAcquire(s, slot, opens))
  {
    EnsureAges(s, slot, e);
    var s1 := Ensure(s, slot);
    var x := s1.entries[slot];
    TailsAge(s1, x, opens, e);
    DropAges(s1, x, e);
    DroppedArmsNothing(s1, x);
    hide Ensure, Schedule, Lease, OpenIfNone, Drop, Shaped, Ages, NewlyArmed, Listed;
    if s.closed {
      SameAge(s, s, e);
    } else {
      AgesVia(s, s1, CodeResolve(s, slot, opens), e);
      AgesVia(s, s1, CodeAcquire(s, slot, opens), e);
    }
  }

  lemma RemoveAges(s: State, slot: Slot, persists: bool, e: nat)
    requires Shaped(s) && slot.RootSlot?
    ensures Ages(s, StartRemove(s, slot, persists), e) && StartRemove(s, slot, persists).timers == s.timers
  {
  }

  lemma GiveBackAges(s: State, x: nat, holder: nat, e: nat)
    requires x < |s.heap|
    ensures Ages(s, GiveBack(s, x, holder), e) && NewlyArmed(s, GiveBack(s, x, holder))
  {
    hide Schedule, DropAndClose, Ages, NewlyArmed, Set;
    var en := s.heap[x].(holders := s.heap[x].holders - {holder});
    ReturnAges(s, x, en, e);
    if Listed(s, x) && en.leases > 0 {
      var en1 := en.(leases := en.leases - 1);
      ReturnAges(s, x, en1, e);
      LeftAges(s, x, en1, e);
    }
  }

  lemma LeftAges(s: State, x: nat, en: Entry, e: nat)
    requires x < |s.heap| && Listed(s, x) && en.slot == s.heap[x].slot
    requires Ages(s, Set(s, x, en), e)
    ensures Ages(s, Schedule(Set(s, x, en), x), e) && NewlyArmed(s, Schedule(Set(s, x, en), x))
    ensures Ages(s, DropAndClose(Set(s, x, en), x), e) && NewlyArmed(s, DropAndClose(Set(s, x, en), x))
  {
    var s1 := Set(s, x, en);
    assert Listed(s1, x) && s1.timers == s.timers && x < |s1.heap|;
    ScheduleAges(s1, x, e);
    DropAges(s1, x, e);
    DroppedArmsNothing(s1, x);
    hide Schedule, DropAndClose, Ages, NewlyArmed, Listed, Set;
    AgesVia(s, s1, Schedule(s1, x), e);
    AgesVia(s, s1, DropAndClose(s1, x), e);
  }

  lemma ReturnAges(s: State, x: nat, en: Entry, e: nat)
    requires x < |s.heap| && en == s.heap[x].(holders := en.holders, leases := en.leases) && en.leases <= s.heap[x].leases
    ensures Ages(s, Set(s, x, en), e) && NewlyArmed(s, Set(s, x, en)) && Set(s, x, en).timers == s.timers
    ensures Listed(s, x) ==> Listed(Set(s, x, en), x)
  {
  }

  lemma DroppedArmsNothing(s: State, x: nat)
    requires x < |s.heap|
    ensures NewlyArmed(s, DropAndClose(s, x)) && NewlyArmed(s, Drop(s, x))
  {
  }

  lemma WakeAges(s: State, id: nat, opens: bool, persists: bool, e: nat)
    requires Shaped(s) && Enabled(s, Wake(id, opens, persists))
    ensures var s' := WakeUp(s.(waiters := s.waiters - {id}), s.waiters[id], opens, persists);
      Ages(s, s', e) && NewlyArmed(s, s')
  {
    var s1 := s.(waiters := s.waiters - {id});
    var w := s.waiters[id];
    var s' := WakeUp(s1, w, opens, persists);
    SameAge(s, s1, e);
    SameAge(s1, s1, e);
    if Listed(s1, w.entry) {
      DropAges(s1, w.entry, e);
      DroppedArmsNothing(s1, w.entry);
      TailsAge(s1, w.entry, opens, e);
      match w.op {
        case Adding(existed, oldRemoving) => AddTailAges(s1, w.entry, existed, false, oldRemoving, opens, persists, e);
        case _ =>
      }
    }
    hide Drop, ResolveTail, AcquireTail, AddTail, Shaped, Schedule, Lease, OpenIfNone, Ages, NewlyArmed;
    AgesVia(s, s1, s', e);
  }

  lemma FireAges(s: State, timer: Timer, e: nat)
    ensures Ages(s, FireTimer(s, timer), e) && FireTimer(s, timer).timers <= s.timers
  {
  }

  lemma SettleAges(s: State, rid: nat, e: nat)
    requires Shaped(s) && Enabled(s, RestoreSettle(rid))
    ensures Ages(s, SettleRestore(s, rid), e) && SettleRestore(s, rid).timers == s.timers
  {
  }

  lemma StartRestoreAges(s: State, slot: Slot, e: nat)
    requires Shaped(s)
    ensures Ages(s, StartRestore(s, slot), e) && StartRestore(s, slot).timers == s.timers
  {
  }

  lemma StepAges(s: State, step: Step, e: nat)
    requires Shaped(s) && Enabled(s, step)
    ensures Ages(s, Next(s, step), e) && NewlyArmed(s, Next(s, step))
  {
    hide Shaped, WakeUp, StartResolve, StartAcquire, CodeResolve, CodeAcquire, StartAdd, StartRemove, GiveBack, FireTimer, SettleRestore, StartRestore;
    match step {
      case Wake(id, opens, persists) => WakeAges(s, id, opens, persists, e);
      case Resolve(root, opens) => StartAges(s, RootSlot(root), opens, e);
      case Acquire(root, opens) => StartAges(s, RootSlot(root), opens, e);
      case ResolveCode(root, db, opens) => CodeStartsAge(s, CodeSlot(root, db), opens, e);
      case AcquireCode(root, db, opens) => CodeStartsAge(s, CodeSlot(root, db), opens, e);
      case Add(root, opens, persists) => StartAddAges(s, RootSlot(root), opens, persists, e);
      case Remove(root, persists) => RemoveAges(s, RootSlot(root), persists, e);
      case Release(x, holder) => GiveBackAges(s, x, holder, e);
      case Fire(timer) => FireAges(s, timer, e);
      case RestoreSettle(rid) => SettleAges(s, rid, e);
      case RestoreStart(root) => StartRestoreAges(s, RootSlot(root), e);
      case _ =>
    }
  }

  lemma {:induction false} RunAges(run: seq<State>, steps: seq<Step>, roots: seq<string>, j: nat, k: nat, e: nat)
    requires IsRun(run, steps, roots) && j <= k <= |steps|
    ensures Ages(run[j], run[k], e)
  {
    hide Next, Enabled, Shaped, Loaded;
    if j < k {
      RunAges(run, steps, roots, j, k - 1, e);
      StepAges(run[k - 1], steps[k - 1], e);
      AgesTrans(run[j], run[k - 1], run[k], e);
    }
  }

  lemma {:induction false} TimerArmedAt(run: seq<State>, steps: seq<Step>, roots: seq<string>, k: nat, t: Timer) returns (j: nat)
    requires IsRun(run, steps, roots) && k <= |steps| && t in run[k].timers && t.entry < |run[k].heap|
    ensures j < k && t !in run[j].timers && t in run[j + 1].timers && Armed(run[j + 1], t)
  {
    hide Next, Enabled, Shaped, Loaded;
    if k == 0 {
      LoadedInv(roots);
      assert false;
    } else if t in run[k - 1].timers {
      RunKeepsInv(run, steps, roots, k - 1);
      TimerInHeap(run[k - 1], t);
      j := TimerArmedAt(run, steps, roots, k - 1, t);
    } else {
      j := k - 1;
      StepArms(run[j], steps[j], t);
    }
  }

  lemma TimerInHeap(s: State, t: Timer)
    requires Inv(s) && t in s.timers
    ensures t.entry < |s.heap|
  {
  }

  lemma StepArms(s: State, step: Step, t: Timer)
    requires Shaped(s) && Enabled(s, step) && t !in s.timers && t in Next(s, step).timers
    ensures Armed(Next(s, step), t)
  {
    hide Next, Shaped;
    StepAges(s, step, 0);
  }

  /** A timer callback that evicts was armed when its entry was idle, and from then
      until it fires the entry stayed listed, unpinned, unleased and at the same
      epoch: stale callbacks do nothing. */
  lemma EvictedOnlyAfterIdling(run: seq<State>, steps: seq<Step>, roots: seq<string>, k: nat, t: Timer) returns (j: nat)
    requires IsRun(run, steps, roots) && k < |steps| && steps[k] == Fire(t) && Evicts(run[k], t)
    ensures j < k && t !in run[j].timers && t in run[j + 1].timers
    ensures forall i :: j < i <= k ==> Armed(run[i], t)
  {
    hide Next, Shaped, Loaded;
    j := TimerArmedAt(run, steps, roots, k, t);
    forall i | j < i <= k
      ensures Armed(run[i], t)
    {
      RunAges(run, steps, roots, j + 1, i, t.entry);
      RunAges(run, steps, roots, i, k, t.entry);
    }
  }
}
