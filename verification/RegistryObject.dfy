/** The registry as the object that carries its fields and changes them in place.
    Entries are referred to by their index in `heap`; what the operating system decides
    (an open, a persist) is a parameter. */
module RegistryObject {
  import opened Options
  import opened Registry
  import opened RegistryGrants

  class WorkspaceRegistry {
    var closed: bool
    var entries: map<Slot, nat>
    var heap: seq<Entry>
    var where: map<nat, Owner>
    var nextWs: nat
    var doomed: set<nat>
    var shut: seq<nat>
    var timers: set<Timer>
    var restores: map<nat, Restore>
    var nextRestore: nat
    var waiters: map<nat, Waiter>
    var nextWaiter: nat
    var nextHolder: nat

    function View(): State
      reads this
    {
      State(closed, entries, heap, where, nextWs, doomed, shut, timers, restores, nextRestore, waiters, nextWaiter, nextHolder)
    }

    constructor ()
      ensures View() == State(false, map[], [], map[], 0, {}, [], {}, map[], 0, map[], 0, 0) && Inv(View())
    {
      closed, entries, heap, where, nextWs, doomed, shut := false, map[], [], map[], 0, {}, [];
      timers, restores, nextRestore, waiters, nextWaiter, nextHolder := {}, map[], 0, map[], 0, 0;
    }

    method OpenInto(e: nat)
      requires e < |heap| && heap[e].state.None?
      modifies `heap, `where, `nextWs
      ensures View() == Open(old(View()), e)
    {
      heap := heap[e := heap[e].(state := Some(nextWs))];
      where := where[nextWs := InEntry(e)];
      nextWs := nextWs + 1;
    }

    method ScheduleEviction(e: nat)
      requires e < |heap|
      modifies `heap, `timers
      ensures View() == Schedule(old(View()), e)
    {
      var root := heap[e].slot.RootSlot?;
      if heap[e].leases > 0 || (root && (heap[e].explicit || heap[e].removing)) {
        return;
      }
      var en := heap[e];
      en := en.(epoch := en.epoch + 1);
      en := en.(timer := true);
      heap := heap[e := en];
      timers := timers + {Timer(e, en.epoch)};
    }

    /** The body of evict and evictCode. */
    method Evict(timer: Timer) returns (closes: bool)
      requires timer in timers
      modifies `entries, `doomed, `timers
      ensures View() == FireTimer(old(View()), timer)
      ensures closes <==> Evicts(old(View()), timer)
      ensures closes ==> timer.entry < |heap| && heap[timer.entry].leases == 0 && timer.entry in doomed && !Listed(View(), timer.entry)
    {
      timers := timers - {timer};
      var e := timer.entry;
      if e >= |heap| || heap[e].slot !in entries || entries[heap[e].slot] != e {
        return false;
      }
      if heap[e].leases > 0 || heap[e].epoch != timer.epoch || closed {
        return false;
      }
      if heap[e].slot.RootSlot? && (heap[e].explicit || heap[e].removing) {
        return false;
      }
      entries := entries - {heap[e].slot};
      doomed := doomed + {e};
      closes := true;
    }

    /** acquireLocked, once no restore is pending: the lease taken, or None for an error. */
    method AcquireLocked(e: nat, opens: bool) returns (holder: Option<nat>)
      requires e < |heap|
      modifies `entries, `heap, `where, `nextWs, `nextHolder
      ensures View() == AcquireTail(old(View()), e, opens)
      ensures holder == if !old(heap[e].removing) && (old(heap[e].state.Some?) || opens) then Some(old(nextHolder)) else None
    {
      if heap[e].removing {
        return None;
      }
      if heap[e].state.None? {
        if !opens {
          if !heap[e].explicit {
            entries := entries - {heap[e].slot};
          }
          return None;
        }
        OpenInto(e);
      }
      TakeLease(e);
      holder := Some(nextHolder - 1);
    }

    /** AcquireCode's section for a database that is not the root's own. */
    method AcquireCodeLocked(root: string, db: string, opens: bool) returns (holder: Option<nat>)
      requires Shaped(View())
      modifies `entries, `heap, `where, `nextWs, `nextHolder
      ensures View() == CodeAcquire(old(View()), CodeSlot(root, db), opens)
      ensures holder == if !closed && (Held(old(View()), CodeSlot(root, db)).Some? || opens) then Some(old(nextHolder)) else None
    {
      if closed {
        return None;
      }
      var e := FindOrMake(CodeSlot(root, db));
      if heap[e].state.None? {
        if !opens {
          entries := entries - {CodeSlot(root, db)};
          return None;
        }
        OpenInto(e);
      }
      TakeLease(e);
      holder := Some(nextHolder - 1);
    }

    /** The entry of a slot, made when missing. */
    method FindOrMake(slot: Slot) returns (e: nat)
      requires Shaped(View()) && slot != Unlisted
      modifies `entries, `heap
      ensures View() == Ensure(old(View()), slot) && slot in entries && e == entries[slot] && e < |heap| && heap[e].slot == slot
    {
      if slot !in entries {
        heap := heap + [Blank(slot)];
        entries := entries[slot := |heap| - 1];
      }
      e := entries[slot];
    }

    method TakeLease(e: nat)
      requires e < |heap|
      modifies `heap, `nextHolder
      ensures View() == Lease(old(View()), e)
    {
      var en := heap[e];
      en := en.(leases := en.leases + 1);
      en := en.(epoch := en.epoch + 1);
      en := en.(timer := false);
      heap := heap[e := en.(holders := en.holders + {nextHolder})];
      nextHolder := nextHolder + 1;
    }

    /** The function Acquire returns: idempotent, because its holder is gone after one call. */
    method ReleaseLease(e: nat, holder: nat)
      requires e < |heap| && holder in heap[e].holders
      modifies `entries, `heap, `timers, `doomed
      ensures View() == GiveBack(old(View()), e, holder)
    {
      var en := heap[e];
      en := en.(holders := en.holders - {holder});
      if en.slot !in entries || entries[en.slot] != e || en.leases == 0 {
        heap := heap[e := en];
        return;
      }
      en := en.(leases := en.leases - 1);
      heap := heap[e := en];
      if en.leases == 0 && en.removing {
        entries := entries - {en.slot};
        doomed := doomed + {e};
      } else {
        ScheduleEviction(e);
      }
    }

    /** Remove: unpins the root; its workspace is closed now if nobody leases it. */
    method Remove(root: string, persists: bool) returns (removed: bool)
      requires Shaped(View())
      modifies `entries, `heap, `doomed
      ensures View() == StartRemove(old(View()), RootSlot(root), persists)
      ensures removed <==> persists && RootSlot(root) in old(entries) && old(heap[entries[RootSlot(root)]].explicit)
    {
      var slot := RootSlot(root);
      if slot !in entries || !heap[entries[slot]].explicit {
        return false;
      }
      var e := entries[slot];
      hide Shaped;
      var en := heap[e];
      en := en.(explicit := false);
      en := en.(removing := true);
      en := en.(epoch := en.epoch + 1);
      en := en.(timer := false);
      if !persists {
        en := en.(explicit := true);
        en := en.(removing := false);
        heap := heap[e := en];
        return false;
      }
      heap := heap[e := en];
      if en.leases == 0 {
        entries := entries - {slot};
        doomed := doomed + {e};
      }
      removed := true;
    }

    /** Add after any wait: pins the root, opening it if need be. */
    method AddLocked(e: nat, existed: bool, wasOpen: bool, oldRemoving: bool, opens: bool, persists: bool) returns (ok: bool)
      requires e < |heap|
      modifies `entries, `heap, `where, `nextWs, `doomed, `timers
      ensures View() == AddTail(old(View()), e, existed, wasOpen, oldRemoving, opens, persists)
      ensures ok <==> (old(heap[e].state.Some?) || opens) && (old(heap[e].explicit) || persists)
    {
      if heap[e].state.None? {
        if !opens {
          if !existed {
            entries := entries - {heap[e].slot};
          }
          return false;
        }
        OpenInto(e);
      }
      if heap[e].explicit {
        return true;
      }
      var oldTimer := heap[e].timer;
      PinEntry(e);
      ok := persists;
      if !persists {
        RollBack(e, existed, wasOpen, oldRemoving, oldTimer);
      }
    }

    method PinEntry(e: nat)
      requires e < |heap|
      modifies `heap
      ensures View() == Pin(old(View()), e)
    {
      var en := heap[e];
      en := en.(epoch := en.epoch + 1);
      en := en.(timer := false);
      en := en.(explicit := true);
      heap := heap[e := en.(removing := false)];
    }

    method RollBack(e: nat, existed: bool, wasOpen: bool, oldRemoving: bool, oldTimer: bool)
      requires e < |heap| && heap[e].state.Some?
      modifies `entries, `heap, `where, `doomed, `timers
      ensures View() == Unpin(old(View()), e, existed, wasOpen, oldRemoving, oldTimer)
    {
      var en := heap[e];
      en := en.(explicit := false);
      heap := heap[e := en.(removing := oldRemoving)];
      if !existed {
        entries := entries - {en.slot};
        doomed := doomed + {e};
        return;
      }
      if !wasOpen {
        DetachState(e);
      }
      if oldTimer {
        ScheduleEviction(e);
      }
    }

    method DetachState(e: nat)
      requires e < |heap| && heap[e].state.Some?
      modifies `heap, `where, `doomed
      ensures View() == Detach(old(View()), e)
    {
      var closeEntry := |heap|;
      var w := heap[e].state;
      heap := heap[e := heap[e].(state := None)] + [Blank(Unlisted).(state := w)];
      where := where[w.value := InEntry(closeEntry)];
      doomed := doomed + {closeEntry};
    }

    /** restoreExplicit up to its open: the record to settle, or None when there is nothing to do. */
    method BeginRestore(root: string) returns (rid: Option<nat>)
      requires Shaped(View())
      modifies `heap, `restores, `nextRestore
      ensures View() == StartRestore(old(View()), RootSlot(root))
      ensures rid.Some? <==> View() != old(View())
    {
      var slot := RootSlot(root);
      if closed || slot !in entries {
        return None;
      }
      var e := entries[slot];
      hide Shaped;
      if !heap[e].explicit || heap[e].state.Some? || heap[e].restore.Some? {
        return None;
      }
      rid := Some(nextRestore);
      heap := heap[e := heap[e].(restore := rid)];
      restores := restores[nextRestore := Opening(e)];
      nextRestore := nextRestore + 1;
    }

    /** restoreExplicit after its open: kept if the root still wants it, else closed. */
    method FinishRestore(rid: nat) returns (kept: bool)
      requires Shaped(View()) && Enabled(View(), RestoreSettle(rid))
      modifies `heap, `where, `doomed, `restores
      ensures View() == SettleRestore(old(View()), rid)
      ensures kept <==> old(restores)[rid].OpenedFor? && Welcome(old(View()), old(restores)[rid].entry)
    {
      var e := restores[rid].entry;
      var welcome := !closed && heap[e].slot in entries && entries[heap[e].slot] == e && heap[e].explicit && !heap[e].removing;
      hide Shaped;
      kept := restores[rid].OpenedFor? && welcome;
      if heap[e].restore == Some(rid) {
        heap := heap[e := heap[e].(restore := None)];
      }
      assert heap == old(heap)[e := RestoreCleared(old(heap)[e], rid)];
      if restores[rid].OpenFailed? {
        restores := restores[rid := Settled(false)];
      } else if kept {
        KeepRestored(rid);
      } else {
        RejectRestored(rid);
      }
    }

    method KeepRestored(rid: nat)
      requires rid in restores && restores[rid].OpenedFor? && restores[rid].entry < |heap|
      modifies `heap, `where, `restores
      ensures View() == MoveIn(old(View()), rid)
    {
      var r := restores[rid];
      heap := heap[r.entry := heap[r.entry].(state := Some(r.ws))];
      where := where[r.ws := InEntry(r.entry)];
      restores := restores[rid := Settled(true)];
    }

    method RejectRestored(rid: nat)
      requires rid in restores && restores[rid].OpenedFor?
      modifies `heap, `where, `doomed, `restores
      ensures View() == MoveOut(old(View()), rid)
    {
      var r := restores[rid];
      where := where[r.ws := InEntry(|heap|)];
      doomed := doomed + {|heap|};
      heap := heap + [Blank(Unlisted).(state := Some(r.ws))];
      restores := restores[rid := Settled(false)];
    }

    method Close()
      requires Inv(View())
      modifies `closed, `entries, `doomed
      ensures View() == Next(old(View()), CloseAll) && Inv(View())
      ensures closed && entries == map[] && (!old(closed) ==> old(entries).Values <= doomed)
    {
      CloseAllKeeps(View());
      if closed {
        return;
      }
      closed := true;
      var taken := entries;
      entries := map[];
      doomed := doomed + taken.Values;
    }
  }

  /** What the caller of Acquire gets: a counted lease on an open, listed workspace,
      which makes every timer armed before it stale. */
  lemma AcquireGrants(s: State, e: nat, opens: bool)
    requires Inv(s) && Listed(s, e) && s.heap[e].restore.None?
    requires !s.heap[e].removing && (s.heap[e].state.Some? || opens)
    ensures var s' := AcquireTail(s, e, opens);
      && Inv(s') && Listed(s', e) && s'.heap[e].state.Some?
      && s.nextHolder !in s.heap[e].holders && s'.heap[e].holders == s.heap[e].holders + {s.nextHolder}
      && s'.heap[e].leases == |s'.heap[e].holders|
      && forall t :: t in s'.timers && t.entry == e ==> !Evicts(s', t) && t.epoch < s'.heap[e].epoch
  {
    AcquireTailKeeps(s, e, opens);
    SoundFromInv(s, e);
    FreshHolder(s, e);
    assert TimersTidy(s);
    hide Own, Tidy, AllCalm;
    assert Calm(s, e) by { CalmFromInv(s, e); }
  }

  lemma CalmFromInv(s: State, e: nat)
    requires Inv(s) && Listed(s, e)
    ensures Calm(s, e) && e !in s.doomed
  {
  }

  /** Returning the last lease of an entry being removed closes it; any other return
      leaves it listed, and idle only with an eviction due. */
  lemma ReleaseSettles(s: State, e: nat, holder: nat)
    requires Inv(s) && Listed(s, e) && holder in s.heap[e].holders
    ensures var s' := GiveBack(s, e, holder);
      && Inv(s') && s'.heap[e].holders == s.heap[e].holders - {holder}
      && (e in s'.doomed <==> s.heap[e].removing && s'.heap[e].holders == {})
      && (e !in s'.doomed ==> Listed(s', e) && s'.heap[e].leases == |s'.heap[e].holders|)
  {
    GiveBackKeeps(s, e, holder);
    CalmFromInv(s, e);
    hide Inv;
    assert |s.heap[e].holders - {holder}| == |s.heap[e].holders| - 1;
    assert |s.heap[e].holders - {holder}| == 0 <==> s.heap[e].holders - {holder} == {};
  }

  /** A removed root is closed at once if nobody leases it, and otherwise refuses
      every new lease while the holders keep theirs. */
  lemma RemoveSettles(s: State, root: string)
    requires Inv(s) && RootSlot(root) in s.entries && s.heap[s.entries[RootSlot(root)]].explicit
    ensures var s', e := StartRemove(s, RootSlot(root), true), s.entries[RootSlot(root)];
      && Inv(s') && s'.heap[e].holders == s.heap[e].holders && !s'.heap[e].explicit
      && (e in s'.doomed <==> s.heap[e].holders == {})
      && (e !in s'.doomed ==> Listed(s', e) && forall opens :: AcquireTail(s', e, opens) == s')
  {
    var e := s.entries[RootSlot(root)];
    StartRemoveKeeps(s, RootSlot(root), true);
    CalmFromInv(s, e);
    assert |s.heap[e].holders| == 0 <==> s.heap[e].holders == {};
  }
}
