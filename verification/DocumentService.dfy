/** Shared document stores (src/cmd/ragrep/document_service.go:70-214): opened once
    by the first caller, leased, and closed after the last lease is back. */
module DocumentService {
  import opened Options
  import opened Sequences

  /** A documentStoreEntry.  Its index names its store, which exists once the entry
      is ready without having failed; `released` says its channel is closed. */
  datatype Entry = Entry(key: string, ready: bool, failed: bool, released: bool, leases: nat, holders: set<nat>)

  datatype Phase = Creating(entry: nat) | Waiting(entry: nat) | Granting(entry: nat)

  /** Close at work: waiting for its entries in turn, then closing their stores in turn. */
  datatype Closer = Closer(list: seq<nat>, waited: nat, closed: nat)

  datatype Service = Service(
    entries: map<string, nat>,
    heap: seq<Entry>,
    callers: map<nat, Phase>,
    nextCaller: nat,
    closer: Option<Closer>,    // set exactly when `closed` is
    shut: seq<nat>)            // store.Close calls, in order

  datatype Step =
    | Look(key: string)
    | OpenDone(caller: nat, opens: bool)
    | Wake(caller: nat, cancelled: bool)
    | Grant(caller: nat, cancelled: bool)
    | Release(entry: nat, holder: nat)
    | Close(order: seq<nat>)
    | CloserWaits
    | CloserCloses

  const EMPTY := Service(map[], [], map[], 0, None, [])

  predicate Listed(s: Service, e: nat) {
    e < |s.heap| && s.heap[e].key in s.entries && s.entries[s.heap[e].key] == e
  }

  predicate HasStore(en: Entry) {
    en.ready && !en.failed
  }

  predicate Shaped(s: Service) {
    && (forall k :: k in s.entries ==> s.entries[k] < |s.heap| && s.heap[s.entries[k]].key == k)
    && (forall c :: c in s.callers ==> s.callers[c].entry < |s.heap|)
    && (s.closer.Some? ==> forall e :: e in s.closer.value.list ==> e < |s.heap|)
  }

  predicate Enabled(s: Service, step: Step) {
    match step
    case Look(_) => true
    case OpenDone(c, _) => c in s.callers && s.callers[c].Creating?
    case Wake(c, cancelled) =>
      c in s.callers && s.callers[c].Waiting? && s.callers[c].entry < |s.heap| && (cancelled || s.heap[s.callers[c].entry].ready)
    case Grant(c, _) => c in s.callers && s.callers[c].Granting?
    case Release(e, holder) => e < |s.heap| && holder in s.heap[e].holders
    case Close(order) =>
      s.closer.None? && Distinct(order) && (forall e :: e in order ==> e in s.entries.Values) && (forall e :: e in s.entries.Values ==> e in order)
    case CloserWaits =>
      s.closer.Some? && s.closer.value.waited < |s.closer.value.list|
        && s.closer.value.list[s.closer.value.waited] < |s.heap|
        && s.heap[s.closer.value.list[s.closer.value.waited]].ready
        && s.heap[s.closer.value.list[s.closer.value.waited]].released
    case CloserCloses =>
      s.closer.Some? && s.closer.value.waited == |s.closer.value.list| && s.closer.value.closed < |s.closer.value.list|
  }

  function SetEntry(s: Service, e: nat, en: Entry): Service
    requires e < |s.heap|
  {
    s.(heap := s.heap[e := en])
  }

  function Next(s: Service, step: Step): Service
    requires Shaped(s) && Enabled(s, step)
  {
    match step
    case Look(key) => Looked(s, key)
    case OpenDone(c, opens) => Opened(s, c, opens)
    case Wake(c, cancelled) =>
      if cancelled then s.(callers := s.callers - {c}) else s.(callers := s.callers[c := Granting(s.callers[c].entry)])
    case Grant(c, cancelled) => Granted(s, c, cancelled)
    case Release(e, holder) => Returned(s, e, holder)
    case Close(order) => s.(closer := Some(Closer(order, 0, 0)))
    case CloserWaits => s.(closer := Some(s.closer.value.(waited := s.closer.value.waited + 1)))
    case CloserCloses => ClosedOne(s, s.closer.value)
  }

  /** The first section of acquire. */
  function Looked(s: Service, key: string): Service
    requires Shaped(s)
  {
    if s.closer.Some? then s
    else if key in s.entries then s.(callers := s.callers[s.nextCaller := Waiting(s.entries[key])], nextCaller := s.nextCaller + 1)
    else
      Service(s.entries[key := |s.heap|], s.heap + [Entry(key, false, false, true, 0, {})],
              s.callers[s.nextCaller := Creating(|s.heap|)], s.nextCaller + 1, s.closer, s.shut)
  }

  function Opened(s: Service, c: nat, opens: bool): Service
    requires Shaped(s) && c in s.callers && s.callers[c].Creating?
  {
    var e := s.callers[c].entry;
    var s1 := SetEntry(s, e, s.heap[e].(ready := true, failed := !opens));
    s1.(entries := if !opens && Listed(s, e) then s.entries - {s.heap[e].key} else s.entries,
        callers := s.callers[c := Waiting(e)])
  }

  /** The last section of acquire; the caller becomes the holder of its lease. */
  function Granted(s: Service, c: nat, cancelled: bool): Service
    requires Shaped(s) && c in s.callers
  {
    var e := s.callers[c].entry;
    var en := s.heap[e];
    var s1 := s.(callers := s.callers - {c});
    if s.closer.Some? || en.failed || cancelled then s1
    else SetEntry(s1, e, en.(released := if en.leases == 0 then false else en.released, leases := en.leases + 1, holders := en.holders + {c}))
  }

  function Returned(s: Service, e: nat, holder: nat): Service
    requires e < |s.heap| && holder in s.heap[e].holders
  {
    var en := s.heap[e];
    var left := if en.leases > 0 then en.leases - 1 else 0;
    SetEntry(s, e, en.(leases := left, holders := en.holders - {holder}, released := if left == 0 then true else en.released))
  }

  function ClosedOne(s: Service, c: Closer): Service
    requires Shaped(s) && s.closer == Some(c) && c.closed < |c.list|
  {
    var e := c.list[c.closed];
    assert e in c.list;
    s.(closer := Some(c.(closed := c.closed + 1)), shut := if HasStore(s.heap[e]) then s.shut + [e] else s.shut)
  }

  // ---- the invariant ----

  /** Leases are the holders; the channel is closed exactly when there are none, so
      it is never closed twice; only open stores are leased. */
  predicate EntryOk(s: Service, e: nat)
    requires e < |s.heap|
  {
    var en := s.heap[e];
    && en.leases == |en.holders| && (en.released <==> en.leases == 0)
    && (en.leases > 0 ==> HasStore(en)) && (en.failed ==> en.ready)
    && (!en.failed ==> Listed(s, e))
    && (forall h :: h in en.holders ==> h < s.nextCaller && h !in s.callers)
  }

  predicate CallerOk(s: Service, c: nat)
    requires c in s.callers && s.callers[c].entry < |s.heap|
  {
    c < s.nextCaller && (s.callers[c].Creating? ==> !s.heap[s.callers[c].entry].ready)
      && (s.callers[c].Granting? ==> s.heap[s.callers[c].entry].ready)
      && (s.callers[c].Creating? ==> forall d :: d in s.callers && s.callers[d] == s.callers[c] ==> d == c)
  }

  predicate CloserOk(s: Service, c: Closer)
    requires forall e :: e in c.list ==> e < |s.heap|
  {
    && c.waited <= |c.list| && c.closed <= c.waited && (c.closed > 0 ==> c.waited == |c.list|) && Distinct(c.list)
    && (forall e :: 0 <= e < |s.heap| && !s.heap[e].failed ==> e in c.list)
    && (forall i :: 0 <= i < c.waited ==> c.list[i] in c.list && s.heap[c.list[i]].ready && s.heap[c.list[i]].leases == 0)
    && (forall e :: e in s.shut ==> e in c.list[..c.closed] && e in c.list && HasStore(s.heap[e]))
    && (forall e :: e in c.list[..c.closed] && e in c.list && HasStore(s.heap[e]) ==> e in s.shut)
  }

  predicate Inv(s: Service) {
    && Shaped(s)
    && (forall e :: 0 <= e < |s.heap| ==> EntryOk(s, e))
    && (forall c :: c in s.callers ==> CallerOk(s, c))
    && (match s.closer case None => s.shut == [] case Some(c) => CloserOk(s, c))
    && Distinct(s.shut)
  }

  lemma LookKeepsInv(s: Service, key: string)
    requires Inv(s)
    ensures Inv(Looked(s, key))
  {
    var s' := Looked(s, key);
    forall e | 0 <= e < |s'.heap|
      ensures EntryOk(s', e)
    {
      if e < |s.heap| {
        assert EntryOk(s, e);
      }
    }
    forall c | c in s'.callers
      ensures CallerOk(s', c)
    {
      assert c in s.callers ==> CallerOk(s, c);
    }
  }

  lemma OpenedKeepsInv(s: Service, c: nat, opens: bool)
    requires Inv(s) && c in s.callers && s.callers[c].Creating?
    ensures Inv(Opened(s, c, opens))
  {
    var s' := Opened(s, c, opens);
    var e := s.callers[c].entry;
    assert CallerOk(s, c) && EntryOk(s, e);
    forall x | 0 <= x < |s'.heap|
      ensures EntryOk(s', x)
    {
      assert EntryOk(s, x);
    }
    forall d | d in s'.callers
      ensures CallerOk(s', d)
    {
      assert CallerOk(s, d);
    }
  }

  lemma CallersKeepInv(s: Service, s': Service, c: nat)
    requires Inv(s) && c in s.callers && s.callers[c].entry < |s.heap|
    requires s' == s.(callers := s.callers - {c}) || (s.callers[c].Waiting? && s.heap[s.callers[c].entry].ready && s' == s.(callers := s.callers[c := Granting(s.callers[c].entry)]))
    ensures Inv(s')
  {
    assert CallerOk(s, c);
    forall x | 0 <= x < |s'.heap|
      ensures EntryOk(s', x)
    {
      assert EntryOk(s, x);
    }
    forall d | d in s'.callers
      ensures CallerOk(s', d)
    {
      assert CallerOk(s, d);
    }
  }

  lemma GrantedKeepsInv(s: Service, c: nat, cancelled: bool)
    requires Inv(s) && c in s.callers && s.callers[c].Granting?
    ensures Inv(Granted(s, c, cancelled))
  {
    var s' := Granted(s, c, cancelled);
    var s1 := s.(callers := s.callers - {c});
    assert CallerOk(s, c);
    CallersKeepInv(s, s1, c);
    if s' != s1 {
      var e := s.callers[c].entry;
      assert EntryOk(s, e);
      forall x | 0 <= x < |s'.heap|
        ensures EntryOk(s', x)
      {
        assert EntryOk(s1, x);
      }
      forall d | d in s'.callers
        ensures CallerOk(s', d)
      {
        assert CallerOk(s1, d);
      }
    }
  }

  lemma ReturnedKeepsInv(s: Service, e: nat, holder: nat)
    requires Inv(s) && e < |s.heap| && holder in s.heap[e].holders
    ensures Inv(Returned(s, e, holder))
  {
    var s' := Returned(s, e, holder);
    assert EntryOk(s, e);
    assert |s.heap[e].holders - {holder}| == |s.heap[e].holders| - 1;
    forall x | 0 <= x < |s'.heap|
      ensures EntryOk(s', x)
    {
      assert EntryOk(s, x);
    }
    forall d | d in s'.callers
      ensures CallerOk(s', d)
    {
      assert CallerOk(s, d);
    }
  }

  lemma CloserKeepsInv(s: Service, step: Step)
    requires Inv(s) && Enabled(s, step) && (step.Close? || step.CloserWaits? || step.CloserCloses?)
    ensures Inv(Next(s, step))
  {
    var s' := Next(s, step);
    forall x | 0 <= x < |s'.heap|
      ensures EntryOk(s', x)
    {
      assert EntryOk(s, x);
    }
    forall d | d in s'.callers
      ensures CallerOk(s', d)
    {
      assert CallerOk(s, d);
    }
    match step {
      case Close(order) =>
        assert order[..0] == [];
        forall e | 0 <= e < |s.heap| && !s.heap[e].failed
          ensures e in order
        {
          assert EntryOk(s, e);
          assert s.entries[s.heap[e].key] in s.entries.Values;
        }
      case CloserWaits =>
        var e := s.closer.value.list[s.closer.value.waited];
        assert e in s.closer.value.list && EntryOk(s, e);
      case CloserCloses =>
        var c := s.closer.value;
        assert c.list[..c.closed + 1] == c.list[..c.closed] + [c.list[c.closed]];
        assert c.list[c.closed] !in c.list[..c.closed];
    }
  }

  lemma StepKeepsInv(s: Service, step: Step)
    requires Inv(s) && Enabled(s, step)
    ensures Inv(Next(s, step))
  {
    match step
    case Look(key) => LookKeepsInv(s, key);
    case OpenDone(c, opens) => OpenedKeepsInv(s, c, opens);
    case Wake(c, cancelled) => CallersKeepInv(s, Next(s, step), c);
    case Grant(c, cancelled) => GrantedKeepsInv(s, c, cancelled);
    case Release(e, holder) => ReturnedKeepsInv(s, e, holder);
    case _ => CloserKeepsInv(s, step);
  }

  predicate IsRun(run: seq<Service>, steps: seq<Step>) {
    && |run| == |steps| + 1 && run[0] == EMPTY
    && forall i :: 0 <= i < |steps| ==> Shaped(run[i]) && Enabled(run[i], steps[i]) && run[i + 1] == Next(run[i], steps[i])
  }

  lemma {:induction false} RunKeepsInv(run: seq<Service>, steps: seq<Step>, k: nat)
    requires IsRun(run, steps) && k <= |steps|
    ensures Inv(run[k])
  {
    if k == 0 {
    } else {
      RunKeepsInv(run, steps, k - 1);
      StepKeepsInv(run[k - 1], steps[k - 1]);
    }
  }

  predicate ClosesStore(s: Service, step: Step, e: nat) {
    && Enabled(s, step) && step.CloserCloses? && s.closer.value.list[s.closer.value.closed] == e
    && e < |s.heap| && HasStore(s.heap[e])
  }

  /** A store is closed when its last lease is back, only once, and nobody is given
      a lease on it afterwards. */
  lemma ClosedAfterLastLease(run: seq<Service>, steps: seq<Step>, k: nat, e: nat)
    requires IsRun(run, steps) && k < |steps| && ClosesStore(run[k], steps[k], e)
    ensures run[k].heap[e].holders == {} && e !in run[k].shut
    ensures forall m :: k <= m <= |steps| ==> e < |run[m].heap| && run[m].heap[e].holders == {}
  {
    forall m | k <= m <= |steps|
      ensures e < |run[m].heap| && run[m].heap[e].holders == {}
    {
      StaysUnleased(run, steps, k, m, e);
    }
    RunKeepsInv(run, steps, k);
    var c := run[k].closer.value;
    assert c.list[c.closed] !in c.list[..c.closed];
  }

  lemma UnleasedStep(s: Service, step: Step, e: nat)
    requires Inv(s) && Enabled(s, step) && s.closer.Some? && e < |s.heap| && s.heap[e].holders == {}
    ensures Next(s, step).closer.Some? && e < |Next(s, step).heap| && Next(s, step).heap[e].holders == {}
  {
  }

  lemma {:induction false} StaysUnleased(run: seq<Service>, steps: seq<Step>, k: nat, m: nat, e: nat)
    requires IsRun(run, steps) && k <= m <= |steps| && k < |steps| && ClosesStore(run[k], steps[k], e)
    ensures run[m].closer.Some? && e < |run[m].heap| && run[m].heap[e].holders == {}
  {
    if m == k {
      RunKeepsInv(run, steps, k);
      assert EntryOk(run[k], e);
    } else {
      StaysUnleased(run, steps, k, m - 1, e);
      RunKeepsInv(run, steps, m - 1);
      UnleasedStep(run[m - 1], steps[m - 1], e);
    }
  }

  /** When Close returns, every store ever opened has been closed exactly once. */
  lemma NothingStaysOpen(run: seq<Service>, steps: seq<Step>, k: nat, e: nat)
    requires IsRun(run, steps) && k <= |steps| && run[k].closer.Some?
    requires run[k].closer.value.closed == |run[k].closer.value.list|
    requires e < |run[k].heap| && HasStore(run[k].heap[e])
    ensures e in run[k].shut && Distinct(run[k].shut)
  {
    RunKeepsInv(run, steps, k);
    var c := run[k].closer.value;
    assert c.list[..|c.list|] == c.list;
  }

  /** The release that returns the last lease finds its channel open, so closing it
      cannot panic, and Close is then free to go on. */
  lemma LastReleaseOpensTheWay(run: seq<Service>, steps: seq<Step>, k: nat, e: nat, holder: nat)
    requires IsRun(run, steps) && k < |steps| && steps[k] == Release(e, holder)
    ensures run[k].heap[e].leases > 0 && !run[k].heap[e].released
    ensures run[k + 1].heap[e].released <==> run[k].heap[e].holders == {holder}
  {
    RunKeepsInv(run, steps, k);
    assert EntryOk(run[k], e);
    var left := run[k].heap[e].holders - {holder};
    assert |left| == |run[k].heap[e].holders| - 1;
    assert run[k].heap[e].holders == left + {holder};
  }

  // ---- the object ----

  // ---- what each caller gets ----

  /** e is a new entry, with nothing opened yet and no lease. */
  predicate NewEntry(s: Service, s': Service, e: nat) {
    e == |s.heap| < |s'.heap| && !s'.heap[e].ready && !s'.heap[e].failed && s'.heap[e].holders == {}
  }

  /** A caller joins the entry of its key, or makes one to open; once Close has begun,
      everybody is refused. */
  lemma LookJoinsOrOpens(s: Service, key: string)
    requires Inv(s)
    ensures var s' := Next(s, Look(key));
      if s.closer.Some? then s' == s else
        && s.nextCaller !in s.callers && s'.nextCaller == s.nextCaller + 1 && key in s'.entries && s'.closer.None?
        && s'.callers.Keys == s.callers.Keys + {s.nextCaller} && (forall c :: c in s.callers ==> s'.callers[c] == s.callers[c])
        && (forall k :: k in s.entries ==> k in s'.entries && s'.entries[k] == s.entries[k])
        && (forall e :: 0 <= e < |s.heap| ==> e < |s'.heap| && s'.heap[e] == s.heap[e])
        && (if key in s.entries then s'.callers[s.nextCaller] == Waiting(s.entries[key])
            else s'.callers[s.nextCaller] == Creating(s'.entries[key]) && NewEntry(s, s', s'.entries[key]))
  {
    assert forall c :: c in s.callers ==> CallerOk(s, c);
  }

  /** The creator publishes its store, or its failure, and forgets a failed entry. */
  lemma OpenPublishes(s: Service, c: nat, opens: bool)
    requires Inv(s) && Enabled(s, OpenDone(c, opens))
    ensures var s', e := Next(s, OpenDone(c, opens)), s.callers[c].entry;
      && s'.heap[e].ready && (s'.heap[e].failed <==> !opens) && s'.callers == s.callers[c := Waiting(e)]
      && (HasStore(s'.heap[e]) <==> opens) && s'.heap[e].holders == s.heap[e].holders
      && (forall k :: k in s'.entries <==> k in s.entries && (!opens ==> s.entries[k] != e))
      && (forall k :: k in s'.entries ==> s'.entries[k] == s.entries[k])
  {
  }

  /** A lease is granted exactly while the service is open, on a store that opened, to a
      caller that has not given up; the caller becomes its holder. */
  lemma GrantIff(s: Service, c: nat, cancelled: bool)
    requires Inv(s) && Enabled(s, Grant(c, cancelled))
    ensures var s', e := Next(s, Grant(c, cancelled)), s.callers[c].entry;
      && s'.callers == s.callers - {c} && s'.entries == s.entries && s'.closer == s.closer && s'.shut == s.shut
      && (forall x :: 0 <= x < |s.heap| && x != e ==> s'.heap[x] == s.heap[x]) && |s'.heap| == |s.heap|
      && if s.closer.None? && !s.heap[e].failed && !cancelled
         then HasStore(s'.heap[e]) && c !in s.heap[e].holders && s'.heap[e].holders == s.heap[e].holders + {c}
           && s'.heap[e].leases == |s'.heap[e].holders| && !s'.heap[e].released && e !in s'.shut
         else s'.heap == s.heap
  {
    assert CallerOk(s, c) && EntryOk(s, s.callers[c].entry);
  }

  lemma ReleaseReturns(s: Service, e: nat, holder: nat)
    requires Inv(s) && Enabled(s, Release(e, holder))
    ensures var s' := Next(s, Release(e, holder));
      && s' == s.(heap := s'.heap) && |s'.heap| == |s.heap| && (forall x :: 0 <= x < |s.heap| && x != e ==> s'.heap[x] == s.heap[x])
      && s'.heap[e].holders == s.heap[e].holders - {holder} && s'.heap[e].leases == |s'.heap[e].holders|
      && (s'.heap[e].released <==> s'.heap[e].holders == {}) && HasStore(s'.heap[e])
  {
    assert EntryOk(s, e);
    assert |s.heap[e].holders - {holder}| == |s.heap[e].holders| - 1;
    assert s.heap[e].holders - {holder} == {} <==> |s.heap[e].holders - {holder}| == 0;
  }

  /** Close takes down every listed entry, waits for each in turn, and then closes each
      store that opened, in turn. */
  lemma CloserGoesOn(s: Service, order: seq<nat>)
    requires Inv(s)
    ensures Enabled(s, Close(order)) ==>
      Next(s, Close(order)) == s.(closer := Some(Closer(order, 0, 0))) && forall k :: k in s.entries ==> s.entries[k] in order
    ensures Enabled(s, CloserWaits) ==>
      var c := s.closer.value;
      Next(s, CloserWaits) == s.(closer := Some(Closer(c.list, c.waited + 1, c.closed)))
    ensures Enabled(s, CloserCloses) ==>
      var c := s.closer.value;
      c.list[c.closed] < |s.heap| && var en := s.heap[c.list[c.closed]];
      Next(s, CloserCloses) ==
        s.(closer := Some(Closer(c.list, c.waited, c.closed + 1)), shut := if en.ready && !en.failed then s.shut + [c.list[c.closed]] else s.shut)
  {
    assert forall k :: k in s.entries ==> s.entries[k] in s.entries.Values;
    assert Enabled(s, CloserCloses) ==> s.closer.value.list[s.closer.value.closed] in s.closer.value.list;
  }

  /** A waiting caller goes on once its entry is ready, or gives up. */
  lemma WakeGoesOn(s: Service, c: nat, cancelled: bool)
    requires Shaped(s) && Enabled(s, Wake(c, cancelled))
    ensures Next(s, Wake(c, cancelled)) ==
      s.(callers := if cancelled then s.callers - {c} else s.callers[c := Granting(s.callers[c].entry)])
  {
  }

  class Stores {
    var entries: map<string, nat>
    var heap: seq<Entry>
    var callers: map<nat, Phase>
    var nextCaller: nat
    var closer: Option<Closer>
    var shut: seq<nat>

    function View(): Service
      reads this
    {
      Service(entries, heap, callers, nextCaller, closer, shut)
    }

    constructor ()
      ensures View() == EMPTY && Inv(View())
    {
      entries, heap, callers, nextCaller, closer, shut := map[], [], map[], 0, None, [];
    }

    method LookUp(key: string) returns (caller: Option<nat>)
      requires Shaped(View())
      modifies `entries, `heap, `callers, `nextCaller
      ensures View() == Looked(old(View()), key)
      ensures caller == if closer.Some? then None else Some(old(nextCaller))
    {
      if closer.Some? {
        return None;
      }
      caller := Some(nextCaller);
      var created := key !in entries;
      if created {
        heap := heap + [Entry(key, false, false, true, 0, {})];
        entries := entries[key := |heap| - 1];
      }
      callers := callers[nextCaller := if created then Creating(entries[key]) else Waiting(entries[key])];
      nextCaller := nextCaller + 1;
    }

    method FinishOpen(caller: nat, opens: bool)
      requires Shaped(View()) && caller in callers && callers[caller].Creating?
      modifies `entries, `heap, `callers
      ensures View() == Opened(old(View()), caller, opens)
    {
      var e := callers[caller].entry;
      var key := heap[e].key;
      var en := heap[e].(failed := !opens);
      en := en.(ready := true);
      heap := heap[e := en];
      if !opens && key in entries && entries[key] == e {
        entries := entries - {key};
      }
      callers := callers[caller := Waiting(e)];
    }

    /** The granted lease, or None for an error or a cancellation. */
    method GrantLease(caller: nat, cancelled: bool) returns (store: Option<nat>)
      requires Inv(View()) && caller in callers && callers[caller].Granting?
      modifies `heap, `callers
      ensures View() == Granted(old(View()), caller, cancelled) && Inv(View())
      ensures store.Some? ==> closer.None? && store.value < |heap| && HasStore(heap[store.value]) && caller in heap[store.value].holders
      ensures store.None? ==> heap == old(heap)
    {
      GrantedKeepsInv(View(), caller, cancelled);
      assert CallerOk(View(), caller);
      var e := callers[caller].entry;
      callers := callers - {caller};
      if closer.Some? || heap[e].failed || cancelled {
        return None;
      }
      var en := heap[e];
      if en.leases == 0 {
        en := en.(released := false);
      }
      en := en.(leases := en.leases + 1);
      heap := heap[e := en.(holders := en.holders + {caller})];
      store := Some(e);
    }

    method ReleaseLease(e: nat, holder: nat)
      requires Inv(View()) && e < |heap| && holder in heap[e].holders
      modifies `heap
      ensures View() == Returned(old(View()), e, holder) && Inv(View())
      ensures heap[e].released <==> heap[e].leases == 0
    {
      ReturnedKeepsInv(View(), e, holder);
      assert EntryOk(View(), e);
      assert |heap[e].holders| > 0;
      var en := heap[e].(holders := heap[e].holders - {holder});
      en := en.(leases := en.leases - 1);
      if en.leases == 0 {
        en := en.(released := true);
      }
      heap := heap[e := en];
      assert EntryOk(View(), e);
    }
  }
}
