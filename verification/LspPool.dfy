/** The language-server pool (src/cmd/ragrep/resource_pool.go:125-273): leases on
    one server per workspace and language, closed after idling.  Every callback of
    a timer is a step of its own, stopped timers included. */
module LspPool {
  import opened Options
  import opened Sequences

  datatype Key = Key(root: string, language: string)

  /** An lspPoolEntry; its server is closed when its index is in `shut`.  `holders`
      names the release functions not called yet. */
  datatype Entry = Entry(key: Key, leases: nat, timer: bool, timerGeneration: nat, holders: set<nat>)

  datatype Timer = Timer(entry: nat, generation: nat)

  datatype Pool = Pool(
    closed: bool,
    entries: map<Key, nat>,
    heap: seq<Entry>,
    timers: set<Timer>,      // callbacks that may still run
    doomed: set<nat>,        // entries Close has still to close
    shut: seq<nat>,          // server.close calls, in order
    nextHolder: nat)

  datatype Step =
    | Acquire(key: Key, starts: bool)
    | Release(entry: nat, holder: nat)
    | CloseIdle(timer: Timer)
    | ClosePool
    | CloseServer(entry: nat)

  const EMPTY := Pool(false, map[], [], {}, {}, [], 0)

  predicate Listed(p: Pool, e: nat) {
    e < |p.heap| && p.heap[e].key in p.entries && p.entries[p.heap[e].key] == e
  }

  predicate Shaped(p: Pool) {
    forall k :: k in p.entries ==> p.entries[k] < |p.heap| && p.heap[p.entries[k]].key == k
  }

  predicate Enabled(p: Pool, step: Step) {
    match step
    case Release(e, holder) => e < |p.heap| && holder in p.heap[e].holders
    case CloseIdle(timer) => timer in p.timers
    case CloseServer(e) => e in p.doomed
    case _ => true
  }

  function Next(p: Pool, step: Step): Pool
    requires Shaped(p) && Enabled(p, step)
  {
    match step
    case Acquire(key, starts) => Acquired(p, key, starts)
    case Release(e, holder) => Released(p, e, holder)
    case CloseIdle(timer) => Idled(p, timer)
    case ClosePool => if p.closed then p else p.(closed := true, doomed := p.doomed + p.entries.Values, entries := map[])
    case CloseServer(e) => p.(doomed := p.doomed - {e}, shut := p.shut + [e])
  }

  function Acquired(p: Pool, key: Key, starts: bool): Pool
    requires Shaped(p)
  {
    if p.closed || (key !in p.entries && !starts) then p
    else if key !in p.entries then
      p.(heap := p.heap + [Entry(key, 1, false, 0, {p.nextHolder})], entries := p.entries[key := |p.heap|], nextHolder := p.nextHolder + 1)
    else
      var e := p.entries[key];
      var en := p.heap[e];
      p.(heap := p.heap[e := en.(leases := en.leases + 1, timer := false, holders := en.holders + {p.nextHolder})], nextHolder := p.nextHolder + 1)
  }

  function Released(p: Pool, e: nat, holder: nat): Pool
    requires e < |p.heap|
  {
    var en := p.heap[e].(holders := p.heap[e].holders - {holder});
    if !Listed(p, e) || en.leases == 0 then p.(heap := p.heap[e := en])
    else if en.leases > 1 then p.(heap := p.heap[e := en.(leases := en.leases - 1)])
    else
      var g := en.timerGeneration + 1;
      p.(heap := p.heap[e := en.(leases := 0, timer := true, timerGeneration := g)], timers := p.timers + {Timer(e, g)})
  }

  predicate Expires(p: Pool, timer: Timer) {
    Listed(p, timer.entry) && p.heap[timer.entry].leases == 0 && p.heap[timer.entry].timerGeneration == timer.generation
  }

  function Idled(p: Pool, timer: Timer): Pool {
    var p1 := p.(timers := p.timers - {timer});
    if !Expires(p, timer) then p1
    else
      var e := timer.entry;
      p1.(entries := p.entries - {p.heap[e].key}, heap := p.heap[e := p.heap[e].(timer := false)], shut := p.shut + [e])
  }

  // ---- the invariant ----

  /** A server is listed, about to be closed, or closed; and while listed its leases
      are its holders, and without leases its last timer is due. */
  predicate EntryOk(p: Pool, e: nat)
    requires e < |p.heap|
  {
    var en := p.heap[e];
    && (Listed(p, e) || e in p.doomed || e in p.shut)
    && !(Listed(p, e) && e in p.doomed) && !(Listed(p, e) && e in p.shut) && !(e in p.doomed && e in p.shut)
    && (forall h :: h in en.holders ==> h < p.nextHolder)
    && (Listed(p, e) ==> en.leases == |en.holders| && (en.leases == 0 ==> Timer(e, en.timerGeneration) in p.timers))
  }

  predicate Inv(p: Pool) {
    && Shaped(p)
    && (forall e :: 0 <= e < |p.heap| ==> EntryOk(p, e))
    && (forall t :: t in p.timers ==> t.entry < |p.heap| && t.generation <= p.heap[t.entry].timerGeneration)
    && (forall e :: e in p.doomed ==> e < |p.heap|)
    && (forall e :: e in p.shut ==> e < |p.heap|)
    && Distinct(p.shut)
    && (p.closed ==> p.entries == map[])
  }

  lemma AcquireKeepsInv(p: Pool, key: Key, starts: bool)
    requires Inv(p)
    ensures Inv(Acquired(p, key, starts))
  {
    var p' := Acquired(p, key, starts);
    forall e | 0 <= e < |p'.heap|
      ensures EntryOk(p', e)
    {
      if e < |p.heap| {
        assert EntryOk(p, e);
      } else {
        assert |{p.nextHolder}| == 1;
      }
    }
  }

  lemma ReleaseKeepsInv(p: Pool, e: nat, holder: nat)
    requires Inv(p) && Enabled(p, Release(e, holder))
    ensures Inv(Released(p, e, holder))
  {
    var p' := Released(p, e, holder);
    assert EntryOk(p, e);
    assert |p.heap[e].holders - {holder}| == |p.heap[e].holders| - 1;
    forall x | 0 <= x < |p'.heap|
      ensures EntryOk(p', x)
    {
      assert EntryOk(p, x);
    }
  }

  lemma IdleKeepsInv(p: Pool, timer: Timer)
    requires Inv(p) && timer in p.timers
    ensures Inv(Idled(p, timer))
  {
    var p' := Idled(p, timer);
    assert timer.entry < |p.heap| && EntryOk(p, timer.entry);
    forall x | 0 <= x < |p'.heap|
      ensures EntryOk(p', x)
    {
      assert EntryOk(p, x);
    }
  }

  lemma CloseKeepsInv(p: Pool)
    requires Inv(p)
    ensures Inv(Next(p, ClosePool))
  {
    var p' := Next(p, ClosePool);
    if !p.closed {
      forall x | 0 <= x < |p'.heap|
        ensures EntryOk(p', x)
      {
        assert EntryOk(p, x);
        assert Listed(p, x) ==> p.entries[p.heap[x].key] in p.entries.Values;
      }
    }
  }

  lemma CloseServerKeepsInv(p: Pool, e: nat)
    requires Inv(p) && e in p.doomed
    ensures Inv(Next(p, CloseServer(e)))
  {
    var p' := Next(p, CloseServer(e));
    assert EntryOk(p, e);
    forall x | 0 <= x < |p'.heap|
      ensures EntryOk(p', x)
    {
      assert EntryOk(p, x);
    }
  }

  lemma StepKeepsInv(p: Pool, step: Step)
    requires Inv(p) && Enabled(p, step)
    ensures Inv(Next(p, step))
  {
    match step
    case Acquire(key, starts) => AcquireKeepsInv(p, key, starts);
    case Release(e, holder) => ReleaseKeepsInv(p, e, holder);
    case CloseIdle(timer) => IdleKeepsInv(p, timer);
    case ClosePool => CloseKeepsInv(p);
    case CloseServer(e) => CloseServerKeepsInv(p, e);
  }

  predicate IsRun(run: seq<Pool>, steps: seq<Step>) {
    && |run| == |steps| + 1 && run[0] == EMPTY
    && forall i :: 0 <= i < |steps| ==> Shaped(run[i]) && Enabled(run[i], steps[i]) && run[i + 1] == Next(run[i], steps[i])
  }

  lemma {:induction false} RunKeepsInv(run: seq<Pool>, steps: seq<Step>, k: nat)
    requires IsRun(run, steps) && k <= |steps|
    ensures Inv(run[k])
  {
    if k == 0 {
    } else {
      RunKeepsInv(run, steps, k - 1);
      StepKeepsInv(run[k - 1], steps[k - 1]);
    }
  }

  /** closeIdle closes a server only when nobody holds it; a server is closed once. */
  lemma IdleClosesUnleased(run: seq<Pool>, steps: seq<Step>, k: nat, timer: Timer)
    requires IsRun(run, steps) && k < |steps| && steps[k] == CloseIdle(timer) && Expires(run[k], timer)
    ensures run[k].heap[timer.entry].holders == {} && timer.entry !in run[k].shut
    ensures Distinct(run[k + 1].shut)
  {
    RunKeepsInv(run, steps, k);
    RunKeepsInv(run, steps, k + 1);
    assert EntryOk(run[k], timer.entry);
  }

  /** A generation only moves on a release to zero, so at a fixed generation an
      unleased entry has either stayed unleased or is leased now. */
  predicate Ages(p: Pool, p': Pool, e: nat) {
    e < |p.heap| ==>
      && e < |p'.heap| && p'.heap[e].key == p.heap[e].key && p'.heap[e].timerGeneration >= p.heap[e].timerGeneration
      && (Listed(p', e) ==> Listed(p, e))
      && (p'.heap[e].timerGeneration == p.heap[e].timerGeneration && Listed(p', e) && p'.heap[e].leases == 0 ==> p.heap[e].leases == 0)
  }

  lemma StepAges(p: Pool, step: Step, e: nat)
    requires Shaped(p) && Enabled(p, step)
    ensures Ages(p, Next(p, step), e)
    ensures forall t :: t in Next(p, step).timers && t !in p.timers ==> Expires(Next(p, step), t)
  {
  }

  lemma {:induction false} StaysIdle(run: seq<Pool>, steps: seq<Step>, i: nat, k: nat, t: Timer)
    requires IsRun(run, steps) && i <= k <= |steps| && t.entry < |run[i].heap|
    requires run[i].heap[t.entry].timerGeneration == t.generation && Expires(run[k], t)
    ensures Expires(run[i], t)
    decreases k - i
  {
    hide Shaped, Next, Enabled;
    if i < k {
      StepAges(run[i], steps[i], t.entry);
      GenerationsGrow(run, steps, i + 1, k, t.entry);
      StaysIdle(run, steps, i + 1, k, t);
    }
  }

  lemma {:induction false} GenerationsGrow(run: seq<Pool>, steps: seq<Step>, i: nat, k: nat, e: nat)
    requires IsRun(run, steps) && i <= k <= |steps| && e < |run[i].heap|
    ensures e < |run[k].heap| && run[k].heap[e].timerGeneration >= run[i].heap[e].timerGeneration
    decreases k - i
  {
    hide Shaped, Next, Enabled;
    if i < k {
      StepAges(run[i], steps[i], e);
      GenerationsGrow(run, steps, i + 1, k, e);
    }
  }

  lemma {:induction false} TimerArmedAt(run: seq<Pool>, steps: seq<Step>, k: nat, t: Timer) returns (j: nat)
    requires IsRun(run, steps) && k <= |steps| && t in run[k].timers
    ensures j < k && t !in run[j].timers && t in run[j + 1].timers && Expires(run[j + 1], t)
  {
    if t in run[k - 1].timers {
      j := TimerArmedAt(run, steps, k - 1, t);
    } else {
      j := k - 1;
      StepAges(run[j], steps[j], t.entry);
    }
  }

  /** A callback that closes a server was armed by the release that left it idle,
      and no lease was granted from then until it ran: stale timers do nothing. */
  lemma ClosedOnlyAfterIdling(run: seq<Pool>, steps: seq<Step>, k: nat, t: Timer) returns (j: nat)
    requires IsRun(run, steps) && k < |steps| && steps[k] == CloseIdle(t) && Expires(run[k], t)
    ensures j < k && t !in run[j].timers && forall i :: j < i <= k ==> Expires(run[i], t)
  {
    hide Next;
    j := TimerArmedAt(run, steps, k, t);
    forall i | j < i <= k
      ensures Expires(run[i], t)
    {
      GenerationsGrow(run, steps, j + 1, i, t.entry);
      GenerationsGrow(run, steps, i, k, t.entry);
      StaysIdle(run, steps, i, k, t);
    }
  }

  /** Once closed and drained, every server started has been closed exactly once. */
  lemma NothingStaysOpen(run: seq<Pool>, steps: seq<Step>, k: nat, e: nat)
    requires IsRun(run, steps) && k <= |steps| && run[k].closed && run[k].doomed == {} && e < |run[k].heap|
    ensures e in run[k].shut && Distinct(run[k].shut)
  {
    RunKeepsInv(run, steps, k);
    assert EntryOk(run[k], e);
  }

  // ---- what each caller gets ----

  /** The other entries keep their keys, leases, holders and generations. */
  predicate OthersSame(p: Pool, p': Pool, e: nat) {
    |p.heap| <= |p'.heap| && forall x :: 0 <= x < |p.heap| && x != e ==> p'.heap[x] == p.heap[x]
  }

  /** Acquire grants one counted lease on a listed server, the one there was if there
      was one, which no timer can close; it does so exactly when the pool is open and the
      server is there or starts, and otherwise nothing happens. */
  lemma AcquireGrantsIff(p: Pool, key: Key, starts: bool)
    requires Inv(p)
    ensures var p' := Next(p, Acquire(key, starts));
      if p.closed || (key !in p.entries && !starts) then p' == p
      else
        && key in p'.entries && var e := p'.entries[key];
        && Listed(p', e) && e !in p'.doomed && e !in p'.shut && (key in p.entries ==> e == p.entries[key])
        && p.nextHolder !in (if e < |p.heap| then p.heap[e].holders else {})
        && p'.heap[e].holders == (if e < |p.heap| then p.heap[e].holders else {}) + {p.nextHolder}
        && p'.heap[e].leases == |p'.heap[e].holders| && !p'.heap[e].timer && p'.nextHolder == p.nextHolder + 1
        && (forall t :: t in p'.timers ==> t in p.timers && (t.entry == e ==> !Expires(p', t)))
        && OthersSame(p, p', e) && (forall k :: k != key ==> (k in p'.entries <==> k in p.entries) && (k in p.entries ==> p'.entries[k] == p.entries[k]))
        && p'.doomed == p.doomed && p'.shut == p.shut
  {
    AcquireKeepsInv(p, key, starts);
    var p' := Next(p, Acquire(key, starts));
    if key in p'.entries {
      assert EntryOk(p', p'.entries[key]);
      assert p'.entries[key] < |p.heap| ==> EntryOk(p, p'.entries[key]);
    }
  }

  /** A released lease is gone; the last one arms a timer that makes all earlier ones
      stale, and a release after the server's end changes nothing else. */
  lemma ReleaseGivesBack(p: Pool, e: nat, holder: nat)
    requires Inv(p) && Enabled(p, Release(e, holder))
    ensures var p' := Next(p, Release(e, holder));
      && p'.heap[e].holders == p.heap[e].holders - {holder} && OthersSame(p, p', e) && |p'.heap| == |p.heap|
      && p' == p.(heap := p'.heap, timers := p'.timers)
      && (Listed(p, e) ==> Listed(p', e) && p'.heap[e].leases == |p'.heap[e].holders|)
      && (if Listed(p, e) && p'.heap[e].holders == {}
          then var g := p'.heap[e].timerGeneration;
            p'.timers == p.timers + {Timer(e, g)} && p'.heap[e].timer && Expires(p', Timer(e, g)) && forall t :: t in p.timers ==> !Expires(p', t) || t.entry != e
          else p'.timers == p.timers && p'.heap[e].timerGeneration == p.heap[e].timerGeneration)
  {
    assert EntryOk(p, e);
    assert |p.heap[e].holders - {holder}| == |p.heap[e].holders| - 1;
    assert p.heap[e].holders - {holder} == {} <==> |p.heap[e].holders - {holder}| == 0;
  }

  /** A timer's callback closes the server it was armed for exactly when that is still
      listed, unleased and at the timer's generation; otherwise the timer is used up. */
  lemma CloseIdleIff(p: Pool, t: Timer)
    requires Shaped(p) && t in p.timers
    ensures var p' := Next(p, CloseIdle(t));
      p'.timers == p.timers - {t} &&
      if Listed(p, t.entry) && p.heap[t.entry].leases == 0 && p.heap[t.entry].timerGeneration == t.generation
      then p'.entries == p.entries - {p.heap[t.entry].key} && p'.shut == p.shut + [t.entry] && OthersSame(p, p', t.entry)
        && p'.heap[t.entry] == p.heap[t.entry].(timer := false) && p'.doomed == p.doomed && p'.closed == p.closed
      else p' == p.(timers := p.timers - {t})
  {
  }

  /** Close takes every listed server to be closed, and each is then closed in its turn. */
  lemma CloseTakesAll(p: Pool, e: nat)
    requires Inv(p)
    ensures var p' := Next(p, ClosePool);
      && p'.closed && p'.entries == map[] && p'.shut == p.shut && p'.heap == p.heap && p'.timers == p.timers
      && (e in p'.doomed <==> e in p.doomed || Listed(p, e))
    ensures e in p.doomed ==>
      var p' := Next(p, CloseServer(e));
      p'.shut == p.shut + [e] && p'.doomed == p.doomed - {e} && p'.closed == p.closed && p'.heap == p.heap && p'.entries == p.entries
  {
    if Listed(p, e) {
      assert p.heap[e].key in p.entries && p.entries[p.heap[e].key] in p.entries.Values;
    }
  }

  // ---- the object ----

  class ServerPool {
    var closed: bool
    var entries: map<Key, nat>
    var heap: seq<Entry>
    var timers: set<Timer>
    var doomed: set<nat>
    var shut: seq<nat>
    var nextHolder: nat

    function View(): Pool
      reads this
    {
      Pool(closed, entries, heap, timers, doomed, shut, nextHolder)
    }

    constructor ()
      ensures View() == EMPTY && Inv(View())
    {
      closed, entries, heap, timers, doomed, shut, nextHolder := false, map[], [], {}, {}, [], 0;
    }

    /** AcquireWithMetadata under the lock: the entry and the holder, or None for an error. */
    method AcquireServer(key: Key, starts: bool) returns (lease: Option<(nat, nat)>)
      requires Shaped(View())
      modifies `entries, `heap, `nextHolder
      ensures View() == Acquired(old(View()), key, starts)
      ensures lease.Some? <==> !closed && (key in old(entries) || starts)
      ensures lease.Some? ==> key in entries && entries[key] == lease.value.0 && lease.value.1 == old(nextHolder) && lease.value.0 < |heap|
    {
      if closed {
        return None;
      }
      var holder := nextHolder;
      if key !in entries {
        if !starts {
          return None;
        }
        heap := heap + [Entry(key, 0, false, 0, {})];
        entries := entries[key := |heap| - 1];
      }
      var e := entries[key];
      heap := heap[e := heap[e].(timer := false, leases := heap[e].leases + 1, holders := heap[e].holders + {holder})];
      nextHolder := nextHolder + 1;
      assert {} + {holder} == {holder};
      assert e == |old(heap)| ==> heap == old(heap) + [Entry(key, 1, false, 0, {holder})];
      lease := Some((e, holder));
    }

    method ReleaseServer(e: nat, holder: nat)
      requires e < |heap| && holder in heap[e].holders
      modifies `heap, `timers
      ensures View() == Released(old(View()), e, holder)
    {
      var en := heap[e].(holders := heap[e].holders - {holder});
      if en.key !in entries || entries[en.key] != e || en.leases == 0 {
        heap := heap[e := en];
        return;
      }
      en := en.(leases := en.leases - 1);
      if en.leases == 0 {
        en := en.(timerGeneration := en.timerGeneration + 1);
        en := en.(timer := true);
        timers := timers + {Timer(e, en.timerGeneration)};
      }
      heap := heap[e := en];
    }

    method CloseIdleServer(timer: Timer) returns (closes: bool)
      requires timer in timers
      modifies `entries, `heap, `timers, `shut
      ensures View() == Idled(old(View()), timer)
      ensures closes <==> Expires(old(View()), timer)
    {
      timers := timers - {timer};
      var e := timer.entry;
      if e >= |heap| || heap[e].key !in entries || entries[heap[e].key] != e {
        return false;
      }
      if heap[e].leases != 0 || heap[e].timerGeneration != timer.generation {
        return false;
      }
      entries := entries - {heap[e].key};
      heap := heap[e := heap[e].(timer := false)];
      shut := shut + [e];
      closes := true;
    }
  }
}
