/** The JSON-RPC client (src/internal/lsp/client.go:95-134, 158-196, 226-267):
    callers, the read loop that answers them, and the death of the connection.
    Replies are matched by id (section 5 of the JSON-RPC 2.0 specification). */
module LspClient {
  import opened Options

  /** Waiting in call's select; Done with a result; Gone on a failed write or cancellation. */
  datatype Phase = Waiting | Done | Gone

  /** A call and its one-slot channel, into which `sends` values have been sent. */
  datatype Call = Call(phase: Phase, sends: nat)

  /** The read loop: between messages, holding a channel to send on, failing what
      was pending at death, or finished. */
  datatype Loop = Reading | Delivering(id: int) | Failing(left: set<int>) | Ended

  datatype Client = Client(nextId: int, pending: Option<set<int>>, dead: bool, calls: map<int, Call>, loop: Loop)

  datatype Step =
    | Begin                 // call's first section
    | WriteFails(id: int)   // writeMessage failed; the caller gives up
    | Reply(id: int)        // a response arrived, whatever its id
    | Deliver               // ch <- result
    | Receive(id: int)
    | Cancel(id: int)
    | Die                   // the read loop's last section
    | FailOne(id: int)      // ch <- exitErr, pending calls in map order
    | Finish                // close(done)

  const FRESH := Client(0, Some({}), false, map[], Reading)

  predicate Enabled(c: Client, step: Step) {
    match step
    case Begin => true
    case WriteFails(id) => id in c.calls && c.calls[id].phase == Waiting
    case Reply(_) => c.loop.Reading?
    case Deliver => c.loop.Delivering? && c.loop.id in c.calls
    case Receive(id) => id in c.calls && c.calls[id].phase == Waiting && c.calls[id].sends > 0
    case Cancel(id) => id in c.calls && c.calls[id].phase == Waiting
    case Die => c.loop.Reading?
    case FailOne(id) => c.loop.Failing? && id in c.loop.left && id in c.calls
    case Finish => c.loop.Failing? && c.loop.left == {}
  }

  function Forget(pending: Option<set<int>>, id: int): Option<set<int>> {
    match pending case None => None case Some(ids) => Some(ids - {id})
  }

  function Leave(c: Client, id: int): Client
    requires id in c.calls
  {
    c.(pending := Forget(c.pending, id), calls := c.calls[id := c.calls[id].(phase := Gone)])
  }

  function Send(c: Client, id: int): Client
    requires id in c.calls
  {
    c.(calls := c.calls[id := c.calls[id].(sends := c.calls[id].sends + 1)])
  }

  function Next(c: Client, step: Step): Client
    requires Enabled(c, step)
  {
    match step
    case Begin =>
      if c.dead || c.pending.None? then c
      else
        var id := c.nextId + 1;
        c.(nextId := id, pending := Some(c.pending.value + {id}), calls := c.calls[id := Call(Waiting, 0)])
    case WriteFails(id) => Leave(c, id)
    case Reply(id) =>
      if c.pending.Some? && id in c.pending.value then c.(pending := Forget(c.pending, id), loop := Delivering(id)) else c
    case Deliver => Send(c, c.loop.id).(loop := Reading)
    case Receive(id) => c.(calls := c.calls[id := c.calls[id].(phase := Done)])
    case Cancel(id) => Leave(c, id)
    case Die => c.(dead := true, pending := None, loop := Failing(match c.pending case None => {} case Some(ids) => ids))
    case FailOne(id) => Send(c, id).(loop := Failing(c.loop.left - {id}))
    case Finish => c.(loop := Ended)
  }

  // ---- the invariant ----

  /** The call is still to be sent its one value. */
  predicate Owed(c: Client, id: int) {
    || (c.pending.Some? && id in c.pending.value)
    || c.loop == Delivering(id)
    || (c.loop.Failing? && id in c.loop.left)
  }

  predicate CallOk(c: Client, id: int)
    requires id in c.calls
  {
    && 0 < id <= c.nextId
    && c.calls[id].sends <= 1
    && (Owed(c, id) ==> c.calls[id].sends == 0)
    && (c.calls[id].phase == Waiting && c.calls[id].sends == 0 ==> Owed(c, id))
    && (c.calls[id].phase == Done ==> c.calls[id].sends == 1)
  }

  predicate Inv(c: Client) {
    && c.nextId >= 0
    && (c.dead <==> c.pending.None?)
    && (c.dead <==> c.loop.Failing? || c.loop.Ended?)
    && (c.pending.Some? ==> forall id :: id in c.pending.value ==> id in c.calls)
    && (c.loop.Delivering? ==> c.loop.id in c.calls && c.loop.id !in c.pending.value)
    && (c.loop.Failing? ==> forall id :: id in c.loop.left ==> id in c.calls)
    && (forall id :: id in c.calls ==> CallOk(c, id))
  }

  lemma StepKeepsInv(c: Client, step: Step)
    requires Inv(c) && Enabled(c, step)
    ensures Inv(Next(c, step))
  {
    var c' := Next(c, step);
    forall id | id in c'.calls
      ensures CallOk(c', id)
    {
      assert id in c.calls ==> CallOk(c, id);
    }
  }

  predicate IsRun(run: seq<Client>, steps: seq<Step>) {
    && |run| == |steps| + 1 && run[0] == FRESH
    && forall i :: 0 <= i < |steps| ==> Enabled(run[i], steps[i]) && run[i + 1] == Next(run[i], steps[i])
  }

  lemma {:induction false} RunKeepsInv(run: seq<Client>, steps: seq<Step>, k: nat)
    requires IsRun(run, steps) && k <= |steps|
    ensures Inv(run[k])
  {
    if k == 0 {
    } else {
      RunKeepsInv(run, steps, k - 1);
      StepKeepsInv(run[k - 1], steps[k - 1]);
    }
  }

  predicate Registers(c: Client, step: Step, id: int) {
    step.Begin? && !c.dead && id == c.nextId + 1
  }

  predicate Grows(c: Client, c': Client) {
    && c.nextId <= c'.nextId && (c.dead ==> c'.dead) && c.calls.Keys <= c'.calls.Keys
    && (forall id :: id in c.calls && id in c'.calls ==> c.calls[id].sends <= c'.calls[id].sends)
  }

  lemma StepGrows(c: Client, step: Step)
    requires Inv(c) && Enabled(c, step)
    ensures Grows(c, Next(c, step))
  {
    assert forall id :: id in c.calls ==> CallOk(c, id);
  }

  lemma {:induction false} IdsGrow(run: seq<Client>, steps: seq<Step>, j: nat, k: nat)
    requires IsRun(run, steps) && j <= k <= |steps|
    ensures Grows(run[j], run[k])
  {
    hide Next, Enabled, Inv;
    if j < k {
      IdsGrow(run, steps, j, k - 1);
      RunKeepsInv(run, steps, k - 1);
      StepGrows(run[k - 1], steps[k - 1]);
    }
  }

  /** Request ids are never reused, and none is given out on a dead connection. */
  lemma IdsNeverReused(run: seq<Client>, steps: seq<Step>, j: nat, k: nat, id: int)
    requires IsRun(run, steps) && j < k < |steps| && Registers(run[j], steps[j], id)
    ensures !Registers(run[k], steps[k], id)
    ensures id !in run[j].calls && !run[j].dead
  {
    RunKeepsInv(run, steps, j);
    assert forall x :: x in run[j].calls ==> CallOk(run[j], x);
    IdsGrow(run, steps, j + 1, k);
  }

  predicate SendsTo(c: Client, step: Step, id: int) {
    Enabled(c, step) && ((step.Deliver? && c.loop.id == id) || step == FailOne(id))
  }

  /** Whenever the read loop sends on a channel, its one slot is empty and stays used
      by that value alone: the loop never blocks, and no call is answered twice. */
  lemma SendNeverBlocks(run: seq<Client>, steps: seq<Step>, k: nat, id: int)
    requires IsRun(run, steps) && k < |steps| && SendsTo(run[k], steps[k], id)
    ensures id in run[k].calls && run[k].calls[id].sends == 0
    ensures forall m :: k < m < |steps| ==> !SendsTo(run[m], steps[m], id)
  {
    RunKeepsInv(run, steps, k);
    assert CallOk(run[k], id);
    forall m | k < m < |steps|
      ensures !SendsTo(run[m], steps[m], id)
    {
      IdsGrow(run, steps, k + 1, m);
      RunKeepsInv(run, steps, m);
      assert CallOk(run[m], id);
    }
  }

  /** When the read loop has ended, every call still waiting has its one result to
      receive, and every call that was pending at death was failed exactly once. */
  lemma NobodyLeftWaiting(run: seq<Client>, steps: seq<Step>, d: nat, k: nat, id: int)
    requires IsRun(run, steps) && d < k <= |steps| && steps[d] == Die && run[k].loop.Ended?
    ensures id in run[k].calls && run[k].calls[id].phase == Waiting ==> run[k].calls[id].sends == 1
    ensures run[d].pending.Some? && id in run[d].pending.value ==>
      id in run[k].calls && run[k].calls[id].sends == 1 && exists m :: d < m < k && steps[m] == FailOne(id)
    ensures forall m :: d < m < |steps| ==> !Registers(run[m], steps[m], id)
  {
    RunKeepsInv(run, steps, k);
    if id in run[k].calls {
      assert CallOk(run[k], id);
    }
    if run[d].pending.Some? && id in run[d].pending.value {
      var m := FailedBy(run, steps, d, k, id);
      IdsGrow(run, steps, m + 1, k);
      assert CallOk(run[k], id);
    }
    forall m | d < m < |steps|
      ensures !Registers(run[m], steps[m], id)
    {
      IdsGrow(run, steps, d + 1, m);
    }
  }

  lemma {:induction false} FailedBy(run: seq<Client>, steps: seq<Step>, d: nat, k: nat, id: int) returns (m: nat)
    requires IsRun(run, steps) && d < k <= |steps| && steps[d] == Die && run[d].pending.Some? && id in run[d].pending.value
    requires !(run[k].loop.Failing? && id in run[k].loop.left)
    ensures d < m < k && steps[m] == FailOne(id) && id in run[m + 1].calls && run[m + 1].calls[id].sends == 1
  {
    if run[k - 1].loop.Failing? && id in run[k - 1].loop.left {
      m := k - 1;
      RunKeepsInv(run, steps, m);
      RunKeepsInv(run, steps, d);
    } else {
      m := FailedBy(run, steps, d, k - 1, id);
    }
  }

  /** A reply whose id nobody waits for changes nothing. */
  lemma UnknownReplyIsDropped(c: Client, id: int)
    requires Enabled(c, Reply(id)) && !(c.pending.Some? && id in c.pending.value)
    ensures Next(c, Reply(id)) == c
  {
  }

  /** While the loop holds a channel it does nothing else, and sends to no other call. */
  predicate HoldsFor(c: Client, id: int) {
    c.loop == Delivering(id) && id in c.calls && c.calls[id].sends == 0 && (c.pending.Some? ==> id !in c.pending.value)
  }

  lemma {:induction false} LoopHolds(run: seq<Client>, steps: seq<Step>, k: nat, m: nat, id: int)
    requires IsRun(run, steps) && k < m <= |steps| && steps[k] == Reply(id) && run[k].pending.Some? && id in run[k].pending.value
    requires forall i :: k < i < m ==> steps[i] != Deliver
    ensures HoldsFor(run[m], id)
  {
    RunKeepsInv(run, steps, k);
    assert CallOk(run[k], id);
    if m == k + 1 {
    } else {
      LoopHolds(run, steps, k, m - 1, id);
      RunKeepsInv(run, steps, m - 1);
    }
  }

  /** A reply to a pending call reaches it: the loop's next send is to that call and
      changes no other, the call then has its one value to receive if it still waits,
      and it is never failed. */
  lemma ReplyReachesCall(run: seq<Client>, steps: seq<Step>, k: nat, m: nat, id: int)
    requires IsRun(run, steps) && k < m < |steps| && steps[k] == Reply(id) && run[k].pending.Some? && id in run[k].pending.value
    requires steps[m] == Deliver && forall i :: k < i < m ==> steps[i] != Deliver
    ensures run[k + 1].loop == Delivering(id) && run[m].loop == Delivering(id)
    ensures id in run[m].calls && run[m].calls[id].sends == 0 && id in run[m + 1].calls && run[m + 1].calls[id].sends == 1
    ensures run[m + 1].calls[id].phase == Waiting ==> Enabled(run[m + 1], Receive(id))
    ensures forall other :: other in run[m].calls && other != id ==> other in run[m + 1].calls && run[m + 1].calls[other] == run[m].calls[other]
    ensures forall n :: 0 <= n < |steps| ==> steps[n] != FailOne(id)
  {
    LoopHolds(run, steps, k, k + 1, id);
    LoopHolds(run, steps, k, m, id);
    forall n | 0 <= n < |steps|
      ensures steps[n] != FailOne(id)
    {
      if steps[n] == FailOne(id) {
        NotFailed(run, steps, m, n, id);
      }
    }
  }

  lemma NotFailed(run: seq<Client>, steps: seq<Step>, m: nat, n: nat, id: int)
    requires IsRun(run, steps) && m < |steps| && n < |steps| && SendsTo(run[m], steps[m], id) && steps[m] == Deliver
    ensures steps[n] != FailOne(id)
  {
    if steps[n] == FailOne(id) {
      if n < m {
        SendNeverBlocks(run, steps, n, id);
      } else {
        SendNeverBlocks(run, steps, m, id);
      }
    }
  }

  /** The caller's side: a result received is the call's end, and a call given up is
      forgotten; no other call is touched. */
  lemma CallEnds(c: Client, step: Step, id: int)
    requires Inv(c) && Enabled(c, step) && (step == Receive(id) || step == Cancel(id) || step == WriteFails(id))
    ensures var c' := Next(c, step);
      && c'.calls == c.calls[id := Call(if step == Receive(id) then Done else Gone, c.calls[id].sends)]
      && (if step == Receive(id) then c'.pending == c.pending
          else c'.pending == if c.pending.Some? then Some(c.pending.value - {id}) else None)
      && c'.nextId == c.nextId && c'.dead == c.dead && c'.loop == c.loop
  {
  }

  /** Death fails exactly what was pending, each once, and then the loop ends. */
  lemma DeathFailsPending(c: Client, step: Step)
    requires Inv(c) && Enabled(c, step)
    ensures step == Die ==>
      var c' := Next(c, step);
      c'.dead && c'.pending.None? && c'.calls == c.calls && c'.loop == Failing(if c.pending.Some? then c.pending.value else {})
    ensures step.FailOne? ==>
      var c', id := Next(c, step), step.id;
      c'.loop == Failing(c.loop.left - {id}) && c'.calls == c.calls[id := c.calls[id].(sends := 1)] && c'.dead == c.dead && c'.pending == c.pending
    ensures step == Finish ==> Next(c, step) == c.(loop := Ended)
  {
    if step.FailOne? {
      assert CallOk(c, step.id);
    }
  }

  /** Each call in `failed` was sent one value more, and nothing else changed. */
  predicate FailedOnce(before: map<int, Call>, after: map<int, Call>, failed: set<int>) {
    && before.Keys == after.Keys
    && (forall id :: id in before ==> after[id] == before[id].(sends := before[id].sends + (if id in failed then 1 else 0)))
  }

  method AnyOf<T>(ids: set<T>) returns (id: T)
    requires ids != {}
    ensures id in ids
  {
    id :| id in ids;
  }

  // ---- the object ----

  class Connection {
    var nextId: int
    var pending: Option<set<int>>
    var dead: bool
    var calls: map<int, Call>
    var loop: Loop

    function View(): Client
      reads this
    {
      Client(nextId, pending, dead, calls, loop)
    }

    constructor ()
      ensures View() == FRESH && Inv(View())
    {
      nextId, pending, dead, calls, loop := 0, Some({}), false, map[], Reading;
    }

    /** call's first section; None is exitErr. */
    method BeginCall() returns (id: Option<int>)
      requires Inv(View())
      modifies this
      ensures View() == Next(old(View()), Begin) && Inv(View())
      ensures id.Some? <==> !dead
      ensures id.Some? ==> id.value !in old(calls) && calls == old(calls)[id.value := Call(Waiting, 0)]
      ensures id.Some? ==> old(pending).Some? && pending == Some(old(pending).value + {id.value})
      ensures id.None? ==> View() == old(View())
    {
      StepKeepsInv(View(), Begin);
      if dead {
        return None;
      }
      assert forall x :: x in calls ==> CallOk(View(), x);
      nextId := nextId + 1;
      pending := Some(pending.value + {nextId});
      calls := calls[nextId := Call(Waiting, 0)];
      id := Some(nextId);
    }

    /** handleMessage for a response: the channel to send on, if anybody still waits. */
    method TakePending(id: int) returns (found: bool)
      requires Inv(View()) && loop.Reading?
      modifies this
      ensures View() == Next(old(View()), Reply(id)) && Inv(View())
      ensures found <==> old(pending).Some? && id in old(pending).value
      ensures found ==> id in calls && calls[id].sends == 0 && loop == Delivering(id)
      ensures found ==> calls == old(calls) && pending == Some(old(pending).value - {id})
      ensures !found ==> View() == old(View())
    {
      StepKeepsInv(View(), Reply(id));
      found := pending.Some? && id in pending.value;
      if found {
        assert CallOk(View(), id);
        pending := Some(pending.value - {id});
        loop := Delivering(id);
      }
    }

    /** The end of call on cancellation or a failed write. */
    method GiveUp(id: int)
      requires Inv(View()) && id in calls && calls[id].phase == Waiting
      modifies this
      ensures View() == Next(old(View()), Cancel(id)) && Inv(View())
      ensures pending == if old(pending).Some? then Some(old(pending).value - {id}) else None
      ensures calls == old(calls)[id := old(calls)[id].(phase := Gone)] && loop == old(loop)
    {
      StepKeepsInv(View(), Cancel(id));
      if pending.Some? {
        pending := Some(pending.value - {id});
      }
      calls := calls[id := calls[id].(phase := Gone)];
    }

    /** The read loop once reading has failed: everything pending is failed, once each. */
    method FailPending()
      requires Inv(View()) && loop.Reading?
      modifies this
      ensures Inv(View()) && dead && pending.None? && loop.Ended? && nextId == old(nextId)
      ensures FailedOnce(old(calls), calls, if old(pending).Some? then old(pending).value else {})
    {
      ghost var start := View();
      StepKeepsInv(View(), Die);
      dead := true;
      var taken := match pending { case None => {} case Some(ids) => ids };
      pending := None;
      loop := Failing(taken);
      var left := taken;
      while left != {}
        invariant Inv(View()) && dead && pending.None? && loop.Failing? && nextId == start.nextId
        invariant left == loop.left && left <= taken && FailedOnce(start.calls, calls, taken - left)
        decreases |left|
      {
        var id := AnyOf(left);
        StepKeepsInv(View(), FailOne(id));
        calls := calls[id := calls[id].(sends := calls[id].sends + 1)];
        left := left - {id};
        loop := Failing(left);
      }
      StepKeepsInv(View(), Finish);
      loop := Ended;
    }
  }
}
