/** The shared embedder (src/cmd/ragrep/resource_pool.go:22-122): one Embed at a
    time under `mu`, fields under `stateMu`, and a Close that may come in between. */
module EmbeddingPool {
  import opened Options
  import opened Sequences

  /** Who has `mu`, and how far that call has come. */
  datatype Holder = Free | Locked | Embedding(id: nat) | Closing(id: nat) | Unlocking

  datatype Pool = Pool(
    closed: bool, active: bool, embedder: Option<nat>,
    made: nat,               // embedders constructed so far
    holder: Holder,
    taken: set<nat>,         // embedders Close took and has still to close
    shut: seq<nat>)          // embedder.Close calls, in order

  datatype Step =
    | Lock
    | Start(constructs: bool)  // the section that constructs on first use
    | Finish                   // the section after embedder.Embed returns
    | CloseHeld                // embedder.Close by the embedding goroutine
    | Unlock
    | ClosePool                // Close's section
    | CloseTaken(id: nat)      // embedder.Close by Close

  const EMPTY := Pool(false, false, None, 0, Free, {}, [])

  predicate Enabled(p: Pool, step: Step) {
    match step
    case Lock => p.holder.Free?
    case Start(_) => p.holder.Locked?
    case Finish => p.holder.Embedding?
    case CloseHeld => p.holder.Closing?
    case Unlock => p.holder.Unlocking?
    case ClosePool => true
    case CloseTaken(id) => id in p.taken
  }

  function Next(p: Pool, step: Step): Pool
    requires Enabled(p, step)
  {
    match step
    case Lock => p.(holder := Locked)
    case Start(constructs) =>
      if p.closed || (p.embedder.None? && !constructs) then p.(holder := Unlocking)
      else if p.embedder.None? then p.(embedder := Some(p.made), made := p.made + 1, active := true, holder := Embedding(p.made))
      else p.(active := true, holder := Embedding(p.embedder.value))
    case Finish =>
      if p.closed && p.embedder == Some(p.holder.id) then p.(active := false, embedder := None, holder := Closing(p.holder.id))
      else p.(active := false, holder := Unlocking)
    case CloseHeld => p.(shut := p.shut + [p.holder.id], holder := Unlocking)
    case Unlock => p.(holder := Free)
    case ClosePool =>
      if p.closed then p
      else if p.active || p.embedder.None? then p.(closed := true, embedder := if p.active then p.embedder else None)
      else p.(closed := true, embedder := None, taken := p.taken + {p.embedder.value})
    case CloseTaken(id) => p.(taken := p.taken - {id}, shut := p.shut + [id])
  }

  predicate OnItsWay(p: Pool, id: nat) {
    id in p.taken || p.holder == Closing(id)
  }

  /** Every embedder made is in the pool, on its way to be closed, or closed. */
  predicate Placed(p: Pool, id: nat) {
    && (p.embedder == Some(id) || OnItsWay(p, id) || id in p.shut)
    && !(p.embedder == Some(id) && OnItsWay(p, id)) && !(p.embedder == Some(id) && id in p.shut)
    && !(OnItsWay(p, id) && id in p.shut) && !(id in p.taken && p.holder == Closing(id))
  }

  predicate Inv(p: Pool) {
    && (forall id :: 0 <= id < p.made ==> Placed(p, id))
    && (p.embedder.Some? ==> p.embedder.value < p.made)
    && (forall id :: id in p.taken ==> id < p.made)
    && (forall id :: id in p.shut ==> id < p.made)
    && (p.holder.Closing? ==> p.holder.id < p.made)
    && Distinct(p.shut)
    && (p.active <==> p.holder.Embedding?)
    && (p.holder.Embedding? ==> p.embedder == Some(p.holder.id))
    && (p.closed && p.embedder.Some? ==> p.active)
    && (!p.closed && p.embedder.None? ==> p.made == 0)
    && p.made <= 1
  }

  lemma StepKeepsInv(p: Pool, step: Step)
    requires Inv(p) && Enabled(p, step)
    ensures Inv(Next(p, step))
  {
    var p' := Next(p, step);
    match step {
      case CloseHeld => assert Placed(p, p.holder.id);
      case CloseTaken(id) => assert Placed(p, id);
      case _ =>
    }
    forall id | 0 <= id < p'.made
      ensures Placed(p', id)
    {
      assert id < p.made ==> Placed(p, id);
    }
  }

  predicate IsRun(run: seq<Pool>, steps: seq<Step>) {
    && |run| == |steps| + 1 && run[0] == EMPTY
    && forall i :: 0 <= i < |steps| ==> Enabled(run[i], steps[i]) && run[i + 1] == Next(run[i], steps[i])
  }

  lemma {:induction false} RunKeepsInv(run: seq<Pool>, steps: seq<Step>, k: nat)
    requires IsRun(run, steps) && k <= |steps|
    ensures Inv(run[k])
  {
    if k == 0 {
    } else {
      RunKeepsInv(run, steps, k - 1);
      StepKeepsInv(run[k - 1], steps[k - 1]);
    }
  }

  predicate Closes(p: Pool, step: Step, id: nat)
    requires Enabled(p, step)
  {
    (step.CloseHeld? && p.holder.id == id) || step == CloseTaken(id)
  }

  /** An embedder is never closed during its own Embed, nor twice, nor used again. */
  lemma ClosedOutsideEmbed(run: seq<Pool>, steps: seq<Step>, k: nat, id: nat)
    requires IsRun(run, steps) && k < |steps| && Closes(run[k], steps[k], id)
    ensures run[k].holder != Embedding(id) && id !in run[k].shut
    ensures forall m :: k < m <= |steps| ==> run[m].holder != Embedding(id)
  {
    RunKeepsInv(run, steps, k);
    assert Placed(run[k], id);
    forall m | k < m <= |steps|
      ensures run[m].holder != Embedding(id)
    {
      ShutStays(run, steps, k + 1, m, id);
      RunKeepsInv(run, steps, m);
      assert Placed(run[m], id);
    }
  }

  lemma {:induction false} ShutStays(run: seq<Pool>, steps: seq<Step>, j: nat, k: nat, id: nat)
    requires IsRun(run, steps) && j <= k <= |steps| && id in run[j].shut
    ensures id in run[k].shut && id < run[k].made
  {
    if j < k {
      ShutStays(run, steps, j, k - 1, id);
    } else {
      RunKeepsInv(run, steps, j);
    }
  }

  /** Once closed and quiet, the pool has closed whatever it made, and that at most once. */
  lemma NothingStaysOpen(run: seq<Pool>, steps: seq<Step>, k: nat)
    requires IsRun(run, steps) && k <= |steps| && run[k].closed && run[k].holder.Free? && run[k].taken == {}
    ensures forall id :: 0 <= id < run[k].made ==> id in run[k].shut
    ensures Distinct(run[k].shut) && run[k].made <= 1
  {
    RunKeepsInv(run, steps, k);
    forall id | 0 <= id < run[k].made
      ensures id in run[k].shut
    {
      assert Placed(run[k], id);
    }
  }

  // ---- what each section does ----

  /** Embed runs an embedder exactly when the pool is open and has one or makes one;
      it has `mu` from its lock to its unlock. */
  lemma EmbedStartsIff(p: Pool, constructs: bool)
    requires Inv(p) && p.holder.Locked?
    ensures var p' := Next(p, Start(constructs));
      if !p.closed && (p.embedder.Some? || constructs)
      then p'.embedder.Some? && p'.holder == Embedding(p'.embedder.value) && p'.active && !p'.closed && p'.embedder.value !in p'.shut
        && (p.embedder.Some? ==> p'.embedder == p.embedder && p'.made == p.made)
        && (p.embedder.None? ==> p'.embedder == Some(p.made) && p'.made == p.made + 1) && p'.shut == p.shut && p'.taken == p.taken
      else p' == p.(holder := Unlocking)
  {
    StepKeepsInv(p, Start(constructs));
    var p' := Next(p, Start(constructs));
    if p'.embedder.Some? {
      assert Placed(p', p'.embedder.value);
    }
  }

  /** The embedder is closed by the goroutine that used it exactly when Close came
      meanwhile, and by Close itself exactly when it found it idle. */
  lemma WhoCloses(p: Pool)
    requires Inv(p)
    ensures p.holder.Embedding? ==>
      var p' := Next(p, Finish);
      !p'.active && if p.closed then p'.holder == Closing(p.holder.id) && p'.embedder.None? else p'.holder == Unlocking && p'.embedder == p.embedder
    ensures
      var p' := Next(p, ClosePool);
      p'.closed && p'.holder == p.holder && p'.shut == p.shut &&
      if !p.closed && !p.active && p.embedder.Some? then p'.taken == p.taken + {p.embedder.value} && p'.embedder.None?
      else p'.taken == p.taken && p'.embedder == p.embedder
    ensures p.holder.Closing? ==> Next(p, CloseHeld).shut == p.shut + [p.holder.id] && Next(p, CloseHeld).holder == Unlocking
    ensures forall id :: id in p.taken ==> Next(p, CloseTaken(id)).shut == p.shut + [id] && Next(p, CloseTaken(id)).taken == p.taken - {id}
  {
  }

  /** `mu` is had by one call at a time, and given back. */
  lemma LockAndUnlock(p: Pool)
    ensures p.holder.Free? ==> Next(p, Lock) == p.(holder := Locked)
    ensures p.holder.Unlocking? ==> Next(p, Unlock) == p.(holder := Free)
  {
  }

  // ---- the object ----

  class EmbedderPool {
    var closed: bool
    var active: bool
    var embedder: Option<nat>
    var made: nat
    var holder: Holder
    var taken: set<nat>
    var shut: seq<nat>

    function View(): Pool
      reads this
    {
      Pool(closed, active, embedder, made, holder, taken, shut)
    }

    constructor ()
      ensures View() == EMPTY && Inv(View())
    {
      closed, active, embedder, made, holder, taken, shut := false, false, None, 0, Free, {}, [];
    }

    /** Embed up to its call of the embedder; None is one of its errors. */
    method BeginEmbed(constructs: bool) returns (id: Option<nat>)
      requires Inv(View()) && holder.Locked?
      modifies this
      ensures View() == Next(old(View()), Start(constructs)) && Inv(View())
      ensures id.Some? <==> active
      ensures id.Some? ==> id == embedder && holder == Embedding(id.value) && id.value !in shut && !closed
    {
      StepKeepsInv(View(), Start(constructs));
      ghost var before := View();
      if closed {
        holder := Unlocking;
        return None;
      }
      if embedder.None? {
        if !constructs {
          holder := Unlocking;
          return None;
        }
        embedder := Some(made);
        made := made + 1;
      }
      active := true;
      holder := Embedding(embedder.value);
      id := embedder;
      assert Placed(View(), embedder.value);
    }

    /** The goroutine after its embedding: true when it is the one to close. */
    method EndEmbed() returns (closeEmbedder: bool)
      requires Inv(View()) && holder.Embedding?
      modifies this
      ensures View() == Next(old(View()), Finish) && Inv(View())
      ensures closeEmbedder <==> closed
    {
      StepKeepsInv(View(), Finish);
      active := false;
      closeEmbedder := closed && embedder == Some(holder.id);
      if closeEmbedder {
        embedder := None;
        holder := Closing(holder.id);
      } else {
        holder := Unlocking;
      }
    }

    method Close()
      requires Inv(View())
      modifies this
      ensures View() == Next(old(View()), ClosePool) && Inv(View()) && closed
      ensures old(active) ==> embedder == old(embedder)
    {
      StepKeepsInv(View(), ClosePool);
      if closed {
        return;
      }
      closed := true;
      if active {
        return;
      }
      var e := embedder;
      embedder := None;
      if e.Some? {
        taken := taken + {e.value};
      }
    }
  }
}
