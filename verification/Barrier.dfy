/** The full-refresh barrier (src/cmd/ragrep/workspace.go:152-223, 445-450):
    searches wait on a shared full refresh; watcher errors demand a new one.
    Each section under `mu` is one step. */
module Barrier {
  import opened Options

  /** A workspaceRefresh.  Its position in the sequence of refreshes is its identity. */
  datatype Refresh = Refresh(epoch: nat, done: bool, failed: bool, generation: nat)

  datatype Gate = Gate(
    closed: bool,
    current: Option<nat>,
    refreshes: seq<Refresh>,
    required: bool,
    epoch: nat,
    generation: nat)

  datatype Step =
    | Enter                            // Barrier's first section
    | Finish(id: nat, failed: bool)    // the end of runFullRefresh
    | Require                          // requireFullRefresh
    | Check(id: nat)                   // Barrier's second section, after `done`
    | Advance                          // setGeneration
    | Shut                             // Close

  function Start(generation: nat): Gate {
    Gate(false, None, [], false, 0, generation)
  }

  predicate Enabled(g: Gate, step: Step) {
    match step
    case Finish(id, _) => id < |g.refreshes| && !g.refreshes[id].done
    case Check(id) => id < |g.refreshes| && g.refreshes[id].done
    case _ => true
  }

  function Apply(g: Gate, step: Step): Gate
    requires Enabled(g, step)
  {
    match step
    case Enter => Entered(g)
    case Finish(id, failed) => Finished(g, id, failed)
    case Require => g.(required := true, epoch := g.epoch + 1)
    case Check(_) => g
    case Advance => g.(generation := g.generation + 1)
    case Shut => g.(closed := true)
  }

  function Entered(g: Gate): Gate {
    if g.closed || g.current.Some? then g
    else g.(current := Some(|g.refreshes|), refreshes := g.refreshes + [Refresh(g.epoch, false, false, 0)])
  }

  function Finished(g: Gate, id: nat, failed: bool): Gate
    requires id < |g.refreshes|
  {
    var r := g.refreshes[id].(done := true, failed := failed, generation := g.generation);
    g.(refreshes := g.refreshes[id := r],
       required := if !failed && g.epoch == r.epoch then false else g.required,
       current := if g.current == Some(id) then None else g.current)
  }

  /** Barrier returns without error on refresh `id`. */
  predicate Accepts(g: Gate, id: nat) {
    id < |g.refreshes| && g.refreshes[id].done && !g.refreshes[id].failed && g.refreshes[id].epoch == g.epoch
  }

  /** The latest epoch a full refresh has completed cleanly for; 0 before any. */
  function LastClean(refreshes: seq<Refresh>): nat {
    if refreshes == [] then 0
    else
      var before := LastClean(refreshes[..|refreshes| - 1]);
      var last := refreshes[|refreshes| - 1];
      if last.done && !last.failed && last.epoch > before then last.epoch else before
  }

  predicate Bounded(refreshes: seq<Refresh>, epoch: nat) {
    forall i :: 0 <= i < |refreshes| ==> refreshes[i].epoch <= epoch
  }

  /** Refreshes are single-flight, and the flag says exactly whether one is owed. */
  ghost predicate Inv(g: Gate) {
    && Bounded(g.refreshes, g.epoch)
    && (forall i :: 0 <= i < |g.refreshes| && !g.refreshes[i].done ==> g.current == Some(i))
    && (g.current.Some? ==> |g.refreshes| > 0 && g.current.value == |g.refreshes| - 1 && !g.refreshes[g.current.value].done)
    && (g.required <==> g.epoch > LastClean(g.refreshes))
  }

  lemma {:induction false} LastCleanBounded(refreshes: seq<Refresh>, epoch: nat)
    requires Bounded(refreshes, epoch)
    ensures LastClean(refreshes) <= epoch
  {
    if refreshes == [] {
    } else {
      LastCleanBounded(refreshes[..|refreshes| - 1], epoch);
    }
  }

  lemma StepKeepsInv(g: Gate, step: Step)
    requires Inv(g) && Enabled(g, step)
    ensures Inv(Apply(g, step))
  {
    LastCleanBounded(g.refreshes, g.epoch);
    match step {
      case Enter =>
        if !g.closed && g.current.None? {
          var grown := Entered(g).refreshes;
          assert grown[..|grown| - 1] == g.refreshes;
        }
      case Finish(id, failed) =>
      case _ =>
    }
  }

  ghost predicate IsRun(run: seq<Gate>, steps: seq<Step>) {
    && |run| == |steps| + 1
    && run[0] == Start(run[0].generation)
    && forall i :: 0 <= i < |steps| ==> Enabled(run[i], steps[i]) && run[i + 1] == Apply(run[i], steps[i])
  }

  /** Over every run, a full refresh is required exactly when the epoch is past the
      last cleanly refreshed one, and at most one refresh is in flight. */
  lemma {:induction false} RequiredIffStale(run: seq<Gate>, steps: seq<Step>, k: nat)
    requires IsRun(run, steps) && k <= |steps|
    ensures Inv(run[k])
    ensures run[k].required <==> run[k].epoch > LastClean(run[k].refreshes)
  {
    if k == 0 {
    } else {
      RequiredIffStale(run, steps, k - 1);
      StepKeepsInv(run[k - 1], steps[k - 1]);
    }
  }

  predicate Creates(g: Gate, step: Step, id: nat) {
    step.Enter? && !g.closed && g.current.None? && |g.refreshes| == id
  }

  /** Every refresh was created by exactly one Barrier call, which fixed its epoch. */
  lemma {:induction false} CreationOf(run: seq<Gate>, steps: seq<Step>, k: nat, id: nat) returns (c: nat)
    requires IsRun(run, steps) && k <= |steps| && id < |run[k].refreshes|
    ensures c < k && Creates(run[c], steps[c], id)
    ensures run[k].refreshes[id].epoch == run[c].epoch
  {
    if id < |run[k - 1].refreshes| {
      c := CreationOf(run, steps, k - 1, id);
    } else {
      c := k - 1;
    }
  }

  lemma {:induction false} CompletionOf(run: seq<Gate>, steps: seq<Step>, k: nat, id: nat) returns (f: nat)
    requires IsRun(run, steps) && k <= |steps| && id < |run[k].refreshes| && run[k].refreshes[id].done
    ensures f < k && id < |run[f].refreshes| && steps[f] == Finish(id, run[k].refreshes[id].failed)
    ensures run[k].refreshes[id].generation == run[f].generation
  {
    if id < |run[k - 1].refreshes| && run[k - 1].refreshes[id].done {
      f := CompletionOf(run, steps, k - 1, id);
    } else {
      f := k - 1;
    }
  }

  predicate NoRequire(steps: seq<Step>, from: nat, to: nat)
    requires to <= |steps|
  {
    forall j :: from <= j < to ==> !steps[j].Require?
  }

  lemma {:induction false} Progress(run: seq<Gate>, steps: seq<Step>, i: nat, j: nat)
    requires IsRun(run, steps) && i <= j <= |steps|
    ensures run[i].epoch <= run[j].epoch && run[i].generation <= run[j].generation
    ensures |run[i].refreshes| <= |run[j].refreshes|
    ensures run[i].epoch == run[j].epoch <==> NoRequire(steps, i, j)
  {
    if i < j {
      Progress(run, steps, i, j - 1);
      assert NoRequire(steps, i, j) <==> NoRequire(steps, i, j - 1) && !steps[j - 1].Require?;
    }
  }

  /** What a successful Barrier means: the refresh it waited on was created after the
      last requirement, ran to a clean end, and leaves nothing required.  The
      generation it reports lies between the one at its creation and the present. */
  lemma BarrierMeansRefreshed(run: seq<Gate>, steps: seq<Step>, k: nat, id: nat) returns (c: nat, f: nat)
    requires IsRun(run, steps) && k <= |steps| && Accepts(run[k], id)
    ensures c < f < k
    ensures Creates(run[c], steps[c], id) && steps[f] == Finish(id, false)
    ensures NoRequire(steps, c, k)
    ensures !run[k].required
    ensures run[c].generation <= run[k].refreshes[id].generation <= run[k].generation
  {
    RequiredIffStale(run, steps, k);
    c := CreationOf(run, steps, k, id);
    f := CompletionOf(run, steps, k, id);
    Progress(run, steps, c, k);
    if f <= c {
      Progress(run, steps, f, c);
      assert false;
    }
    Progress(run, steps, c, f);
    Progress(run, steps, f, k);
    CleanEpochCounts(run[k].refreshes, id);
  }

  lemma {:induction false} CleanEpochCounts(refreshes: seq<Refresh>, id: nat)
    requires id < |refreshes| && refreshes[id].done && !refreshes[id].failed
    ensures refreshes[id].epoch <= LastClean(refreshes)
  {
    if id < |refreshes| - 1 {
      CleanEpochCounts(refreshes[..|refreshes| - 1], id);
    }
  }

  /** Conversely, a cleanly finished refresh is refused only because of a requirement
      raised since its creation. */
  lemma AcceptedIffNothingRequiredSince(run: seq<Gate>, steps: seq<Step>, c: nat, k: nat, id: nat)
    requires IsRun(run, steps) && c < k <= |steps|
    requires Creates(run[c], steps[c], id)
    requires id < |run[k].refreshes| && run[k].refreshes[id].done && !run[k].refreshes[id].failed
    ensures Accepts(run[k], id) <==> NoRequire(steps, c, k)
  {
    var c' := CreationOf(run, steps, k, id);
    CreatedOnce(run, steps, c, c', id);
    Progress(run, steps, c, k);
  }

  lemma CreatedOnce(run: seq<Gate>, steps: seq<Step>, c: nat, c': nat, id: nat)
    requires IsRun(run, steps) && c < |steps| && c' < |steps|
    requires Creates(run[c], steps[c], id) && Creates(run[c'], steps[c'], id)
    ensures c == c'
  {
    if c < c' {
      Progress(run, steps, c + 1, c');
    } else if c' < c {
      Progress(run, steps, c' + 1, c);
    }
  }

  // ---- the object ----

  datatype Verdict = Return(generation: nat, failed: bool) | Again

  // ---- what each section does ----

  /** Barrier joins the refresh in flight, or starts one at the current epoch; closed,
      it does nothing. */
  lemma EnterJoinsOrStarts(g: Gate)
    requires Inv(g)
    ensures var g' := Apply(g, Enter);
      if g.closed || g.current.Some? then g' == g else
        && g'.current == Some(|g.refreshes|) && |g'.refreshes| == |g.refreshes| + 1 && g'.refreshes[..|g.refreshes|] == g.refreshes
        && g'.refreshes[|g.refreshes|].epoch == g.epoch && !g'.refreshes[|g.refreshes|].done
        && g'.epoch == g.epoch && g'.required == g.required && g'.generation == g.generation
  {
  }

  /** A refresh ends with its outcome and the generation it reached, and frees its place;
      only a clean one of the current epoch clears the flag. */
  lemma FinishSettles(g: Gate, id: nat, failed: bool)
    requires Inv(g) && Enabled(g, Finish(id, failed))
    ensures var g' := Apply(g, Finish(id, failed));
      && g'.current.None? && |g'.refreshes| == |g.refreshes| && (forall i :: 0 <= i < |g.refreshes| && i != id ==> g'.refreshes[i] == g.refreshes[i])
      && g'.refreshes[id] == Refresh(g.refreshes[id].epoch, true, failed, g.generation)
      && (g'.required <==> g.required && (failed || g.epoch != g.refreshes[id].epoch))
      && g'.epoch == g.epoch && g'.generation == g.generation && g'.closed == g.closed
  {
  }

  /** Requiring a refresh makes every earlier one unacceptable; a write moves the
      generation by one; Close is for good. */
  lemma OtherSections(g: Gate, step: Step)
    requires Inv(g) && Enabled(g, step)
    ensures step == Require ==>
      var g' := Apply(g, step);
      g'.required && g'.epoch == g.epoch + 1 && g'.refreshes == g.refreshes && g'.current == g.current && forall id :: !Accepts(g', id)
    ensures step == Advance ==> Apply(g, step) == g.(generation := g.generation + 1)
    ensures step == Shut ==> Apply(g, step) == g.(closed := true)
    ensures g.closed ==> Apply(g, step).closed && |Apply(g, step).refreshes| == |g.refreshes|
  {
  }

  class RefreshGate {
    var closed: bool
    var refresh: Option<nat>
    var refreshes: seq<Refresh>
    var fullRefreshRequired: bool
    var fullRefreshEpoch: nat
    var generation: nat

    ghost function View(): Gate
      reads this
    {
      Gate(closed, refresh, refreshes, fullRefreshRequired, fullRefreshEpoch, generation)
    }

    constructor (g: nat)
      ensures View() == Start(g)
    {
      closed, refresh, refreshes := false, None, [];
      fullRefreshRequired, fullRefreshEpoch, generation := false, 0, g;
    }

    /** Barrier up to its wait: joins the refresh in flight or starts one; None is
        ErrWorkspaceSyncing. */
    method EnterBarrier() returns (id: Option<nat>)
      requires Inv(View())
      modifies this
      ensures View() == Apply(old(View()), Enter) && Inv(View())
      ensures id.None? <==> closed
      ensures id.Some? ==> id == refresh && id.value < |refreshes| && !refreshes[id.value].done
      ensures id.Some? && old(refresh).Some? ==> id == old(refresh)
    {
      StepKeepsInv(View(), Enter);
      if closed {
        return None;
      }
      if refresh.None? {
        refresh := Some(|refreshes|);
        refreshes := refreshes + [Refresh(fullRefreshEpoch, false, false, 0)];
      }
      id := refresh;
    }

    /** Barrier after its wait. */
    method CheckBarrier(id: nat) returns (verdict: Verdict)
      requires Inv(View()) && id < |refreshes| && refreshes[id].done
      ensures verdict.Return? && !verdict.failed <==> Accepts(View(), id)
      ensures verdict.Return? && !verdict.failed ==> !fullRefreshRequired
      ensures verdict.Return? ==> verdict.generation == refreshes[id].generation && verdict.failed == refreshes[id].failed
      ensures refreshes[id].failed ==> verdict.Return?
    {
      var r := refreshes[id];
      var stable := r.epoch == fullRefreshEpoch;
      if r.failed || stable {
        verdict := Return(r.generation, r.failed);
        if !r.failed {
          CleanEpochCounts(refreshes, id);
        }
      } else {
        verdict := Again;
      }
    }

    /** The closing section of runFullRefresh. */
    method FinishRefresh(id: nat, failed: bool)
      requires Inv(View()) && id < |refreshes| && !refreshes[id].done
      modifies this
      ensures View() == Apply(old(View()), Finish(id, failed)) && Inv(View())
      ensures !failed && old(refreshes)[id].epoch == fullRefreshEpoch ==> !fullRefreshRequired
    {
      StepKeepsInv(View(), Finish(id, failed));
      var r := refreshes[id].(generation := generation, failed := failed);
      if !failed && fullRefreshEpoch == r.epoch {
        fullRefreshRequired := false;
      }
      if refresh == Some(id) {
        refresh := None;
      }
      refreshes := refreshes[id := r.(done := true)];
    }

    method RequireFullRefresh()
      requires Inv(View())
      modifies this
      ensures View() == Apply(old(View()), Require) && Inv(View())
      ensures forall id :: !Accepts(View(), id)
    {
      StepKeepsInv(View(), Require);
      fullRefreshRequired := true;
      fullRefreshEpoch := fullRefreshEpoch + 1;
    }
  }
}
