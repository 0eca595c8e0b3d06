/** One refresh as a run of the live-overlay protocol: what its writes and its
    scheduling amount to (src/cmd/ragrep/workspace.go:270-296, 467-484). */
module RefreshRuns {
  import opened Options
  import opened Codestore
  import opened Overlay

  /** The run leads from s0 to s. */
  ghost predicate Leads(s0: State, steps: seq<Step>, s: State) {
    Overlay.IsRun(s0, steps) && After(s0, steps) == s
  }

  lemma {:induction false} LeadsOn(s0: State, steps: seq<Step>, s: State, step: Step)
    requires Leads(s0, steps, s) && Enabled(s, step)
    ensures Leads(s0, steps + [step], Next(s, step))
    decreases |steps|
  {
    hide Next, Enabled;
    if steps == [] {
      OneMore(s0, step, []);
      assert [] + [step] == [step] + [];
    } else {
      LeadsOn(Next(s0, steps[0]), steps[1..], s, step);
      OneMore(s0, steps[0], steps[1..] + [step]);
      assert [steps[0]] + (steps[1..] + [step]) == steps + [step];
    }
  }

  // ---- the writes ----

  function PutAll(t: Tables, puts: seq<Put>): Tables {
    if puts == [] then t
    else
      var w := puts[|puts| - 1];
      PutLive(PutAll(t, puts[..|puts| - 1]), w.path, w.file)
  }

  lemma {:induction false} PutAllSplit(t: Tables, a: seq<Put>, b: seq<Put>)
    ensures PutAll(t, a + b) == PutAll(PutAll(t, a), b)
  {
    if b == [] {
      assert a + b == a;
    } else {
      var n := |b| - 1;
      assert (a + b)[..|a + b| - 1] == a + b[..n];
      PutAllSplit(t, a, b[..n]);
    }
  }

  lemma {:induction false} PutAllKeepsSymbols(t: Tables, puts: seq<Put>)
    requires OneHash(t)
    ensures PutAll(t, puts).symbols == t.symbols && OneHash(PutAll(t, puts))
  {
    if puts == [] {
    } else {
      PutAllKeepsSymbols(t, puts[..|puts| - 1]);
    }
  }

  lemma PutIsPutRow(t: Tables, path: Path, file: LiveFile)
    requires OneHash(t)
    ensures Abs(PutLive(t, path, file)) == PutRow(Abs(t), path, file)
  {
    hide Durable;
    SameSymbolsSameDurable(t, PutLive(t, path, file));
  }

  /** The first n writes of a refresh. */
  function WriteSteps(puts: seq<Put>, n: nat): seq<Step> {
    if n == 0 then [StartRefresh(puts)] else WriteSteps(puts, n - 1) + [WriteNext]
  }

  lemma {:induction false} WritesLead(s: State, t: Tables, puts: seq<Put>, n: nat)
    requires Enabled(s, StartRefresh(puts)) && s.store == Abs(t) && OneHash(t) && n <= |puts|
    ensures Leads(s, WriteSteps(puts, n), s.(store := Abs(PutAll(t, puts[..n])), holder := Refreshing(puts[n..], puts[..n])))
  {
    hide Durable, PutLive, OneHash;
    if n == 0 {
      OneMore(s, StartRefresh(puts), []);
      assert puts[0..] == puts && puts[..0] == [] && [StartRefresh(puts)] + [] == [StartRefresh(puts)];
    } else {
      WritesLead(s, t, puts, n - 1);
      var s1 := s.(store := Abs(PutAll(t, puts[..n - 1])), holder := Refreshing(puts[n - 1..], puts[..n - 1]));
      LeadsOn(s, WriteSteps(puts, n - 1), s1, WriteNext);
      PutAllKeepsSymbols(t, puts[..n - 1]);
      PutIsPutRow(PutAll(t, puts[..n - 1]), puts[n - 1].path, puts[n - 1].file);
      assert puts[..n][..n - 1] == puts[..n - 1] && puts[n - 1..][1..] == puts[n..] && puts[..n - 1] + [puts[n - 1]] == puts[..n];
    }
  }

  // ---- the scheduling ----

  function AsSet(confs: seq<Conf>): set<Conf> {
    set c | c in confs
  }

  function PendingAfter(s: State, order: seq<Conf>): set<Conf> {
    if s.closed || s.connected then s.pending else s.pending + AsSet(order)
  }

  /** Confirmations started so far, by id, are those of `started`. */
  predicate Started(s: State, started: seq<Conf>) {
    s.nextJob == |started| && forall id | id in s.running :: id < |started| && s.running[id].conf == started[id]
  }

  function StartedAfter(s: State, started: seq<Conf>, order: seq<Conf>): seq<Conf> {
    if s.closed || !s.connected then started else started + order
  }

  function ScheduleSteps(n: nat): seq<Step> {
    if n == 0 then [] else ScheduleSteps(n - 1) + [ScheduleNext]
  }

  /** s' is s after scheduling the first n confirmations. */
  predicate ScheduledTo(s: State, s': State, order: seq<Conf>, n: nat, started: seq<Conf>)
    requires n <= |order|
  {
    && s'.holder == Scheduling(order[n..]) && s'.store == s.store && s'.generation == s.generation
    && s'.connected == s.connected && s'.closed == s.closed
    && s'.pending == PendingAfter(s, order[..n]) && Started(s', StartedAfter(s, started, order[..n]))
  }

  lemma ScheduleOne(s: State, s': State, order: seq<Conf>, n: nat, started: seq<Conf>)
    requires n < |order| && ScheduledTo(s, s', order, n, started)
    ensures Enabled(s', ScheduleNext) && ScheduledTo(s, Next(s', ScheduleNext), order, n + 1, started)
  {
    assert order[n..][1..] == order[n + 1..] && order[..n + 1] == order[..n] + [order[n]];
    assert AsSet(order[..n + 1]) == AsSet(order[..n]) + {order[n]};
  }

  lemma {:induction false} SchedulesLead(s0: State, steps: seq<Step>, s: State, order: seq<Conf>, n: nat, started: seq<Conf>) returns (s': State)
    requires Leads(s0, steps, s) && s.holder == Scheduling(order) && n <= |order| && Started(s, started)
    ensures Leads(s0, steps + ScheduleSteps(n), s') && ScheduledTo(s, s', order, n, started)
  {
    hide Leads, Enabled, Next, Started;
    if n == 0 {
      s' := s;
      assert order[..0] == [] && started + [] == started && steps + [] == steps && order[0..] == order;
      assert AsSet(order[..0]) == {};
    } else {
      var s1 := SchedulesLead(s0, steps, s, order, n - 1, started);
      ScheduleOne(s, s1, order, n - 1, started);
      LeadsOn(s0, steps + ScheduleSteps(n - 1), s1, ScheduleNext);
      s' := Next(s1, ScheduleNext);
      assert steps + ScheduleSteps(n) == steps + ScheduleSteps(n - 1) + [ScheduleNext];
    }
  }

  // ---- the refresh ----

  function FailedSteps(puts: seq<Put>, n: nat): seq<Step> {
    WriteSteps(puts, n) + [WriteFails]
  }

  lemma GivesUp(s: State)
    requires s.holder.Refreshing? && s.holder.todo != []
    ensures Enabled(s, WriteFails) && Next(s, WriteFails) == s.(holder := Free)
  {
  }

  lemma Ends(s: State, order: seq<Conf>)
    requires s.holder.Refreshing? && s.holder.todo == [] && multiset(order) == multiset(ConfsOf(s.holder.written))
    ensures Enabled(s, EndWrites(order))
    ensures Next(s, EndWrites(order)) ==
      s.(generation := if s.holder.written == [] then s.generation else s.generation + 1, holder := Scheduling(order))
  {
  }

  lemma Releases(s: State)
    requires s.holder == Scheduling([])
    ensures Enabled(s, EndRefresh) && Next(s, EndRefresh) == s.(holder := Free)
  {
  }

  /** A refresh whose n + 1st write fails. */
  lemma FailedRefreshIsRun(s: State, t: Tables, puts: seq<Put>, n: nat)
    requires Enabled(s, StartRefresh(puts)) && s.store == Abs(t) && OneHash(t) && n < |puts|
    ensures Leads(s, FailedSteps(puts, n), s.(store := Abs(PutAll(t, puts[..n])), holder := Free))
  {
    WritesLead(s, t, puts, n);
    hide Leads, Abs, PutAll, Enabled, Next;
    var s1 := s.(store := Abs(PutAll(t, puts[..n])), holder := Refreshing(puts[n..], puts[..n]));
    GivesUp(s1);
    LeadsOn(s, WriteSteps(puts, n), s1, WriteFails);
  }

  lemma SchedulingEnds(s0: State, steps: seq<Step>, s: State, order: seq<Conf>, started: seq<Conf>) returns (s': State)
    requires Leads(s0, steps, s) && s.holder == Scheduling(order) && Started(s, started)
    ensures Leads(s0, steps + ScheduleSteps(|order|) + [EndRefresh], s')
    ensures s' == s.(holder := Free, pending := PendingAfter(s, order), running := s'.running, nextJob := s'.nextJob)
    ensures Started(s', StartedAfter(s, started, order))
  {
    hide Leads, Enabled, Next, PendingAfter, StartedAfter;
    var s1 := SchedulesLead(s0, steps, s, order, |order|, started);
    assert order[..|order|] == order && order[|order|..] == [];
    Releases(s1);
    LeadsOn(s0, steps + ScheduleSteps(|order|), s1, EndRefresh);
    s' := s1.(holder := Free);
  }

  lemma WritingEnds(s: State, t: Tables, puts: seq<Put>, order: seq<Conf>)
    requires Enabled(s, StartRefresh(puts)) && s.store == Abs(t) && OneHash(t) && multiset(order) == multiset(ConfsOf(puts))
    ensures Leads(s, WriteSteps(puts, |puts|) + [EndWrites(order)],
              s.(store := Abs(PutAll(t, puts)), generation := if puts == [] then s.generation else s.generation + 1, holder := Scheduling(order)))
  {
    WritesLead(s, t, puts, |puts|);
    assert puts[..|puts|] == puts && puts[|puts|..] == [];
    hide Leads, Abs, PutAll, Enabled, Next;
    var s1 := s.(store := Abs(PutAll(t, puts)), holder := Refreshing([], puts));
    Ends(s1, order);
    LeadsOn(s, WriteSteps(puts, |puts|), s1, EndWrites(order));
  }

  function RefreshSteps(puts: seq<Put>, order: seq<Conf>): seq<Step> {
    WriteSteps(puts, |puts|) + [EndWrites(order)] + ScheduleSteps(|order|) + [EndRefresh]
  }

  /** A refresh that completes, scheduling in some order. */
  lemma RefreshIsRun(s: State, t: Tables, puts: seq<Put>, order: seq<Conf>, started: seq<Conf>) returns (s': State)
    requires Enabled(s, StartRefresh(puts)) && s.store == Abs(t) && OneHash(t) && Started(s, started)
    requires multiset(order) == multiset(ConfsOf(puts))
    ensures Leads(s, RefreshSteps(puts, order), s')
    ensures s'.holder == Free && s'.store == Abs(PutAll(t, puts)) && s'.generation == (if puts == [] then s.generation else s.generation + 1)
    ensures s'.connected == s.connected && s'.closed == s.closed
    ensures s'.pending == PendingAfter(s, order) && Started(s', StartedAfter(s, started, order))
  {
    hide Leads, Abs, PutAll, Enabled;
    WritingEnds(s, t, puts, order);
    var s1 := s.(store := Abs(PutAll(t, puts)), generation := if puts == [] then s.generation else s.generation + 1, holder := Scheduling(order));
    s' := SchedulingEnds(s, WriteSteps(puts, |puts|) + [EndWrites(order)], s1, order, started);
  }
}
