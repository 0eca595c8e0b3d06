/** The live-overlay protocol (src/cmd/ragrep/workspace.go, code_service.go):
    refreshes write live rows and tombstones over durable symbols, background
    confirmations and Index runs promote or delete them.  One step is one SQL
    transaction or one critical section; every interleaving is a run. */
module Overlay {
  import opened Options
  import opened Codestore

  // ---- the store, as the protocol sees it ----

  datatype Overlaid = Overlaid(live: map<Path, LiveFile>, durable: map<Path, Hash>)

  /** What a reader sees of a path: a live row wins over durable rows. */
  function Shown(s: Overlaid, p: Path): Option<Hash> {
    if p in s.live then (if s.live[p].deleted then None else Some(s.live[p].hash))
    else if p in s.durable then Some(s.durable[p])
    else None
  }

  predicate Matches(s: Overlaid, c: Conf, deleted: bool) {
    c.path in s.live && s.live[c.path].hash == c.hash && s.live[c.path].deleted == deleted
  }

  function PutRow(s: Overlaid, p: Path, file: LiveFile): Overlaid {
    s.(live := s.live[p := file])
  }

  /** p's durable rows are those of this content. */
  predicate HasRows(s: Overlaid, c: Conf) {
    c.path in s.durable && s.durable[c.path] == c.hash
  }

  function UpsertPath(s: Overlaid, c: Conf, symbols: nat): Overlaid {
    s.(durable := if symbols > 0 || HasRows(s, c) then s.durable[c.path := c.hash] else s.durable - {c.path})
  }

  function Uncover(s: Overlaid, c: Conf): Overlaid {
    if Matches(s, c, false) then s.(live := s.live - {c.path}) else s
  }

  function DropTombstone(s: Overlaid, c: Conf): Overlaid {
    if Matches(s, c, true) then Overlaid(s.live - {c.path}, s.durable - {c.path}) else s
  }

  function PrunePath(s: Overlaid, p: Path): Overlaid {
    s.(durable := s.durable - {p})
  }

  ghost function Abs(t: Tables): Overlaid {
    Overlaid(t.live, Durable(t))
  }

  /** Each transaction on the tables is the store operation of the same purpose. */
  lemma TransactionsRefineStore(t: Tables, c: Conf, file: LiveFile, symbols: seq<Symbol>, runId: int, embed: EmbedFunc, model: Symbol -> Vector)
    requires Agrees(t, model) && Faithful(embed, model)
    requires DistinctKeys(symbols) && AllAt(symbols, c.path) && ContainersFixed(t, symbols)
    ensures Abs(PutLive(t, c.path, file)) == PutRow(Abs(t), c.path, file)
    ensures Abs(RemoveLiveIfHash(t, c.path, c.hash)) == Uncover(Abs(t), c)
    ensures Abs(DeleteIfLiveHash(t, c.path, c.hash)) == DropTombstone(Abs(t), c)
    ensures Abs(DeleteForPath(t, c.path)) == PrunePath(Abs(t), c.path)
    ensures Upsert(t, c.path, c.hash, symbols, runId, embed).Some? ==>
              Abs(Upsert(t, c.path, c.hash, symbols, runId, embed).value) == UpsertPath(Abs(t), c, |symbols|)
  {
    hide UniqueKeys, FtsAgrees, VecAgrees, EdgesAgree, LiveFtsAgrees, Faithful, Upsert, Durable;
    PutLiveAgrees(t, c.path, file, model);
    ApplyAgrees(t, OpRemoveLive(c.path, c.hash), embed, model);
    SameSymbolsSameDurable(t, PutLive(t, c.path, file));
    SameSymbolsSameDurable(t, RemoveLiveIfHash(t, c.path, c.hash));
    DeleteForPathDurable(t, c.path, model);
    DeleteIfLiveAgrees(t, c.path, c.hash, model);
    if Upsert(t, c.path, c.hash, symbols, runId, embed).Some? {
      UpsertDurable(t, c.path, c.hash, symbols, runId, embed, model);
    }
  }

  lemma SameSymbolsSameDurable(t: Tables, t': Tables)
    requires OneHash(t) && t.symbols == t'.symbols
    ensures Durable(t) == Durable(t')
  {
    forall p, h
      ensures Stored(t, p, h) <==> p in Durable(t') && Durable(t')[p] == h
    {
      DurableIsStored(t', p, h);
    }
    DurableExt(t, Durable(t'));
  }

  // ---- the protocol's state ----

  datatype Conf = Conf(path: Path, hash: Hash)

  /** Where a running confirmation stands: before its first read, past it, or
      failed and on its way back to the pending set. */
  datatype Phase = Unread | SawLive | SawTombstone | Failed

  datatype Job = Job(conf: Conf, phase: Phase)

  datatype Put = Put(path: Path, file: LiveFile)

  function ConfOf(w: Put): Conf {
    Conf(w.path, w.file.hash)
  }

  function ConfsOf(puts: seq<Put>): (confs: seq<Conf>)
    ensures |confs| == |puts| && forall i :: 0 <= i < |puts| ==> confs[i] == ConfOf(puts[i])
  {
    seq(|puts|, i requires 0 <= i < |puts| => ConfOf(puts[i]))
  }

  /** A row a refresh writes: new content, or a tombstone for what was there. */
  predicate Differing(s: Overlaid, w: Put) {
    if w.file.deleted then Shown(s, w.path) == Some(w.file.hash) else Shown(s, w.path) != Some(w.file.hash)
  }

  /** Who has the updateMu token, and how far that section has come. */
  datatype Holder =
    | Free
    | Reading
    | Refreshing(todo: seq<Put>, written: seq<Put>)
    | Scheduling(confs: seq<Conf>)
    | Locked(id: nat)
    | Checked(id: nat)
    | Promoted(id: nat)
    | Indexing
    | IndexPromoted(conf: Conf)

  datatype State = State(
    store: Overlaid,
    generation: nat,
    connected: bool,               // confirmPath has been set
    closed: bool,
    pending: set<Conf>,
    running: map<nat, Job>,
    nextJob: nat,
    holder: Holder)

  datatype Step =
    | Connect(order: seq<Conf>)    // setConfirmation: pending -> running, in map order
    | ReadLock | ReadUnlock        // Snapshot and its release
    | StartRefresh(puts: seq<Put>)
    | WriteNext                    // PutLiveFile or PutLiveDeletion
    | WriteFails                   // the refresh returns early
    | EndWrites(order: seq<Conf>)  // setGeneration; then one confirmation a row, in this order
    | ScheduleNext                 // scheduleConfirmation
    | EndRefresh
    | Observe(id: nat)             // the confirmation's first read
    | Lock(id: nat)
    | Recheck(id: nat)
    | Promote(id: nat, symbols: nat)
    | Finish(id: nat)              // RemoveLiveFileIfHash, or the tombstone's transaction
    | Fail(id: nat)                // any error or cancellation; releases the token
    | Requeue(id: nat)
    | StartIndex
    | IndexUpsert(conf: Conf, symbols: nat)
    | IndexUncover
    | IndexPrune(path: Path)
    | EndIndex
    | Close

  function Holds(h: Holder, id: nat): bool {
    (h.Locked? || h.Checked? || h.Promoted?) && h.id == id
  }

  ghost predicate Enabled(s: State, step: Step) {
    match step
    case Connect(order) => !s.closed && (forall c :: c in order <==> c in s.pending)
    case ReadLock => s.holder.Free?
    case ReadUnlock => s.holder.Reading?
    case StartRefresh(puts) =>
      && s.holder.Free?
      && (forall i, j | 0 <= i < j < |puts| && puts[i].path == puts[j].path :: puts[i] == puts[j])
      && (forall i | 0 <= i < |puts| :: puts[i].file.generation == s.generation + 1 && Differing(s.store, puts[i]))
    case WriteNext => s.holder.Refreshing? && s.holder.todo != []
    case WriteFails => s.holder.Refreshing? && s.holder.todo != []
    case EndWrites(order) => s.holder.Refreshing? && s.holder.todo == [] && multiset(order) == multiset(ConfsOf(s.holder.written))
    case ScheduleNext => s.holder.Scheduling? && s.holder.confs != []
    case EndRefresh => s.holder.Scheduling? && s.holder.confs == []
    case Observe(id) => id in s.running && s.running[id].phase.Unread?
    case Lock(id) => s.holder.Free? && id in s.running && (s.running[id].phase.SawLive? || s.running[id].phase.SawTombstone?)
    case Recheck(id) => s.holder == Locked(id) && id in s.running && s.running[id].phase.SawLive?
    case Promote(id, _) => s.holder == Checked(id) && id in s.running
    case Finish(id) => id in s.running && (s.holder == Promoted(id) || (s.holder == Locked(id) && s.running[id].phase.SawTombstone?))
    case Fail(id) => id in s.running
    case Requeue(id) => id in s.running && s.running[id].phase.Failed?
    case StartIndex => s.holder.Free?
    case IndexUpsert(_, _) => s.holder.Indexing?
    case IndexUncover => s.holder.IndexPromoted?
    case IndexPrune(_) => s.holder.Indexing?
    case EndIndex => s.holder.Indexing? || s.holder.IndexPromoted?
    case Close => true
  }

  function EndJob(s: State, id: nat): State {
    s.(running := s.running - {id}, holder := if Holds(s.holder, id) then Free else s.holder)
  }

  function StartJob(s: State, c: Conf): State {
    if s.closed then s
    else if s.connected then s.(running := s.running[s.nextJob := Job(c, Unread)], nextJob := s.nextJob + 1)
    else s.(pending := s.pending + {c})
  }

  predicate InBlock(id: nat, from: nat, n: nat) {
    from <= id < from + n
  }

  function StartPending(s: State, order: seq<Conf>): State {
    s.(connected := true,
       pending := {},
       running := s.running + (map id | s.nextJob <= id < s.nextJob + |order| && InBlock(id, s.nextJob, |order|) :: Job(order[id - s.nextJob], Unread)),
       nextJob := s.nextJob + |order|)
  }

  ghost function Next(s: State, step: Step): State
    requires Enabled(s, step)
  {
    match step
    case Connect(order) => StartPending(s, order)
    case ReadLock => s.(holder := Reading)
    case ReadUnlock => s.(holder := Free)
    case StartRefresh(puts) => s.(holder := Refreshing(puts, []))
    case WriteNext =>
      var w := s.holder.todo[0];
      s.(store := PutRow(s.store, w.path, w.file), holder := Refreshing(s.holder.todo[1..], s.holder.written + [w]))
    case WriteFails => s.(holder := Free)
    case EndWrites(order) =>
      s.(generation := if s.holder.written == [] then s.generation else s.generation + 1, holder := Scheduling(order))
    case ScheduleNext => StartJob(s, s.holder.confs[0]).(holder := Scheduling(s.holder.confs[1..]))
    case EndRefresh => s.(holder := Free)
    case Observe(id) =>
      var c := s.running[id].conf;
      if Matches(s.store, c, true) then s.(running := s.running[id := Job(c, SawTombstone)])
      else if Matches(s.store, c, false) then s.(running := s.running[id := Job(c, SawLive)])
      else EndJob(s, id)
    case Lock(id) => s.(holder := Locked(id))
    case Recheck(id) => if Matches(s.store, s.running[id].conf, false) then s.(holder := Checked(id)) else EndJob(s, id)
    case Promote(id, symbols) => s.(store := UpsertPath(s.store, s.running[id].conf, symbols), holder := Promoted(id))
    case Finish(id) =>
      var c := s.running[id].conf;
      EndJob(s.(store := if s.running[id].phase.SawTombstone? then DropTombstone(s.store, c) else Uncover(s.store, c)), id)
    case Fail(id) =>
      s.(running := s.running[id := s.running[id].(phase := Failed)], holder := if Holds(s.holder, id) then Free else s.holder)
    case Requeue(id) =>
      EndJob(s, id).(pending := if s.closed then s.pending else s.pending + {s.running[id].conf})
    case StartIndex => s.(holder := Indexing)
    case IndexUpsert(c, symbols) =>
      if Matches(s.store, c, true) then s
      else s.(store := UpsertPath(s.store, c, symbols), holder := IndexPromoted(c))
    case IndexUncover => s.(store := Uncover(s.store, s.holder.conf), holder := Indexing)
    case IndexPrune(p) => s.(store := PrunePath(s.store, p))
    case EndIndex => s.(holder := Free)
    case Close => s.(closed := true)
  }

  // ---- the invariant ----

  /** A job that will still act on, or hand back, a row in its present state. */
  predicate Attends(j: Job, c: Conf, deleted: bool) {
    j.conf == c && (j.phase.Unread? || j.phase.Failed? || (if deleted then j.phase.SawTombstone? else j.phase.SawLive?))
  }

  ghost predicate Running(s: State, c: Conf, deleted: bool) {
    exists id :: id in s.running && Attends(s.running[id], c, deleted)
  }

  predicate HolderOwes(h: Holder, c: Conf) {
    || (h.Refreshing? && exists i :: 0 <= i < |h.written| && ConfOf(h.written[i]) == c)
    || (h.Scheduling? && c in h.confs)
  }

  ghost predicate Covered(s: State, p: Path)
    requires p in s.store.live
  {
    var c := Conf(p, s.store.live[p].hash);
    c in s.pending || Running(s, c, s.store.live[p].deleted) || HolderOwes(s.holder, c)
  }

  /** A commit in progress has its job, and the row it saw is still there. */
  predicate HolderOk(s: State) {
    match s.holder
    case Locked(id) => id in s.running && (s.running[id].phase.SawLive? || s.running[id].phase.SawTombstone?)
    case Checked(id) => id in s.running && s.running[id].phase.SawLive? && Matches(s.store, s.running[id].conf, false)
    case Promoted(id) => id in s.running && s.running[id].phase.SawLive? && Matches(s.store, s.running[id].conf, false)
    case IndexPromoted(c) => !Matches(s.store, c, true)
    case _ => true
  }

  predicate Tidy(s: State) {
    HolderOk(s) && forall id | id in s.running :: id < s.nextJob
  }

  lemma StepKeepsTidy(s: State, step: Step)
    requires Tidy(s) && Enabled(s, step)
    ensures Tidy(Next(s, step))
  {
  }

  /** Until Close, p's row has somebody to confirm it. */
  ghost predicate Tended(s: State, p: Path) {
    s.closed || p !in s.store.live || Covered(s, p)
  }

  // ---- coverage: no row is forgotten ----

  /** A row that has not changed stays covered while pending confirmations,
      attending jobs and the holder's debts only grow. */
  lemma StillCovered(s: State, s': State, p: Path)
    requires p in s.store.live && p in s'.store.live && Covered(s, p)
    requires s'.store.live[p].hash == s.store.live[p].hash && s'.store.live[p].deleted == s.store.live[p].deleted
    requires var c := Conf(p, s.store.live[p].hash);
             && (c in s.pending ==> c in s'.pending || Running(s', c, s.store.live[p].deleted))
             && (Running(s, c, s.store.live[p].deleted) ==> c in s'.pending || Running(s', c, s.store.live[p].deleted))
             && (HolderOwes(s.holder, c) ==> HolderOwes(s'.holder, c) || c in s'.pending || Running(s', c, s.store.live[p].deleted))
    ensures Covered(s', p)
  {
  }

  /** Every attending job but id is still there. */
  lemma OthersAttend(s: State, s': State, id: nat, c: Conf, deleted: bool)
    requires Running(s, c, deleted)
    requires forall i | i in s.running && i != id :: i in s'.running && s'.running[i] == s.running[i]
    requires id in s.running && Attends(s.running[id], c, deleted) ==>
               c in s'.pending || (id in s'.running && Attends(s'.running[id], c, deleted))
    ensures c in s'.pending || Running(s', c, deleted)
  {
    var i :| i in s.running && Attends(s.running[i], c, deleted);
    if i == id {
      assert c in s'.pending || (id in s'.running && Attends(s'.running[id], c, deleted));
    } else {
      assert i in s'.running && Attends(s'.running[i], c, deleted);
    }
  }

  /** A step of one job: the other jobs, the pending set and the debts stay. */
  lemma JobStepTends(s: State, s': State, id: nat, p: Path)
    requires Tended(s, p) && !s.closed && id in s.running
    requires s.pending <= s'.pending && (s.holder == s'.holder || s.holder.Free? || Holds(s.holder, id))
    requires forall i | i in s.running && i != id :: i in s'.running && s'.running[i] == s.running[i]
    requires p in s'.store.live ==> p in s.store.live && s'.store.live[p] == s.store.live[p]
    requires p in s'.store.live && Attends(s.running[id], Conf(p, s.store.live[p].hash), s.store.live[p].deleted) ==>
               Conf(p, s.store.live[p].hash) in s'.pending ||
               (id in s'.running && Attends(s'.running[id], Conf(p, s.store.live[p].hash), s.store.live[p].deleted))
    ensures Tended(s', p)
  {
    if p in s'.store.live {
      var c, deleted := Conf(p, s.store.live[p].hash), s.store.live[p].deleted;
      if Running(s, c, deleted) {
        OthersAttend(s, s', id, c, deleted);
      }
      StillCovered(s, s', p);
    }
  }

  lemma ConnectTends(s: State, order: seq<Conf>, p: Path)
    requires Tidy(s) && Enabled(s, Connect(order)) && Tended(s, p)
    ensures Tended(Next(s, Connect(order)), p)
  {
    var s' := Next(s, Connect(order));
    if p in s.store.live {
      var c, deleted := Conf(p, s.store.live[p].hash), s.store.live[p].deleted;
      if c in s.pending {
        var i :| 0 <= i < |order| && order[i] == c;
        assert Attends(s'.running[s.nextJob + i], c, deleted);
      }
      if Running(s, c, deleted) {
        var id :| id in s.running && Attends(s.running[id], c, deleted);
        assert Attends(s'.running[id], c, deleted);
      }
      StillCovered(s, s', p);
    }
  }

  predicate RefreshStep(step: Step) {
    step.StartRefresh? || step.WriteNext? || step.EndWrites? || step.EndRefresh? || step.ReadLock? || step.ReadUnlock?
  }

  lemma RefreshTends(s: State, step: Step, p: Path)
    requires Enabled(s, step) && RefreshStep(step) && Tended(s, p)
    ensures Tended(Next(s, step), p)
  {
    var s' := Next(s, step);
    if p in s'.store.live && !s.closed {
      var c := Conf(p, s'.store.live[p].hash);
      if step.WriteNext? && p == s.holder.todo[0].path {
        assert s'.holder.written[|s.holder.written|] == s.holder.todo[0];
      } else {
        if HolderOwes(s.holder, c) && step.WriteNext? {
          var i :| 0 <= i < |s.holder.written| && ConfOf(s.holder.written[i]) == c;
          assert s'.holder.written[i] == s.holder.written[i];
        }
        if HolderOwes(s.holder, c) && step.EndWrites? {
          assert c in multiset(ConfsOf(s.holder.written));
          assert c in multiset(s'.holder.confs);
        }
        StillCovered(s, s', p);
      }
    }
  }

  lemma ScheduleTends(s: State, p: Path)
    requires Tidy(s) && Enabled(s, ScheduleNext) && Tended(s, p)
    ensures Tended(Next(s, ScheduleNext), p)
  {
    var s' := Next(s, ScheduleNext);
    var first := s.holder.confs[0];
    if p in s.store.live && !s.closed {
      var c, deleted := Conf(p, s.store.live[p].hash), s.store.live[p].deleted;
      if Running(s, c, deleted) {
        var id :| id in s.running && Attends(s.running[id], c, deleted);
        assert id in s'.running && Attends(s'.running[id], c, deleted);
      }
      if c == first && s.connected {
        assert Attends(s'.running[s.nextJob], c, deleted);
      }
      if HolderOwes(s.holder, c) && c != first {
        var i :| 0 <= i < |s.holder.confs| && s.holder.confs[i] == c;
        assert s'.holder.confs[i - 1] == c;
      }
      StillCovered(s, s', p);
    }
  }

  predicate JobStep(step: Step) {
    step.Observe? || step.Lock? || step.Recheck? || step.Promote? || step.Finish? || step.Fail? || step.Requeue?
  }

  predicate IndexStep(step: Step) {
    step.StartIndex? || step.IndexUpsert? || step.IndexUncover? || step.IndexPrune? || step.EndIndex?
  }

  /** A refresh that gives up when p's row is one it wrote and nobody else's to confirm. */
  ghost predicate Forsakes(s: State, step: Step, p: Path) {
    && step.WriteFails? && !s.closed && p in s.store.live
    && var c := Conf(p, s.store.live[p].hash);
       HolderOwes(s.holder, c) && c !in s.pending && !Running(s, c, s.store.live[p].deleted)
  }

  /** Every step of the protocol keeps a row tended, but for a failing refresh,
      and that exactly when it forsakes the row. */
  lemma StepTendsIff(s: State, step: Step, p: Path)
    requires Tidy(s) && Enabled(s, step) && Tended(s, p)
    ensures Tended(Next(s, step), p) <==> !Forsakes(s, step, p)
  {
    var s' := Next(s, step);
    if step.Connect? {
      ConnectTends(s, step.order, p);
    } else if step.ScheduleNext? {
      ScheduleTends(s, p);
    } else if RefreshStep(step) {
      RefreshTends(s, step, p);
    } else if JobStep(step) && !s.closed {
      JobStepTends(s, s', step.id, p);
    } else if IndexStep(step) && p in s'.store.live && !s.closed {
      StillCovered(s, s', p);
    }
  }

  // ---- runs ----

  ghost predicate IsRun(s: State, steps: seq<Step>)
    decreases |steps|
  {
    steps == [] || (Enabled(s, steps[0]) && IsRun(Next(s, steps[0]), steps[1..]))
  }

  ghost function After(s: State, steps: seq<Step>): State
    requires IsRun(s, steps)
    decreases |steps|
  {
    if steps == [] then s else After(Next(s, steps[0]), steps[1..])
  }

  /** Whatever fails on the way. */
  lemma {:induction false} RunKeepsTidy(s: State, steps: seq<Step>)
    requires Tidy(s) && IsRun(s, steps)
    ensures Tidy(After(s, steps))
    decreases |steps|
  {
    if steps == [] {
    } else {
      StepKeepsTidy(s, steps[0]);
      RunKeepsTidy(Next(s, steps[0]), steps[1..]);
    }
  }

  lemma OneMore(s: State, step: Step, rest: seq<Step>)
    requires Enabled(s, step) && IsRun(Next(s, step), rest)
    ensures IsRun(s, [step] + rest) && After(s, [step] + rest) == After(Next(s, step), rest)
  {
    assert ([step] + rest)[1..] == rest;
  }

  predicate WrittenNow(s: State, p: Path) {
    s.holder.Refreshing? && exists i :: 0 <= i < |s.holder.written| && s.holder.written[i].path == p
  }

  /** No refresh of the run fails after it has written p. */
  ghost predicate Spared(s: State, steps: seq<Step>, p: Path)
    requires IsRun(s, steps)
    decreases |steps|
  {
    steps == [] || (!(steps[0].WriteFails? && WrittenNow(s, p)) && Spared(Next(s, steps[0]), steps[1..], p))
  }

  lemma {:induction false} SuccessSpares(s: State, steps: seq<Step>, p: Path)
    requires IsRun(s, steps) && forall i | 0 <= i < |steps| :: !steps[i].WriteFails?
    ensures Spared(s, steps, p)
    decreases |steps|
  {
    if steps == [] {
    } else {
      SuccessSpares(Next(s, steps[0]), steps[1..], p);
    }
  }

  /** newWorkspaceState: every row found in the store starts out pending. */
  predicate Opened(s: State) {
    && s.holder == Free && s.running == map[] && !s.connected && !s.closed
    && (forall p | p in s.store.live :: Conf(p, s.store.live[p].hash) in s.pending && s.store.live[p].generation <= s.generation)
  }

  lemma {:induction false} RunTends(s: State, steps: seq<Step>, p: Path)
    requires Tidy(s) && Tended(s, p) && IsRun(s, steps) && Spared(s, steps, p)
    ensures Tidy(After(s, steps)) && Tended(After(s, steps), p)
    decreases |steps|
  {
    if steps == [] {
    } else {
      StepKeepsTidy(s, steps[0]);
      StepTendsIff(s, steps[0], p);
      RunTends(Next(s, steps[0]), steps[1..], p);
    }
  }

  /** In every run of an opened workspace, before Close: whenever the token is
      free, a path's live row or tombstone has a confirmation of its path and hash
      that is pending, or running and not past a read that saw it otherwise, unless
      a refresh failed after writing that path. */
  lemma NoRowForgotten(s: State, steps: seq<Step>, p: Path)
    requires Opened(s) && IsRun(s, steps) && Spared(s, steps, p)
    ensures
      var s' := After(s, steps);
      !s'.closed && s'.holder == Free && p in s'.store.live ==>
        var c := Conf(p, s'.store.live[p].hash);
        c in s'.pending || exists id :: id in s'.running && Attends(s'.running[id], c, s'.store.live[p].deleted)
  {
    RunTends(s, steps, p);
  }

  // Such failures happen: refreshes over an empty store whose second write fails.

  function Over(live: map<Path, LiveFile>): State {
    State(Overlaid(live, map[]), 0, true, false, {}, map[], 0, Free)
  }

  const NEVER_USED := State(Overlaid(map[], map[]), 0, false, false, {}, map[], 0, Free)

  function FailedRefresh(hash: Hash): seq<Step> {
    [StartRefresh([Put("a.go", LiveFile(hash, hash, 1, false)), Put("b.go", LiveFile("k", "y", 1, false))]), WriteNext, WriteFails]
  }

  lemma FailedRefreshRuns(live: map<Path, LiveFile>, hash: Hash)
    requires Shown(Over(live).store, "a.go") != Some(hash) && "b.go" !in live
    ensures IsRun(Over(live), FailedRefresh(hash))
    ensures After(Over(live), FailedRefresh(hash)) == Over(live["a.go" := LiveFile(hash, hash, 1, false)])
  {
    var s, steps := Over(live), FailedRefresh(hash);
    var s1 := Next(s, steps[0]);
    var s2 := Next(s1, WriteNext);
    OneMore(s2, WriteFails, []);
    OneMore(s1, WriteNext, [WriteFails]);
    OneMore(s, steps[0], [WriteNext, WriteFails]);
  }

  lemma ConnectedRuns(hash: Hash)
    ensures Opened(NEVER_USED) && IsRun(NEVER_USED, [Connect([])] + FailedRefresh(hash))
    ensures After(NEVER_USED, [Connect([])] + FailedRefresh(hash)) == Over(map["a.go" := LiveFile(hash, hash, 1, false)])
  {
    assert Next(NEVER_USED, Connect([])) == Over(map[]);
    FailedRefreshRuns(map[], hash);
    assert map[]["a.go" := LiveFile(hash, hash, 1, false)] == map["a.go" := LiveFile(hash, hash, 1, false)];
    OneMore(NEVER_USED, Connect([]), FailedRefresh(hash));
  }

  /** The first row of such a refresh is left with nobody to confirm it. */
  lemma FailedWriteForgetsRow()
    ensures
      var steps := [Connect([])] + FailedRefresh("h");
      Opened(NEVER_USED) && IsRun(NEVER_USED, steps) && !Tended(After(NEVER_USED, steps), "a.go")
  {
    ConnectedRuns("h");
  }

  // ---- the visible view ----

  /** What each step does to what a reader sees of p.  Only a refresh write
      changes a path that has a live row; Index runs move other paths. */
  ghost function ViewAfter(s: State, step: Step, p: Path): Option<Hash>
    requires Enabled(s, step)
  {
    if step.WriteNext? && p == s.holder.todo[0].path then
      var file := s.holder.todo[0].file;
      if file.deleted then None else Some(file.hash)
    else if p in s.store.live then Shown(s.store, p)
    else if step.IndexUpsert? && p == step.conf.path then
      (if step.symbols > 0 || HasRows(s.store, step.conf) then Some(step.conf.hash) else None)
    else if step.IndexPrune? && p == step.path then None
    else Shown(s.store, p)
  }

  /** The step removes p's live row and leaves it to the durable rows. */
  predicate Uncovers(s: State, step: Step, p: Path) {
    || (step.Finish? && s.holder == Promoted(step.id) && step.id in s.running && s.running[step.id].conf.path == p)
    || (step.IndexUncover? && s.holder.IndexPromoted? && s.holder.conf.path == p && Matches(s.store, s.holder.conf, false))
  }

  /** A commit that has promoted p left it durable rows of the content promoted. */
  predicate Backed(s: State, p: Path) {
    match s.holder
    case Promoted(id) => id in s.running && s.running[id].conf.path == p ==> HasRows(s.store, s.running[id].conf)
    case IndexPromoted(c) => c.path == p ==> HasRows(s.store, c)
    case _ => true
  }

  /** The machine refines the map from path to visible hash, at every
      transaction boundary and after any failure: promotion and tombstone removal
      are invisible, a tombstoned path is not resurrected, a stale promotion is
      dropped.  The one exception is uncovering a path that has no rows. */
  lemma StepRefinesViewIff(s: State, step: Step, p: Path)
    requires Tidy(s) && Enabled(s, step)
    ensures Shown(Next(s, step).store, p) == ViewAfter(s, step, p) <==> !Uncovers(s, step, p) || Backed(s, p)
  {
    if JobStep(step) {
      JobRefinesViewIff(s, step, p);
    } else {
      OtherRefinesViewIff(s, step, p);
    }
    hide Next, Enabled, Shown, ViewAfter, Uncovers, Backed;
  }

  lemma JobRefinesViewIff(s: State, step: Step, p: Path)
    requires Tidy(s) && Enabled(s, step) && JobStep(step)
    ensures Shown(Next(s, step).store, p) == ViewAfter(s, step, p) <==> !Uncovers(s, step, p) || Backed(s, p)
  {
    hide StartPending, StartJob, PutRow, PrunePath;
  }

  lemma OtherRefinesViewIff(s: State, step: Step, p: Path)
    requires Tidy(s) && Enabled(s, step) && !JobStep(step)
    ensures Shown(Next(s, step).store, p) == ViewAfter(s, step, p) <==> !Uncovers(s, step, p) || Backed(s, p)
  {
    hide EndJob, DropTombstone;
  }

  /** A promotion of p, if the step is one, yields durable rows. */
  predicate Yields(s: State, step: Step, p: Path) {
    && (step.Promote? && step.id in s.running && s.running[step.id].conf.path == p ==>
          step.symbols > 0 || HasRows(s.store, s.running[step.id].conf))
    && (step.IndexUpsert? && step.conf.path == p ==> step.symbols > 0 || HasRows(s.store, step.conf))
  }

  lemma StepKeepsBacked(s: State, step: Step, p: Path)
    requires Tidy(s) && Enabled(s, step) && Backed(s, p) && Yields(s, step, p)
    ensures Backed(Next(s, step), p)
  {
    hide DropTombstone, PutRow, PrunePath, Shown;
  }

  /** Along the run p keeps a live row up to the last step, no refresh writes it,
      and its own promotions yield rows. */
  ghost predicate LeftAlone(s: State, steps: seq<Step>, p: Path)
    requires IsRun(s, steps)
    decreases |steps|
  {
    steps == [] ||
    (&& p in s.store.live && !(steps[0].WriteNext? && s.holder.todo[0].path == p) && Yields(s, steps[0], p)
     && LeftAlone(Next(s, steps[0]), steps[1..], p))
  }

  /** Over a whole run of confirmations, Index runs and other refreshes, failed
      ones included, a live or tombstoned path looks the same up to and past the
      step that ends its row. */
  lemma {:induction false} LivePathKeepsView(s: State, steps: seq<Step>, p: Path)
    requires Tidy(s) && Backed(s, p) && IsRun(s, steps) && LeftAlone(s, steps, p)
    ensures Shown(After(s, steps).store, p) == Shown(s.store, p)
    ensures Tidy(After(s, steps)) && Backed(After(s, steps), p)
    decreases |steps|
  {
    if steps == [] {
    } else {
      StepKeepsTidy(s, steps[0]);
      StepKeepsBacked(s, steps[0], p);
      StepRefinesViewIff(s, steps[0], p);
      LivePathKeepsView(Next(s, steps[0]), steps[1..], p);
    }
  }

  /** So in an opened workspace, from any moment at which the token is free, however
      it got there, a path left alone keeps its view. */
  lemma OpenedWorkspaceKeepsView(s0: State, before: seq<Step>, steps: seq<Step>, p: Path)
    requires Opened(s0) && IsRun(s0, before) && After(s0, before).holder == Free
    requires IsRun(After(s0, before), steps) && LeftAlone(After(s0, before), steps, p)
    ensures Shown(After(After(s0, before), steps).store, p) == Shown(After(s0, before).store, p)
  {
    RunKeepsTidy(s0, before);
    LivePathKeepsView(After(s0, before), steps, p);
  }

  /** Promotion keeps the view exactly when the file has a symbol, or its
      durable rows are already the ones it would get. */
  lemma PromotionVisibleIff(s: State, id: nat, symbols: nat)
    requires Tidy(s) && s.holder == Checked(id)
    ensures
      var c := s.running[id].conf;
      var s' := Next(Next(s, Promote(id, symbols)), Finish(id));
      && c.path !in s'.store.live
      && (Shown(s'.store, c.path) == Shown(s.store, c.path) <==> symbols > 0 || HasRows(s.store, c))
  {
  }

  /** Index moves the view of a path exactly when nothing live covers it and it is
      not yet what the prepared file makes of it. */
  lemma IndexMovesViewIff(s: State, c: Conf, symbols: nat)
    requires Enabled(s, IndexUpsert(c, symbols))
    ensures
      var s' := Next(s, IndexUpsert(c, symbols));
      && (forall p | p != c.path :: Shown(s'.store, p) == Shown(s.store, p))
      && (Shown(s'.store, c.path) != Shown(s.store, c.path) <==>
            c.path !in s.store.live && Shown(s.store, c.path) != Some(c.hash) && (symbols > 0 || Shown(s.store, c.path).Some?))
  {
  }

  /** So once a tombstone is gone nothing protects its path: an Index run that read
      the file before it was deleted brings it back exactly when it has symbols. */
  lemma StaleIndexResurrects(s: State, id: nat, symbols: nat)
    requires Tidy(s) && s.holder == Locked(id) && s.running[id].phase == SawTombstone
    requires Matches(s.store, s.running[id].conf, true)
    ensures
      var c := s.running[id].conf;
      var gone := Next(s, Finish(id));
      var back := Next(Next(gone, StartIndex), IndexUpsert(c, symbols));
      && Shown(s.store, c.path) == None && Shown(gone.store, c.path) == None
      && Shown(back.store, c.path) == if symbols > 0 then Some(c.hash) else None
  {
  }

  // ---- generations, and the keys built from them ----

  /** A search key minted for p at generation g and hash h still names p's row. */
  predicate KeyValid(s: State, p: Path, g: nat, h: Hash) {
    p in s.store.live && !s.store.live[p].deleted && s.store.live[p].generation == g && s.store.live[p].hash == h
  }

  /** The newest generation a row of p can carry. */
  function Newest(s: State, p: Path): nat {
    if WrittenNow(s, p) then s.generation + 1 else s.generation
  }

  ghost predicate GenInv(s: State, p: Path) {
    && (p in s.store.live ==> s.store.live[p].generation <= Newest(s, p))
    && (s.holder.Refreshing? ==>
          && (forall i | 0 <= i < |s.holder.todo| && s.holder.todo[i].path == p ::
                && s.holder.todo[i].file.generation == s.generation + 1
                && (WrittenNow(s, p) ==> p in s.store.live && s.store.live[p] == s.holder.todo[i].file))
          && (forall i, j | 0 <= i < j < |s.holder.todo| && s.holder.todo[i].path == s.holder.todo[j].path :: s.holder.todo[i] == s.holder.todo[j]))
  }

  ghost predicate Dead(s: State, p: Path, g: nat, h: Hash) {
    !KeyValid(s, p, g, h) && g <= Newest(s, p)
  }

  lemma WriteKeepsGenInv(s: State, p: Path)
    requires GenInv(s, p) && Enabled(s, WriteNext)
    ensures GenInv(Next(s, WriteNext), p) && Newest(s, p) <= Newest(Next(s, WriteNext), p)
  {
    var s', w := Next(s, WriteNext), s.holder.todo[0];
    assert s'.holder.written[|s.holder.written|] == w;
    if WrittenNow(s, p) {
      var i :| 0 <= i < |s.holder.written| && s.holder.written[i].path == p;
      assert s'.holder.written[i] == s.holder.written[i];
    }
    assert forall i | 0 <= i < |s'.holder.todo| :: s'.holder.todo[i] == s.holder.todo[i + 1];
  }

  lemma JobKeepsGenInv(s: State, step: Step, p: Path)
    requires GenInv(s, p) && Enabled(s, step) && JobStep(step)
    ensures GenInv(Next(s, step), p) && Newest(s, p) <= Newest(Next(s, step), p)
  {
    hide HasRows;
  }

  lemma OtherKeepsGenInv(s: State, step: Step, p: Path)
    requires GenInv(s, p) && Enabled(s, step) && !JobStep(step) && !step.WriteNext? && !(step.WriteFails? && WrittenNow(s, p))
    ensures GenInv(Next(s, step), p) && Newest(s, p) <= Newest(Next(s, step), p)
  {
    hide HasRows, Differing;
  }

  lemma StepKeepsGenInv(s: State, step: Step, p: Path)
    requires GenInv(s, p) && Enabled(s, step) && !(step.WriteFails? && WrittenNow(s, p))
    ensures GenInv(Next(s, step), p) && Newest(s, p) <= Newest(Next(s, step), p)
  {
    if step.WriteNext? {
      WriteKeepsGenInv(s, p);
    } else if JobStep(step) {
      JobKeepsGenInv(s, step, p);
    } else {
      OtherKeepsGenInv(s, step, p);
    }
    hide GenInv, Enabled, Next, Newest, WrittenNow;
  }

  lemma StepKeepsDead(s: State, step: Step, p: Path, g: nat, h: Hash)
    requires GenInv(s, p) && Enabled(s, step) && !(step.WriteFails? && WrittenNow(s, p))
    requires Dead(s, p, g, h)
    ensures Dead(Next(s, step), p, g, h)
  {
    StepKeepsGenInv(s, step, p);
  }

  lemma {:induction false} RunKeepsDead(s: State, steps: seq<Step>, p: Path, g: nat, h: Hash)
    requires GenInv(s, p) && IsRun(s, steps) && Spared(s, steps, p)
    ensures GenInv(After(s, steps), p) && Newest(s, p) <= Newest(After(s, steps), p)
    ensures Dead(s, p, g, h) ==> Dead(After(s, steps), p, g, h)
    decreases |steps|
  {
    if steps == [] {
    } else {
      StepKeepsGenInv(s, steps[0], p);
      if Dead(s, p, g, h) {
        StepKeepsDead(s, steps[0], p, g, h);
      }
      RunKeepsDead(Next(s, steps[0]), steps[1..], p, g, h);
    }
  }

  /** A live key that was valid and then was not is never valid again, if no
      refresh fails after writing the key's path, at whatever point of a refresh. */
  lemma SparedKeyStaysDead(s0: State, before: seq<Step>, between: seq<Step>, later: seq<Step>, p: Path, g: nat, h: Hash)
    requires Opened(s0) && IsRun(s0, before) && Spared(s0, before, p)
    requires var s1 := After(s0, before); IsRun(s1, between) && Spared(s1, between, p)
    requires var s2 := After(After(s0, before), between); IsRun(s2, later) && Spared(s2, later, p)
    requires KeyValid(After(s0, before), p, g, h) && !KeyValid(After(After(s0, before), between), p, g, h)
    ensures !KeyValid(After(After(After(s0, before), between), later), p, g, h)
  {
    RunKeepsDead(s0, before, p, g, h);
    var s1 := After(s0, before);
    RunKeepsDead(s1, between, p, g, h);
    var s2 := After(s1, between);
    RunKeepsDead(s2, later, p, g, h);
  }

  // ---- keys, whatever fails ----

  /** Rows are at most one generation ahead, and a refresh writes the next one. */
  ghost predicate NextAtMost(s: State, p: Path) {
    && (p in s.store.live ==> s.store.live[p].generation <= s.generation + 1)
    && (s.holder.Refreshing? ==> forall i | 0 <= i < |s.holder.todo| :: s.holder.todo[i].file.generation == s.generation + 1)
  }

  lemma StepKeepsNextAtMost(s: State, step: Step, p: Path)
    requires NextAtMost(s, p) && Enabled(s, step)
    ensures NextAtMost(Next(s, step), p) && s.generation <= Next(s, step).generation
    ensures forall g: nat, h | !KeyValid(s, p, g, h) && g <= s.generation :: !KeyValid(Next(s, step), p, g, h)
  {
  }

  lemma {:induction false} RunKeepsNextAtMost(s: State, steps: seq<Step>, p: Path)
    requires NextAtMost(s, p) && IsRun(s, steps)
    ensures NextAtMost(After(s, steps), p) && s.generation <= After(s, steps).generation
    ensures forall g: nat, h | !KeyValid(s, p, g, h) && g <= s.generation :: !KeyValid(After(s, steps), p, g, h)
    decreases |steps|
  {
    hide NextAtMost, KeyValid, Next, Enabled;
    if steps == [] {
    } else {
      StepKeepsNextAtMost(s, steps[0], p);
      RunKeepsNextAtMost(Next(s, steps[0]), steps[1..], p);
    }
  }

  /** Within one opened workspace, a live key that is not valid and whose generation
      has been reached is never valid again, whatever fails before or after. */
  lemma OverwrittenKeyStaysDead(s0: State, before: seq<Step>, later: seq<Step>, p: Path, g: nat, h: Hash)
    requires Opened(s0) && IsRun(s0, before)
    requires var s := After(s0, before); IsRun(s, later) && g <= s.generation && !KeyValid(s, p, g, h)
    ensures !KeyValid(After(After(s0, before), later), p, g, h)
  {
    RunKeepsNextAtMost(s0, before, p);
    RunKeepsNextAtMost(After(s0, before), later, p);
  }

  /** Some way to go on makes the key valid. */
  ghost predicate MayRevive(s: State, p: Path, g: nat, h: Hash) {
    exists later :: IsRun(s, later) && KeyValid(After(s, later), p, g, h)
  }

  /** A refresh that finds content not shown yet makes its key, at the next generation. */
  lemma WriteMakesKeyValid(s: State, p: Path, h: Hash)
    requires s.holder == Free && Shown(s.store, p) != Some(h)
    ensures MayRevive(s, p, s.generation + 1, h)
  {
    var w := Put(p, LiveFile(h, "", s.generation + 1, false));
    var s1 := Next(s, StartRefresh([w]));
    OneMore(s1, WriteNext, []);
    OneMore(s, StartRefresh([w]), [WriteNext]);
    assert KeyValid(After(s, [StartRefresh([w])] + [WriteNext]), p, s.generation + 1, h);
  }

  /** A row of q that a refresh of s would write. */
  function AnyPut(s: State, q: Path): Put {
    match Shown(s.store, q)
    case None => Put(q, LiveFile("new", "", s.generation + 1, false))
    case Some(h) => Put(q, LiveFile(h, "", s.generation + 1, true))
  }

  /** The file goes while a refresh fails, and comes back. */
  lemma DeletionClearsTheWay(s: State, p: Path, h: Hash)
    requires s.holder == Free && Shown(s.store, p) == Some(h)
    ensures MayRevive(s, p, s.generation + 1, h)
  {
    var a, b := AnyPut(s, p), AnyPut(s, p + "x");
    var s1 := Next(s, StartRefresh([a, b]));
    var s2 := Next(s1, WriteNext);
    var s3 := Next(s2, WriteFails);
    WriteMakesKeyValid(s3, p, h);
    var later :| IsRun(s3, later) && KeyValid(After(s3, later), p, s3.generation + 1, h);
    OneMore(s2, WriteFails, later);
    OneMore(s1, WriteNext, [WriteFails] + later);
    OneMore(s, StartRefresh([a, b]), [WriteNext] + ([WriteFails] + later));
    assert IsRun(s, [StartRefresh([a, b])] + ([WriteNext] + ([WriteFails] + later)));
  }

  /** So, whatever has failed, a key that was valid and is not, seen with the token
      free, can come back exactly when its generation is still to be reached: it
      then comes from a refresh that failed, and the next one writes it again. */
  lemma DeadKeyRevivesIff(s0: State, before: seq<Step>, between: seq<Step>, p: Path, g: nat, h: Hash)
    requires Opened(s0) && IsRun(s0, before) && IsRun(After(s0, before), between)
    requires var s := After(After(s0, before), between);
      KeyValid(After(s0, before), p, g, h) && !KeyValid(s, p, g, h) && s.holder == Free
    ensures var s := After(After(s0, before), between);
      && g <= s.generation + 1
      && (MayRevive(s, p, g, h) <==> g > s.generation)
  {
    RunKeepsNextAtMost(s0, before, p);
    RunKeepsNextAtMost(After(s0, before), between, p);
    var s := After(After(s0, before), between);
    if g > s.generation {
      if Shown(s.store, p) == Some(h) {
        DeletionClearsTheWay(s, p, h);
      } else {
        WriteMakesKeyValid(s, p, h);
      }
    } else {
      forall later | IsRun(s, later)
        ensures !KeyValid(After(s, later), p, g, h)
      {
        RunKeepsNextAtMost(s, later, p);
      }
    }
  }

  /** The generation of a failed refresh is used again, so a key made from it can
      become invalid and then valid once more. */
  lemma FailedWriteRevivesKey()
    ensures
      var before, s1 := [Connect([])] + FailedRefresh("h"), Over(map["a.go" := LiveFile("h", "h", 1, false)]);
      var s2 := Over(map["a.go" := LiveFile("g", "g", 1, false)]);
      && Opened(NEVER_USED) && IsRun(NEVER_USED, before) && After(NEVER_USED, before) == s1 && KeyValid(s1, "a.go", 1, "h")
      && IsRun(s1, FailedRefresh("g")) && After(s1, FailedRefresh("g")) == s2 && !KeyValid(s2, "a.go", 1, "h")
      && IsRun(s2, FailedRefresh("h")) && KeyValid(After(s2, FailedRefresh("h")), "a.go", 1, "h")
  {
    ConnectedRuns("h");
    var a, b := LiveFile("h", "h", 1, false), LiveFile("g", "g", 1, false);
    FailedRefreshRuns(map["a.go" := a], "g");
    assert map["a.go" := a]["a.go" := b] == map["a.go" := b];
    FailedRefreshRuns(map["a.go" := b], "h");
  }
}
