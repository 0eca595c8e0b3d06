/** Reconciling the store with the disk (src/cmd/ragrep/workspace.go): the full
    refresh, the refresh of given paths, and the scheduling of confirmations.
    The disk is what one enumeration saw. */
module Workspace {
  import opened Options
  import opened Codestore
  import opened Overlay
  import opened RefreshRuns
  import opened Sequences
  import opened StoreObject

  /** generated: a .go file whose header marks it as generated. */
  datatype File = File(hash: Hash, body: string, generated: bool)

  type Disk = map<Path, File>

  predicate Under(p: Path, root: string) {
    root == "." || p == root || root + "/" <= p
  }

  predicate UnderAnyRoot(p: Path, roots: set<string>) {
    exists r :: r in roots && Under(p, r)
  }

  /** A path is under a root when the root is the workspace itself, the path, or one of
      the directories above the path. */
  lemma UnderIff(p: Path, root: string)
    ensures Under(p, root) <==> root == "." || p == root || (|p| > |root| && p[..|root|] == root && p[|root|] == '/')
  {
    if |p| > |root| && p[..|root|] == root && p[|root|] == '/' {
      assert p[..|root| + 1] == root + "/";
    }
  }

  /** discoverCodeFiles under every root; eligible stands for the extension
      test and the skipped directories. */
  function Enumerated(disk: Disk, roots: set<string>, eligible: Path -> bool): Disk {
    map p | p in disk && UnderAnyRoot(p, roots) && eligible(p) && !disk[p].generated :: disk[p]
  }

  /** One row of ListWorkspaceFileStates. */
  datatype FileState = FileState(hash: Hash, deleted: bool)

  ghost function Baseline(t: Tables): map<Path, FileState> {
    map p | p in t.live.Keys + Durable(t).Keys ::
      if p in t.live then FileState(t.live[p].hash, t.live[p].deleted) else FileState(Durable(t)[p], false)
  }

  predicate Differs(prev: map<Path, FileState>, p: Path, hash: Hash) {
    p !in prev || prev[p].deleted || prev[p].hash != hash
  }

  predicate Present(prev: map<Path, FileState>, p: Path) {
    p in prev && !prev[p].deleted
  }

  // ---- what the two refreshes write ----

  function LiveRow(file: File, generation: nat): LiveFile {
    LiveFile(file.hash, file.body, generation, false)
  }

  function Tombstone(state: FileState, generation: nat): LiveFile {
    LiveFile(state.hash, "", generation, true)
  }

  function ChangedIn(files: Disk, prev: map<Path, FileState>): set<Path> {
    set p | p in files && Differs(prev, p, files[p].hash)
  }

  function DeletedFrom(files: Disk, prev: map<Path, FileState>, roots: set<string>): set<Path> {
    set p | p in prev && p !in files && !prev[p].deleted && UnderAnyRoot(p, roots)
  }

  function Rows(files: Disk, prev: map<Path, FileState>, changed: set<Path>, deleted: set<Path>, generation: nat): map<Path, LiveFile>
    requires changed <= files.Keys && deleted <= prev.Keys
  {
    (map p | p in changed :: LiveRow(files[p], generation)) + (map p | p in deleted :: Tombstone(prev[p], generation))
  }

  function FullPlan(files: Disk, prev: map<Path, FileState>, roots: set<string>, generation: nat): map<Path, LiveFile> {
    Rows(files, prev, ChangedIn(files, prev), DeletedFrom(files, prev, roots), generation)
  }

  /** A path argument that exists and is not generated. */
  predicate Readable(disk: Disk, p: Path) {
    p in disk && !disk[p].generated
  }

  function PathsChanged(paths: set<Path>, disk: Disk, prev: map<Path, FileState>, roots: set<string>): set<Path> {
    set p | p in paths && UnderAnyRoot(p, roots) && Readable(disk, p) && Differs(prev, p, disk[p].hash)
  }

  function PathsDeleted(paths: set<Path>, disk: Disk, prev: map<Path, FileState>, roots: set<string>): set<Path> {
    set p | p in paths && UnderAnyRoot(p, roots) && !Readable(disk, p) && Present(prev, p)
  }

  function PathsPlan(paths: set<Path>, disk: Disk, prev: map<Path, FileState>, roots: set<string>, generation: nat): map<Path, LiveFile> {
    Rows(disk, prev, PathsChanged(paths, disk, prev, roots), PathsDeleted(paths, disk, prev, roots), generation)
  }

  // ---- what the plans achieve ----

  /** What a reader sees once the rows are written. */
  ghost function ShownAfter(t: Tables, plan: map<Path, LiveFile>, p: Path): Option<Hash> {
    Shown(Abs(t).(live := t.live + plan), p)
  }

  lemma BaselineIsShown(t: Tables, p: Path)
    ensures Shown(Abs(t), p) == if Present(Baseline(t), p) then Some(Baseline(t)[p].hash) else None
  {
  }

  /** A full refresh makes the view under the roots the enumerated snapshot,
      and leaves every other path as it was. */
  lemma FullPlanReachesDisk(t: Tables, files: Disk, roots: set<string>, generation: nat, p: Path)
    requires forall q | q in files :: UnderAnyRoot(q, roots)
    ensures ShownAfter(t, FullPlan(files, Baseline(t), roots, generation), p) ==
            if p in files then Some(files[p].hash) else if UnderAnyRoot(p, roots) then None else Shown(Abs(t), p)
  {
    BaselineIsShown(t, p);
  }

  /** The tables after the rows of a plan were written, and nothing else. */
  ghost predicate Written(t: Tables, t': Tables, plan: map<Path, LiveFile>) {
    && t' == t.(live := t.live + plan, liveFts := t'.liveFts)
    && (LiveFtsAgrees(t) ==> LiveFtsAgrees(t'))
    && (plan == map[] ==> t' == t)
  }

  /** A refresh that failed wrote some of its rows and nothing else. */
  ghost predicate PartlyWritten(t: Tables, t': Tables, plan: map<Path, LiveFile>) {
    exists part :: Written(t, t', part) && Within(part, plan)
  }

  predicate Within(part: map<Path, LiveFile>, plan: map<Path, LiveFile>) {
    forall p | p in part :: p in plan && part[p] == plan[p]
  }

  lemma NothingWritten(t: Tables)
    ensures Written(t, t, map[])
  {
    assert t.live + map[] == t.live;
  }

  lemma NothingPartlyWritten(t: Tables, plan: map<Path, LiveFile>)
    ensures PartlyWritten(t, t, plan)
  {
    NothingWritten(t);
    assert Within(map[], plan);
  }

  lemma OneMoreWritten(t: Tables, t': Tables, plan: map<Path, LiveFile>, p: Path, file: LiveFile)
    requires Written(t, t', plan)
    ensures Written(t, PutLive(t', p, file), plan[p := file])
  {
    hide LiveFtsAgrees;
    if LiveFtsAgrees(t') {
      PutLiveFts(t', p, file);
    }
    assert t.live + plan[p := file] == (t.live + plan)[p := file];
  }

  /** A completed refreshAll: the view under the roots is the enumerated
      snapshot, every other path looks as it did, and a second one over the
      same files writes nothing. */
  lemma RefreshReachesDisk(t: Tables, t': Tables, files: Disk, roots: set<string>, g: nat, p: Path)
    requires OneHash(t) && Written(t, t', FullPlan(files, Baseline(t), roots, g))
    requires forall q | q in files :: UnderAnyRoot(q, roots)
    ensures Shown(Abs(t'), p) ==
            if p in files then Some(files[p].hash) else if UnderAnyRoot(p, roots) then None else Shown(Abs(t), p)
    ensures forall g' :: FullPlan(files, Baseline(t'), roots, g') == map[]
  {
    hide Shown, Baseline, Durable, FullPlan, Rows, UnderAnyRoot;
    SameSymbolsSameDurable(t, t');
    FullPlanReachesDisk(t, files, roots, g, p);
    assert Abs(t') == Abs(t).(live := t.live + FullPlan(files, Baseline(t), roots, g));
    forall g' {
      FullPlanIdempotent(t, t', files, roots, g, g');
    }
  }

  /** A second full refresh over the same files plans nothing. */
  lemma FullPlanIdempotent(t: Tables, t': Tables, files: Disk, roots: set<string>, generation: nat, generation': nat)
    requires OneHash(t) && Written(t, t', FullPlan(files, Baseline(t), roots, generation))
    requires forall q | q in files :: UnderAnyRoot(q, roots)
    ensures ChangedIn(files, Baseline(t')) == {} && DeletedFrom(files, Baseline(t'), roots) == {}
    ensures FullPlan(files, Baseline(t'), roots, generation') == map[]
  {
    hide Shown, Baseline, Durable, FullPlan, Rows, UnderAnyRoot;
    SameSymbolsSameDurable(t, t');
    assert Abs(t') == Abs(t).(live := t.live + FullPlan(files, Baseline(t), roots, generation));
    forall p
      ensures p !in ChangedIn(files, Baseline(t')) && p !in DeletedFrom(files, Baseline(t'), roots)
    {
      FullPlanReachesDisk(t, files, roots, generation, p);
      QuietWhenShown(t', files, roots, p);
    }
    EmptyPlan(files, Baseline(t'), roots, generation');
  }

  lemma EmptyPlan(files: Disk, prev: map<Path, FileState>, roots: set<string>, g: nat)
    requires ChangedIn(files, prev) == {} && DeletedFrom(files, prev, roots) == {}
    ensures FullPlan(files, prev, roots, g) == map[]
  {
    assert FullPlan(files, prev, roots, g).Keys == {};
  }

  lemma QuietWhenShown(t: Tables, files: Disk, roots: set<string>, p: Path)
    requires p in files ==> Shown(Abs(t), p) == Some(files[p].hash)
    requires p !in files && UnderAnyRoot(p, roots) ==> Shown(Abs(t), p) == None
    ensures p !in ChangedIn(files, Baseline(t)) && p !in DeletedFrom(files, Baseline(t), roots)
  {
    BaselineIsShown(t, p);
  }

  /** The snapshot's answer for a path under the roots. */
  function OnDisk(disk: Disk, roots: set<string>, eligible: Path -> bool, p: Path): Option<Hash> {
    var files := Enumerated(disk, roots, eligible);
    if p in files then Some(files[p].hash) else None
  }

  /** Refreshing given paths lands on the same view as refreshing everything
      exactly when every path that is out of date is among the arguments, and
      no argument is a file that enumeration would have skipped. */
  lemma PathsRefineFullIff(t: Tables, disk: Disk, roots: set<string>, eligible: Path -> bool, paths: set<Path>, g: nat)
    ensures
      var files := Enumerated(disk, roots, eligible);
      (forall p :: ShownAfter(t, PathsPlan(paths, disk, Baseline(t), roots, g), p) == ShownAfter(t, FullPlan(files, Baseline(t), roots, g), p))
      <==>
      && (forall p :: UnderAnyRoot(p, roots) && Shown(Abs(t), p) != OnDisk(disk, roots, eligible, p) ==> p in paths)
      && (forall p :: p in paths && UnderAnyRoot(p, roots) && Readable(disk, p) ==> eligible(p))
  {
    forall p {
      PathRefinesFullIff(t, disk, roots, eligible, paths, g, p);
    }
  }

  lemma PathRefinesFullIff(t: Tables, disk: Disk, roots: set<string>, eligible: Path -> bool, paths: set<Path>, g: nat, p: Path)
    ensures
      var files := Enumerated(disk, roots, eligible);
      ShownAfter(t, PathsPlan(paths, disk, Baseline(t), roots, g), p) == ShownAfter(t, FullPlan(files, Baseline(t), roots, g), p)
      <==>
      && (UnderAnyRoot(p, roots) && Shown(Abs(t), p) != OnDisk(disk, roots, eligible, p) ==> p in paths)
      && (p in paths && UnderAnyRoot(p, roots) && Readable(disk, p) ==> eligible(p))
  {
    var files := Enumerated(disk, roots, eligible);
    FullPlanReachesDisk(t, files, roots, g, p);
    PathsPlanShows(t, disk, roots, paths, g, p);
  }

  lemma PathsPlanShows(t: Tables, disk: Disk, roots: set<string>, paths: set<Path>, g: nat, p: Path)
    ensures ShownAfter(t, PathsPlan(paths, disk, Baseline(t), roots, g), p) ==
            if p in paths && UnderAnyRoot(p, roots) then (if Readable(disk, p) then Some(disk[p].hash) else None)
            else Shown(Abs(t), p)
  {
    BaselineIsShown(t, p);
  }

  // ---- the rows themselves, text included ----

  predicate SameLive(t: Tables, t': Tables, p: Path) {
    (p in t'.live <==> p in t.live) && (p in t.live ==> t'.live[p] == t.live[p])
  }

  /** p has a live row of this file's hash and text. */
  predicate HasText(t: Tables, p: Path, file: File, generation: nat) {
    && p in t.live && !t.live[p].deleted && t.live[p].hash == file.hash && t.live[p].body == file.body
    && t.live[p].generation == generation
  }

  /** p has a tombstone for the content of that hash. */
  predicate HasTombstone(t: Tables, p: Path, hash: Hash, generation: nat) {
    && p in t.live && t.live[p].deleted && t.live[p].hash == hash && t.live[p].body == ""
    && t.live[p].generation == generation
  }

  /** What a full refresh, if it writes p at all, makes of p's live row. */
  ghost predicate FullRow(t: Tables, t': Tables, files: Disk, roots: set<string>, generation: nat, p: Path) {
    if p in files && Shown(Abs(t), p) != Some(files[p].hash) then HasText(t', p, files[p], generation)
    else if p !in files && UnderAnyRoot(p, roots) && Shown(Abs(t), p).Some?
    then HasTombstone(t', p, Shown(Abs(t), p).value, generation)
    else SameLive(t, t', p)
  }

  /** A completed full refresh stores the text of every file that looked different, a
      tombstone for every file that is gone, and leaves all other live rows; one that
      failed did so for some paths and left the others. */
  lemma RefreshWritesRows(t: Tables, t': Tables, files: Disk, roots: set<string>, generation: nat, p: Path)
    ensures Written(t, t', FullPlan(files, Baseline(t), roots, generation)) ==> FullRow(t, t', files, roots, generation, p)
    ensures PartlyWritten(t, t', FullPlan(files, Baseline(t), roots, generation)) ==>
              SameLive(t, t', p) || FullRow(t, t', files, roots, generation, p)
  {
    FullPlanAt(t, files, roots, generation, p);
    hide FullPlan, Baseline, Durable, UnderAnyRoot, LiveFtsAgrees, Shown;
  }

  lemma FullPlanAt(t: Tables, files: Disk, roots: set<string>, generation: nat, p: Path)
    ensures
      var plan, shown := FullPlan(files, Baseline(t), roots, generation), Shown(Abs(t), p);
      if p in files && shown != Some(files[p].hash) then p in plan && plan[p] == LiveFile(files[p].hash, files[p].body, generation, false)
      else if p !in files && UnderAnyRoot(p, roots) && shown.Some? then p in plan && plan[p] == LiveFile(shown.value, "", generation, true)
      else p !in plan
  {
    BaselineIsShown(t, p);
    hide Durable, UnderAnyRoot;
  }

  /** What a refresh of given paths makes of p's live row. */
  ghost predicate PathRow(t: Tables, t': Tables, paths: set<Path>, disk: Disk, roots: set<string>, generation: nat, p: Path) {
    if p !in paths || !UnderAnyRoot(p, roots) then SameLive(t, t', p)
    else if p in disk && !disk[p].generated then
      (if Shown(Abs(t), p) == Some(disk[p].hash) then SameLive(t, t', p) else HasText(t', p, disk[p], generation))
    else if Shown(Abs(t), p).Some? then HasTombstone(t', p, Shown(Abs(t), p).value, generation)
    else SameLive(t, t', p)
  }

  lemma PathsWriteRows(t: Tables, t': Tables, paths: set<Path>, disk: Disk, roots: set<string>, generation: nat, p: Path)
    ensures Written(t, t', PathsPlan(paths, disk, Baseline(t), roots, generation)) ==> PathRow(t, t', paths, disk, roots, generation, p)
    ensures PartlyWritten(t, t', PathsPlan(paths, disk, Baseline(t), roots, generation)) ==>
              SameLive(t, t', p) || PathRow(t, t', paths, disk, roots, generation, p)
  {
    PathsPlanAt(t, paths, disk, roots, generation, p);
    hide PathsPlan, Baseline, Durable, UnderAnyRoot, LiveFtsAgrees, Shown;
  }

  lemma PathsPlanAt(t: Tables, paths: set<Path>, disk: Disk, roots: set<string>, generation: nat, p: Path)
    ensures
      var plan, shown, there := PathsPlan(paths, disk, Baseline(t), roots, generation), Shown(Abs(t), p), p in disk && !disk[p].generated;
      if p !in paths || !UnderAnyRoot(p, roots) then p !in plan
      else if there && shown != Some(disk[p].hash) then p in plan && plan[p] == LiveFile(disk[p].hash, disk[p].body, generation, false)
      else if !there && shown.Some? then p in plan && plan[p] == LiveFile(shown.value, "", generation, true)
      else p !in plan
  {
    BaselineIsShown(t, p);
    hide Durable, UnderAnyRoot;
  }

  // ---- the rows in the order in which they are written ----

  function Elements(paths: seq<Path>): set<Path> {
    set p | p in paths
  }

  lemma NoElements()
    ensures Elements([]) == {}
  {
  }

  lemma OneMoreElement(paths: seq<Path>, p: Path)
    ensures Elements(paths + [p]) == Elements(paths) + {p}
  {
  }

  function LivePuts(files: Disk, changed: seq<Path>, g: nat): (puts: seq<Put>)
    requires Elements(changed) <= files.Keys
    ensures |puts| == |changed| && forall i :: 0 <= i < |changed| ==> changed[i] in files && puts[i] == Put(changed[i], LiveRow(files[changed[i]], g))
  {
    seq(|changed|, i requires 0 <= i < |changed| && changed[i] in files => Put(changed[i], LiveRow(files[changed[i]], g)))
  }

  function TombstonePuts(prev: map<Path, FileState>, deleted: seq<Path>, g: nat): (puts: seq<Put>)
    requires Elements(deleted) <= prev.Keys
    ensures |puts| == |deleted| && forall i :: 0 <= i < |deleted| ==> deleted[i] in prev && puts[i] == Put(deleted[i], Tombstone(prev[deleted[i]], g))
  {
    seq(|deleted|, i requires 0 <= i < |deleted| && deleted[i] in prev => Put(deleted[i], Tombstone(prev[deleted[i]], g)))
  }

  function Puts(files: Disk, prev: map<Path, FileState>, changed: seq<Path>, deleted: seq<Path>, g: nat): seq<Put>
    requires Elements(changed) <= files.Keys && Elements(deleted) <= prev.Keys
  {
    LivePuts(files, changed, g) + TombstonePuts(prev, deleted, g)
  }

  function PlanOf(puts: seq<Put>): map<Path, LiveFile> {
    if puts == [] then map[] else PlanOf(puts[..|puts| - 1])[puts[|puts| - 1].path := puts[|puts| - 1].file]
  }

  lemma {:induction false} PutAllWrites(t: Tables, puts: seq<Put>)
    ensures Written(t, PutAll(t, puts), PlanOf(puts))
  {
    hide Written, PutLive;
    if puts == [] {
      NothingWritten(t);
    } else {
      var n := |puts| - 1;
      PutAllWrites(t, puts[..n]);
      OneMoreWritten(t, PutAll(t, puts[..n]), PlanOf(puts[..n]), puts[n].path, puts[n].file);
    }
  }

  lemma {:induction false} PlanOfIs(puts: seq<Put>, plan: map<Path, LiveFile>)
    requires forall w | w in puts :: w.path in plan && plan[w.path] == w.file
    ensures Within(PlanOf(puts), plan) && forall p :: p in PlanOf(puts) <==> exists w :: w in puts && w.path == p
  {
    if puts == [] {
    } else {
      var n := |puts| - 1;
      assert puts == puts[..n] + [puts[n]];
      PlanOfIs(puts[..n], plan);
    }
  }

  lemma PutsInPlan(files: Disk, prev: map<Path, FileState>, changed: seq<Path>, deleted: seq<Path>, g: nat)
    requires Elements(changed) <= files.Keys && Elements(deleted) <= prev.Keys && Elements(changed) !! Elements(deleted)
    ensures var puts, plan := Puts(files, prev, changed, deleted, g), Rows(files, prev, Elements(changed), Elements(deleted), g);
      && (forall w | w in puts :: w.path in plan && plan[w.path] == w.file)
      && (puts == [] <==> plan == map[])
  {
    hide LiveRow, Tombstone;
    var puts, plan := Puts(files, prev, changed, deleted, g), Rows(files, prev, Elements(changed), Elements(deleted), g);
    RowsSplit(files, prev, Elements(changed), Elements(deleted), g);
    hide Rows;
    forall i | 0 <= i < |puts|
      ensures puts[i].path in plan && plan[puts[i].path] == puts[i].file
    {
      assert i < |changed| ==> changed[i] in Elements(changed);
      assert i >= |changed| ==> deleted[i - |changed|] in Elements(deleted);
    }
    assert changed != [] ==> changed[0] in Elements(changed);
    assert deleted != [] ==> deleted[0] in Elements(deleted);
  }

  /** Writing the rows one by one writes the plan, or part of it. */
  lemma PutsWritePlan(t: Tables, files: Disk, prev: map<Path, FileState>, changed: seq<Path>, deleted: seq<Path>, g: nat, n: nat)
    requires Elements(changed) <= files.Keys && Elements(deleted) <= prev.Keys && Elements(changed) !! Elements(deleted)
    requires n <= |Puts(files, prev, changed, deleted, g)|
    ensures var puts, plan := Puts(files, prev, changed, deleted, g), Rows(files, prev, Elements(changed), Elements(deleted), g);
      && PartlyWritten(t, PutAll(t, puts[..n]), plan)
      && (n == |puts| ==> Written(t, PutAll(t, puts), plan))
      && (puts == [] <==> plan == map[])
  {
    var puts, plan := Puts(files, prev, changed, deleted, g), Rows(files, prev, Elements(changed), Elements(deleted), g);
    PutsInPlan(files, prev, changed, deleted, g);
    PlanIsPut(files, prev, changed, deleted, g);
    hide *;
    PutAllWrites(t, puts[..n]);
    PlanOfIs(puts[..n], plan);
    IsPart(t, PutAll(t, puts[..n]), PlanOf(puts[..n]), plan);
    if n == |puts| {
      assert puts[..n] == puts;
      WholePart(PlanOf(puts), plan);
    }
  }

  lemma IsPart(t: Tables, t': Tables, part: map<Path, LiveFile>, plan: map<Path, LiveFile>)
    requires Written(t, t', part) && Within(part, plan)
    ensures PartlyWritten(t, t', plan)
  {
  }

  lemma WholePart(part: map<Path, LiveFile>, plan: map<Path, LiveFile>)
    requires Within(part, plan) && forall p | p in plan :: p in part
    ensures part == plan
  {
  }

  lemma PlanIsPut(files: Disk, prev: map<Path, FileState>, changed: seq<Path>, deleted: seq<Path>, g: nat)
    requires Elements(changed) <= files.Keys && Elements(deleted) <= prev.Keys && Elements(changed) !! Elements(deleted)
    ensures forall p | p in Rows(files, prev, Elements(changed), Elements(deleted), g) ::
      exists w :: w in Puts(files, prev, changed, deleted, g) && w.path == p
  {
    RowsSplit(files, prev, Elements(changed), Elements(deleted), g);
    hide Rows, Puts, Elements;
    forall p | p in Rows(files, prev, Elements(changed), Elements(deleted), g)
      ensures exists w :: w in Puts(files, prev, changed, deleted, g) && w.path == p
    {
      PathIsPut(files, prev, changed, deleted, g, p);
    }
  }

  lemma PathIsPut(files: Disk, prev: map<Path, FileState>, changed: seq<Path>, deleted: seq<Path>, g: nat, p: Path)
    requires Elements(changed) <= files.Keys && Elements(deleted) <= prev.Keys && p in Elements(changed) + Elements(deleted)
    ensures exists w :: w in Puts(files, prev, changed, deleted, g) && w.path == p
  {
    var puts := Puts(files, prev, changed, deleted, g);
    if p in changed {
      var i :| 0 <= i < |changed| && changed[i] == p;
      assert puts[i] in puts && puts[i].path == p;
    } else {
      var i :| 0 <= i < |deleted| && deleted[i] == p;
      assert puts[|changed| + i] in puts && puts[|changed| + i].path == p;
    }
  }

  /** The protocol lets a refresh write those rows. */
  lemma CanStart(s: State, t: Tables, files: Disk, changed: seq<Path>, deleted: seq<Path>)
    requires s.holder == Free && s.store == Abs(t)
    requires Elements(changed) <= files.Keys && forall p | p in Elements(changed) :: Differs(Baseline(t), p, files[p].hash)
    requires Elements(deleted) <= Baseline(t).Keys && forall p | p in Elements(deleted) :: Present(Baseline(t), p)
    requires Elements(changed) !! Elements(deleted)
    ensures Enabled(s, StartRefresh(Puts(files, Baseline(t), changed, deleted, s.generation + 1)))
  {
    var puts := Puts(files, Baseline(t), changed, deleted, s.generation + 1);
    hide Baseline, Durable;
    forall i | 0 <= i < |puts|
      ensures puts[i].file.generation == s.generation + 1 && Differing(s.store, puts[i])
    {
      BaselineIsShown(t, puts[i].path);
    }
    forall i, j | 0 <= i < j < |puts| && puts[i].path == puts[j].path
      ensures puts[i] == puts[j]
    {
      assert i < |changed| ==> puts[i].path in Elements(changed);
      assert j >= |changed| ==> puts[j].path in Elements(deleted);
    }
  }

  /** Taking the changed files in another order schedules the same confirmations. */
  lemma SameConfirmations(files: Disk, prev: map<Path, FileState>, changed: seq<Path>, again: seq<Path>, deleted: seq<Path>, g: nat)
    requires Elements(changed) == Elements(again) <= files.Keys && Elements(deleted) <= prev.Keys
    requires Distinct(changed) && Distinct(again)
    ensures multiset(ConfsOf(Puts(files, prev, again, deleted, g))) == multiset(ConfsOf(Puts(files, prev, changed, deleted, g)))
  {
    var a, b, c := ConfsOf(LivePuts(files, again, g)), ConfsOf(LivePuts(files, changed, g)), ConfsOf(TombstonePuts(prev, deleted, g));
    SubConfs(files, changed, again, g);
    SubConfs(files, again, changed, g);
    Rearranged(a, b);
    assert ConfsOf(Puts(files, prev, again, deleted, g)) == a + c;
    assert ConfsOf(Puts(files, prev, changed, deleted, g)) == b + c;
  }

  lemma SubConfs(files: Disk, a: seq<Path>, b: seq<Path>, g: nat)
    requires Elements(a) == Elements(b) <= files.Keys
    ensures forall c :: c in ConfsOf(LivePuts(files, a, g)) ==> c in ConfsOf(LivePuts(files, b, g))
  {
    forall c | c in ConfsOf(LivePuts(files, a, g))
      ensures c in ConfsOf(LivePuts(files, b, g))
    {
      var i :| 0 <= i < |a| && ConfsOf(LivePuts(files, a, g))[i] == c;
      assert a[i] in Elements(b);
      var j :| 0 <= j < |b| && b[j] == a[i];
      assert ConfsOf(LivePuts(files, b, g))[j] == c;
    }
  }

  // ---- the object ----

  datatype Outcome = Done | Syncing | ReadOrWriteError

  /** The protocol state has these values; every confirmation still running is one of
      those started. */
  predicate Mirrors(s: State, store: Overlaid, generation: nat, connected: bool, closed: bool, pending: set<Conf>, started: seq<Conf>) {
    && s.store == store && s.generation == generation && s.connected == connected && s.closed == closed
    && s.pending == pending && Started(s, started)
  }

  lemma MirrorsStart(s: State, store: Overlaid, generation: nat, connected: bool, closed: bool, pending: set<Conf>, started: seq<Conf>)
    requires Mirrors(s, store, generation, connected, closed, pending, started)
    ensures s.store == store && s.generation == generation && Started(s, started)
  {
  }

  lemma AfterRefresh(s: State, s': State, store: Overlaid, generation: nat, connected: bool, closed: bool, pending: set<Conf>, started: seq<Conf>, order: seq<Conf>)
    requires Mirrors(s, store, generation, connected, closed, pending, started)
    requires s'.connected == s.connected && s'.closed == s.closed
    requires s'.pending == PendingAfter(s, order) && Started(s', StartedAfter(s, started, order))
    ensures Mirrors(s', s'.store, s'.generation, connected, closed, if closed || connected then pending else pending + AsSet(order),
              if closed || !connected then started else started + order)
  {
  }

  lemma ConnectStarts(s: State, store: Overlaid, generation: nat, connected: bool, pending: set<Conf>, started: seq<Conf>, order: seq<Conf>)
    requires Mirrors(s, store, generation, connected, false, pending, started) && forall c :: c in order <==> c in pending
    ensures Enabled(s, Connect(order)) && Mirrors(Next(s, Connect(order)), store, generation, true, false, {}, started + order)
  {
  }

  lemma AfterFailure(s: State, store: Overlaid, store': Overlaid, generation: nat, connected: bool, closed: bool, pending: set<Conf>, started: seq<Conf>)
    requires Mirrors(s, store, generation, connected, closed, pending, started)
    ensures Mirrors(s.(store := store', holder := Free), store', generation, connected, closed, pending, started)
  {
  }

  class WorkspaceState {
    const store: Store
    const roots: set<string>
    var generation: nat
    var fullRefreshRequired: bool
    var connected: bool                // confirmPath has been set
    var closed: bool
    var pending: set<Conf>             // pendingConfirmations
    var running: seq<Conf>             // confirmation goroutines, in start order

    /** The protocol state s is that of this object and its store. */
    ghost predicate Shows(s: State)
      reads this, store
    {
      Mirrors(s, Abs(store.View()), generation, connected, closed, pending, running)
    }

    constructor (store: Store, roots: set<string>)
      requires OneHash(store.View())
      ensures this.store == store && this.roots == roots
      ensures !connected && !closed && !fullRefreshRequired && running == []
      ensures forall p | p in store.live :: Conf(p, store.live[p].hash) in pending && store.live[p].generation <= generation
      ensures generation == 0 || exists p :: p in store.live && store.live[p].generation == generation
      ensures var s := State(Abs(store.View()), generation, false, false, pending, map[], 0, Free); Opened(s) && Shows(s)
    {
      this.store, this.roots := store, roots;
      connected, closed, fullRefreshRequired, running := false, false, false, [];
      var top, confs := 0, {};
      var rest := store.live.Keys;
      while rest != {}
        invariant rest <= store.live.Keys
        invariant forall p | p in store.live && p !in rest :: Conf(p, store.live[p].hash) in confs && store.live[p].generation <= top
        invariant top == 0 || exists p :: p in store.live && store.live[p].generation == top
        decreases |rest|
      {
        var p :| p in rest;
        if store.live[p].generation > top {
          top := store.live[p].generation;
        }
        confs := confs + {Conf(p, store.live[p].hash)};
        rest := rest - {p};
      }
      generation, pending := top, confs;
    }

    /** ListWorkspaceFileStates as a map: live rows, then durable paths without one. */
    method ListFileStates(ghost s: State) returns (ok: bool, states: map<Path, FileState>)
      requires OneHash(store.View()) && Shows(s)
      modifies store`failures
      ensures Shows(s) && (ok <==> store.failures == old(store.failures)) && store.failures >= old(store.failures)
      ensures ok ==> states == Baseline(store.View())
    {
      var hashes;
      ok, hashes := store.DurableHashes();
      states := map p | p in store.live.Keys + hashes.Keys ::
        if p in store.live then FileState(store.live[p].hash, store.live[p].deleted) else FileState(hashes[p], false);
    }

    /** Some order of the paths: sorted, or the map's own. */
    method Ordered(paths: set<Path>) returns (order: seq<Path>)
      ensures Elements(order) == paths && Distinct(order)
    {
      order := [];
      var rest := paths;
      while rest != {}
        invariant Elements(order) == paths - rest && rest <= paths && Distinct(order)
        decreases |rest|
      {
        var p :| p in rest;
        OneMoreElement(order, p);
        order := order + [p];
        rest := rest - {p};
      }
    }

    /** The loops over PutLiveFile: one transaction a path. */
    method PutFiles(files: Disk, changed: seq<Path>, g: nat) returns (ok: bool, ghost n: nat)
      requires Elements(changed) <= files.Keys
      modifies store
      ensures store.failures == old(store.failures) + if ok then 0 else 1
      ensures n <= |changed| && (ok <==> n == |changed|)
      ensures store.View() == PutAll(old(store.View()), LivePuts(files, changed, g)[..n])
    {
      ghost var puts := LivePuts(files, changed, g);
      n := 0;
      for i := 0 to |changed|
        invariant n == i && store.failures == old(store.failures) && store.View() == PutAll(old(store.View()), puts[..i])
      {
        var p := changed[i];
        assert puts[..i + 1][..i] == puts[..i] && puts[..i + 1][i] == Put(p, LiveRow(files[p], g));
        ok := store.PutLiveFile(p, files[p].hash, files[p].body, g);
        if !ok {
          return;
        }
        n := n + 1;
      }
      ok := true;
    }

    method PutTombstones(prev: map<Path, FileState>, deleted: seq<Path>, g: nat) returns (ok: bool, ghost n: nat)
      requires Elements(deleted) <= prev.Keys
      modifies store
      ensures store.failures == old(store.failures) + if ok then 0 else 1
      ensures n <= |deleted| && (ok <==> n == |deleted|)
      ensures store.View() == PutAll(old(store.View()), TombstonePuts(prev, deleted, g)[..n])
    {
      ghost var puts := TombstonePuts(prev, deleted, g);
      n := 0;
      for i := 0 to |deleted|
        invariant n == i && store.failures == old(store.failures) && store.View() == PutAll(old(store.View()), puts[..i])
      {
        var p := deleted[i];
        assert puts[..i + 1][..i] == puts[..i] && puts[..i + 1][i] == Put(p, Tombstone(prev[p], g));
        ok := store.PutLiveDeletion(p, prev[p].hash, g);
        if !ok {
          return;
        }
        n := n + 1;
      }
      ok := true;
    }

    method ScheduleConfirmation(c: Conf)
      modifies this`pending, this`running
      ensures pending == if closed || connected then old(pending) else old(pending) + {c}
      ensures running == if closed || !connected then old(running) else old(running) + [c]
    {
      if closed {
        return;
      }
      if !connected {
        pending := pending + {c};
      } else {
        running := running + [c];
      }
    }

    predicate Queued(c: Conf)
      reads this
    {
      if connected then c in running else c in pending
    }

    method ScheduleAll(confs: seq<Conf>)
      modifies this`pending, this`running
      ensures pending == if closed || connected then old(pending) else old(pending) + AsSet(confs)
      ensures running == if closed || !connected then old(running) else old(running) + confs
    {
      for i := 0 to |confs|
        invariant pending == if closed || connected then old(pending) else old(pending) + AsSet(confs[..i])
        invariant running == if closed || !connected then old(running) else old(running) + confs[..i]
      {
        assert confs[..i + 1] == confs[..i] + [confs[i]];
        ScheduleConfirmation(confs[i]);
      }
      assert confs[..|confs|] == confs;
    }

    method SetConfirmation(ghost s: State)
      requires Shows(s)
      modifies this`connected, this`pending, this`running
      ensures closed ==> connected == old(connected) && pending == old(pending) && running == old(running)
      ensures !closed ==> connected && pending == {} && old(running) <= running && |running| == |old(running)| + |old(pending)|
      ensures !closed ==> forall c :: c in old(pending) <==> c in running[|old(running)|..]
      ensures !closed ==>
                var step := Connect(running[|old(running)|..]);
                Enabled(s, step) && Shows(Next(s, step))
    {
      if closed {
        return;
      }
      ghost var started0 := running;
      connected := true;
      var waiting, started := pending, [];
      pending := {};
      while waiting != {}
        invariant connected && pending == {} && waiting <= old(pending)
        invariant running == old(running) + started && |started| + |waiting| == |old(pending)|
        invariant forall c :: c in old(pending) <==> c in waiting || c in started
        decreases |waiting|
      {
        var c :| c in waiting;
        running := running + [c];
        started := started + [c];
        waiting := waiting - {c};
      }
      assert running[|old(running)|..] == started;
      ConnectStarts(s, Abs(store.View()), generation, old(connected), old(pending), started0, started);
    }

    /** Nothing but the store can have moved. */
    twostate predicate Unmoved()
      reads this
    {
      generation == old(generation) && pending == old(pending) && running == old(running)
    }

    /** refreshAll over one enumeration of the disk, None if it could not be read. */
    method RefreshAll(found: Option<Disk>, ghost s: State) returns (outcome: Outcome, ghost steps: seq<Step>)
      requires Shows(s) && s.holder == Free
      requires OneHash(store.View()) && (found.Some? ==> forall p | p in found.value :: UnderAnyRoot(p, roots))
      modifies store, this`generation, this`pending, this`running
      ensures outcome == Done <==> found.Some? && store.failures == old(store.failures)
      ensures outcome != Syncing && (found.None? ==> outcome == ReadOrWriteError && store.View() == old(store.View()))
      ensures Refreshed(s, steps, outcome)
      ensures outcome == Done ==>
                var plan := FullPlan(found.value, Baseline(old(store.View())), roots, old(generation) + 1);
                Written(old(store.View()), store.View(), plan) && Stepped(plan)
      ensures outcome == ReadOrWriteError ==> Unmoved()
      ensures outcome == ReadOrWriteError && found.Some? ==>
                PartlyWritten(old(store.View()), store.View(), FullPlan(found.value, Baseline(old(store.View())), roots, old(generation) + 1))
    {
      hide Written, Rows, Baseline, UnderAnyRoot, PartlyWritten, Shows, Refreshed, Durable, OneHash;
      if found.None? {
        NoSteps(s);
        return ReadOrWriteError, [];
      }
      var files := found.value;
      var ok, states := ListFileStates(s);
      if !ok {
        NothingPartlyWritten(store.View(), FullPlan(files, Baseline(store.View()), roots, generation + 1));
        NoSteps(s);
        return ReadOrWriteError, [];
      }
      var changed := Ordered(ChangedIn(files, states));
      var deleted := Ordered(DeletedFrom(files, states, roots));
      outcome, steps := WriteAndSchedule(files, states, changed, deleted, changed, s);
    }

    /** refreshPaths: the given paths, read from the disk one by one up to the first
        that cannot be read. */
    method RefreshPaths(paths: seq<Path>, disk: Disk, unreadable: set<Path>, ghost s: State) returns (outcome: Outcome, ghost steps: seq<Step>)
      requires Shows(s) && s.holder == Free && OneHash(store.View())
      modifies store, this`generation, this`pending, this`running
      ensures outcome == Done <==>
                !fullRefreshRequired && store.failures == old(store.failures) && forall p :: p in paths && UnderAnyRoot(p, roots) ==> p !in unreadable
      ensures outcome == Syncing <==> fullRefreshRequired
      ensures Refreshed(s, steps, outcome)
      ensures outcome == Done ==>
                var plan := PathsPlan(Elements(paths), disk, Baseline(old(store.View())), roots, old(generation) + 1);
                Written(old(store.View()), store.View(), plan) && Stepped(plan)
      ensures outcome != Done ==> Unmoved()
      ensures outcome == ReadOrWriteError ==>
                PartlyWritten(old(store.View()), store.View(), PathsPlan(Elements(paths), disk, Baseline(old(store.View())), roots, old(generation) + 1))
    {
      hide Written, Rows, Baseline, UnderAnyRoot, PartlyWritten, Shows, Refreshed, Durable, OneHash;
      if fullRefreshRequired {
        NoSteps(s);
        return Syncing, [];
      }
      var ok, states := ListFileStates(s);
      var found, deleted: seq<Path> := {}, [];
      if ok {
        ok, found, deleted := SortPaths(paths, disk, unreadable, states);
      }
      if !ok {
        NothingPartlyWritten(store.View(), PathsPlan(Elements(paths), disk, Baseline(store.View()), roots, generation + 1));
        NoSteps(s);
        return ReadOrWriteError, [];
      }
      var changed := Ordered(found);
      var again := Ordered(found);
      outcome, steps := WriteAndSchedule(disk, states, changed, deleted, again, s);
    }

    /** The loop of refreshPaths over its arguments. */
    method SortPaths(paths: seq<Path>, disk: Disk, unreadable: set<Path>, states: map<Path, FileState>)
        returns (ok: bool, changed: set<Path>, deleted: seq<Path>)
      ensures ok <==> forall p :: p in paths && UnderAnyRoot(p, roots) ==> p !in unreadable
      ensures ok ==> changed == PathsChanged(Elements(paths), disk, states, roots)
      ensures ok ==> Elements(deleted) == PathsDeleted(Elements(paths), disk, states, roots)
    {
      changed, deleted := {}, [];
      ghost var seen: set<Path> := {};
      for n := 0 to |paths|
        invariant seen == Elements(paths[..n]) && forall p :: p in seen && UnderAnyRoot(p, roots) ==> p !in unreadable
        invariant changed == PathsChanged(seen, disk, states, roots)
        invariant Elements(deleted) == PathsDeleted(seen, disk, states, roots)
      {
        var p := paths[n];
        assert Elements(paths[..n + 1]) == seen + {p};
        seen := seen + {p};
        if !UnderAnyRoot(p, roots) {
          continue;
        }
        if p in unreadable {
          return false, changed, deleted;
        }
        if p in disk && !disk[p].generated {
          if Differs(states, p, disk[p].hash) {
            changed := changed + {p};
          }
          continue;
        }
        if Present(states, p) {
          OneMoreElement(deleted, p);
          deleted := deleted + [p];
        }
      }
      assert paths[..|paths|] == paths;
      ok := true;
    }

    /** The generation moves, and every written row gets a confirmation, exactly when something was written. */
    twostate predicate Stepped(plan: map<Path, LiveFile>)
      reads this
    {
      if plan == map[] then generation == old(generation) && pending == old(pending) && running == old(running)
      else generation == old(generation) + 1 && (!closed ==> forall p | p in plan :: Queued(Conf(p, plan[p].hash)))
    }

    /** What the refresh did is a run of the protocol that ends with the token free. */
    ghost predicate Refreshed(s: State, steps: seq<Step>, outcome: Outcome)
      reads this, store
    {
      && Overlay.IsRun(s, steps) && Shows(After(s, steps)) && After(s, steps).holder == Free
      && (outcome == Done <==> steps != [] && steps[|steps| - 1] == EndRefresh)
    }

    method PutRows(files: Disk, prev: map<Path, FileState>, changed: seq<Path>, deleted: seq<Path>, g: nat) returns (ok: bool, ghost n: nat)
      requires Elements(changed) <= files.Keys && Elements(deleted) <= prev.Keys
      modifies store
      ensures store.failures == old(store.failures) + if ok then 0 else 1
      ensures n <= |changed| + |deleted| && (ok <==> n == |changed| + |deleted|)
      ensures store.View() == PutAll(old(store.View()), Puts(files, prev, changed, deleted, g)[..n])
    {
      hide PutAll, Elements, LivePuts, TombstonePuts;
      ghost var t, live, gone := store.View(), LivePuts(files, changed, g), TombstonePuts(prev, deleted, g);
      ghost var m;
      ok, n := PutFiles(files, changed, g);
      Prefixes(live, gone, n, 0);
      if ok {
        ok, m := PutTombstones(prev, deleted, g);
        Prefixes(live, gone, n, m);
        PutAllSplit(t, live, gone[..m]);
        n := n + m;
      }
    }

    /** The generation and the confirmations once a refresh has scheduled `order`. */
    twostate predicate Moved(order: seq<Conf>)
      reads this
    {
      && generation == (if order == [] then old(generation) else old(generation) + 1)
      && pending == (if closed || connected then old(pending) else old(pending) + AsSet(order))
      && running == (if closed || !connected then old(running) else old(running) + order)
    }

    /** The rows, then the generation, then one confirmation a row. */
    method WriteInOrder(files: Disk, prev: map<Path, FileState>, changed: seq<Path>, deleted: seq<Path>, again: seq<Path>)
        returns (ok: bool, ghost n: nat)
      requires Elements(changed) == Elements(again) <= files.Keys && Elements(deleted) <= prev.Keys
      modifies store, this`generation, this`pending, this`running
      ensures store.failures == old(store.failures) + if ok then 0 else 1
      ensures var puts := Puts(files, prev, changed, deleted, old(generation) + 1);
        n <= |puts| && (ok <==> n == |puts|) && store.View() == PutAll(old(store.View()), puts[..n])
      ensures ok ==> Moved(ConfsOf(Puts(files, prev, again, deleted, old(generation) + 1)))
      ensures !ok ==> Unmoved()
    {
      var next := generation + 1;
      SameEmptiness(changed, again);
      if changed == [] && deleted == [] {
        n := 0;
        return true, n;
      }
      hide PutAll, Elements;
      ok, n := PutRows(files, prev, changed, deleted, next);
      if !ok {
        return;
      }
      generation := next;
      ScheduleAll(ConfsOf(Puts(files, prev, again, deleted, next)));
    }

    /** The common tail of both refreshes; `again` is the order in which the changed
        files are scheduled. */
    method WriteAndSchedule(files: Disk, prev: map<Path, FileState>, changed: seq<Path>, deleted: seq<Path>, again: seq<Path>, ghost s: State)
        returns (outcome: Outcome, ghost steps: seq<Step>)
      requires Shows(s) && s.holder == Free && OneHash(store.View()) && prev == Baseline(store.View())
      requires Elements(changed) == Elements(again) <= files.Keys && Distinct(changed) && Distinct(again)
      requires forall p | p in Elements(changed) :: Differs(prev, p, files[p].hash)
      requires Elements(deleted) <= prev.Keys && (forall p | p in Elements(deleted) :: Present(prev, p)) && Elements(changed) !! Elements(deleted)
      modifies store, this`generation, this`pending, this`running
      ensures store.failures == old(store.failures) + if outcome == Done then 0 else 1
      ensures outcome != Syncing && Refreshed(s, steps, outcome)
      ensures outcome == Done ==>
                var plan := Rows(files, prev, Elements(changed), Elements(deleted), old(generation) + 1);
                Written(old(store.View()), store.View(), plan) && Stepped(plan)
      ensures outcome == ReadOrWriteError ==>
                Unmoved() && PartlyWritten(old(store.View()), store.View(), Rows(files, prev, Elements(changed), Elements(deleted), old(generation) + 1))
    {
      hide Durable, Baseline, Rows, Written, PartlyWritten, Abs, OneHash, Differs, Present, Puts, ConfsOf, Elements, Distinct;
      hide Mirrors, Refreshed, Leads, Enabled, PutAll, RefreshSteps, FailedSteps, PendingAfter, StartedAfter;
      ghost var t, started, g := store.View(), running, generation + 1;
      MirrorsStart(s, Abs(t), generation, connected, closed, pending, started);
      ghost var puts, order := Puts(files, prev, changed, deleted, g), ConfsOf(Puts(files, prev, again, deleted, g));
      CanStart(s, t, files, changed, deleted);
      SameConfirmations(files, prev, changed, again, deleted, g);
      PlanScheduled(files, prev, again, deleted, g);
      SameLength(puts, order);
      ghost var s' := RefreshIsRun(s, t, puts, order, started);
      AfterRefresh(s, s', Abs(t), generation, connected, closed, pending, started, order);
      var ok, n := WriteInOrder(files, prev, changed, deleted, again);
      PutsWritePlan(t, files, prev, changed, deleted, g, n);
      assert puts[..|puts|] == puts;
      if ok {
        LedTo(s, puts, order, s');
        outcome, steps := Done, RefreshSteps(puts, order);
      } else {
        FailedRefreshIsRun(s, t, puts, n);
        AfterFailure(s, Abs(t), Abs(store.View()), generation, connected, closed, pending, started);
        LedToFailure(s, puts, n);
        outcome, steps := ReadOrWriteError, FailedSteps(puts, n);
      }
    }

    lemma LedTo(s: State, puts: seq<Put>, order: seq<Conf>, s': State)
      requires Leads(s, RefreshSteps(puts, order), s') && Shows(s') && s'.holder == Free
      ensures Refreshed(s, RefreshSteps(puts, order), Done)
    {
    }

    lemma LedToFailure(s: State, puts: seq<Put>, n: nat)
      requires n <= |puts| && Shows(s.(store := Abs(store.View()), holder := Free))
      requires Leads(s, FailedSteps(puts, n), s.(store := Abs(store.View()), holder := Free))
      ensures Refreshed(s, FailedSteps(puts, n), ReadOrWriteError)
    {
    }

    lemma NoSteps(s: State)
      requires Shows(s) && s.holder == Free
      ensures forall outcome :: outcome != Done ==> Refreshed(s, [], outcome)
    {
    }
  }

  lemma Prefixes<T>(a: seq<T>, b: seq<T>, n: nat, m: nat)
    requires n <= |a| && m <= |b|
    ensures (a + b)[..n] == a[..n] && (n == |a| ==> a[..n] == a && (a + b)[..n + m] == a + b[..m])
  {
  }

  lemma SameEmptiness(a: seq<Path>, b: seq<Path>)
    requires Elements(a) == Elements(b)
    ensures a == [] <==> b == []
  {
    assert a != [] ==> a[0] in Elements(a);
    assert b != [] ==> b[0] in Elements(b);
  }

  lemma SameLength(puts: seq<Put>, order: seq<Conf>)
    requires multiset(order) == multiset(ConfsOf(puts))
    ensures |order| == |puts|
  {
    assert |multiset(order)| == |order| && |multiset(ConfsOf(puts))| == |puts|;
  }

  lemma PlanScheduled(files: Disk, prev: map<Path, FileState>, changed: seq<Path>, deleted: seq<Path>, g: nat)
    requires Elements(changed) <= files.Keys && Elements(deleted) <= prev.Keys && Elements(changed) !! Elements(deleted)
    ensures var plan := Rows(files, prev, Elements(changed), Elements(deleted), g);
      forall p | p in plan :: Conf(p, plan[p].hash) in ConfsOf(Puts(files, prev, changed, deleted, g))
  {
    var puts, plan := Puts(files, prev, changed, deleted, g), Rows(files, prev, Elements(changed), Elements(deleted), g);
    PutsInPlan(files, prev, changed, deleted, g);
    RowsSplit(files, prev, Elements(changed), Elements(deleted), g);
    hide Rows, Puts;
    forall p | p in plan
      ensures Conf(p, plan[p].hash) in ConfsOf(puts)
    {
      PathIsPut(files, prev, changed, deleted, g, p);
      var w :| w in puts && w.path == p;
      var i :| 0 <= i < |puts| && puts[i] == w;
      assert ConfsOf(puts)[i] == Conf(p, w.file.hash);
    }
  }

  lemma RowsSplit(files: Disk, prev: map<Path, FileState>, changed: set<Path>, deleted: set<Path>, g: nat)
    requires changed <= files.Keys && deleted <= prev.Keys && changed !! deleted
    ensures var rows := Rows(files, prev, changed, deleted, g);
            && rows.Keys == changed + deleted
            && (rows == map[] <==> changed == {} && deleted == {})
            && (forall p | p in changed :: rows[p] == LiveRow(files[p], g))
            && (forall p | p in deleted :: rows[p] == Tombstone(prev[p], g))
  {
    assert Rows(files, prev, changed, deleted, g) == map[] <==> Rows(files, prev, changed, deleted, g).Keys == {};
  }
}
