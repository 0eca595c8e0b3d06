/** The write sections of the service, in store calls: a confirmation's commit and
    Index's commit and prune (src/cmd/ragrep/code_service.go:498-538, 671-751;
    src/cmd/ragrep/code.go:385-410). */
module Commits {
  import opened Options
  import opened Codestore
  import opened Overlay
  import opened StoreObject
  import opened UpsertOutcome
  import opened Workspace

  /** What each extraction yields of its file. */
  datatype Prepared = Prepared(path: Path, hash: Hash, symbols: seq<Symbol>)

  /** Distinct keys, all of the file, and containers as stored. */
  ghost predicate Promotable(t: Tables, f: Prepared) {
    DistinctKeys(f.symbols) && AllAt(f.symbols, f.path) && ContainersFixed(t, f.symbols)
  }

  function ConfIn(f: Prepared): Conf {
    Conf(f.path, f.hash)
  }

  lemma UpsertAbs(t: Tables, t': Tables, f: Prepared, runId: int, embed: EmbedFunc, model: Symbol -> Vector)
    requires Agrees(t, model) && Faithful(embed, model) && Promotable(t, f)
    requires Upsert(t, f.path, f.hash, f.symbols, runId, embed) == Some(t')
    ensures Agrees(t', model) && t'.live == t.live
    ensures Abs(t') == UpsertPath(Abs(t), ConfIn(f), |f.symbols|)
  {
    hide Durable, Agrees;
    UpsertDurable(t, f.path, f.hash, f.symbols, runId, embed, model) by { AgreesUnfolds(t, model); }
  }

  lemma AgreesUnfolds(t: Tables, model: Symbol -> Vector)
    requires Agrees(t, model)
    ensures Shadows(t, model) && OneHash(t) && UniqueKeys(t)
  {
  }

  lemma UncoverAbs(t: Tables, f: Prepared, embed: EmbedFunc, model: Symbol -> Vector)
    requires Agrees(t, model) && Faithful(embed, model)
    ensures var t' := RemoveLiveIfHash(t, f.path, f.hash);
      Agrees(t', model) && t'.symbols == t.symbols && Abs(t') == Uncover(Abs(t), ConfIn(f))
  {
    hide Durable, Agrees;
    var t' := RemoveLiveIfHash(t, f.path, f.hash);
    AgreesUnfolds(t, model);
    SameSymbolsSameDurable(t, t');
    ApplyAgrees(t, OpRemoveLive(f.path, f.hash), embed, model);
  }

  ghost predicate SameView(t: Tables, t': Tables) {
    forall p :: Shown(Abs(t'), p) == Shown(Abs(t), p)
  }

  predicate EmbedFails(f: Prepared, embed: EmbedFunc) {
    exists i :: 0 <= i < |f.symbols| && embed(f.symbols[i]).None?
  }

  /** A promotion is refused for nothing but a symbol that cannot be embedded. */
  lemma PromotionFails(t: Tables, f: Prepared, runId: int, embed: EmbedFunc)
    requires Promotable(t, f) && Upsert(t, f.path, f.hash, f.symbols, runId, embed).None?
    ensures EmbedFails(f, embed)
  {
    if !EmbedFails(f, embed) {
      UpsertSucceeds(t, f.path, f.hash, f.symbols, runId, embed);
    }
  }

  /** The commit of a confirmation that saw a live row: promote it if it is still
      there, then uncover it.  What a reader sees does not change, even half way,
      but for a path promoted without symbols, which uncovering it hides. */
  method ConfirmLive(store: Store, f: Prepared, embed: EmbedFunc, ghost model: Symbol -> Vector) returns (ok: bool)
    requires Agrees(store.View(), model) && Faithful(embed, model) && Promotable(store.View(), f)
    modifies store
    ensures ok ==> store.failures == old(store.failures)
    ensures !ok ==> store.failures > old(store.failures) || EmbedFails(f, embed)
    ensures Agrees(store.View(), model)
    ensures forall p :: p != f.path || f.symbols != [] || !ok ==> Shown(Abs(store.View()), p) == old(Shown(Abs(store.View()), p))
    ensures !old(LiveMatches(store.View(), f.path, f.hash, false)) ==> ok && store.View() == old(store.View())
    ensures ok && old(LiveMatches(store.View(), f.path, f.hash, false)) ==>
      Abs(store.View()) == Uncover(UpsertPath(old(Abs(store.View())), ConfIn(f), |f.symbols|), ConfIn(f))
  {
    hide Agrees, Durable, Upsert, RemoveLiveIfHash, Promotable, Faithful;
    AgreesUnfolds(store.View(), model);
    if f.path !in store.live || store.live[f.path].hash != f.hash {
      return true;
    }
    if store.live[f.path].deleted {
      return true;
    }
    ghost var t := store.View();
    var changed, removed;
    ok, changed := store.UpsertSymbols(f.path, f.hash, f.symbols, 0, embed);
    if !ok {
      if store.failures == old(store.failures) {
        PromotionFails(t, f, 0, embed);
      }
      return;
    }
    ghost var t1 := store.View();
    UpsertAbs(t, t1, f, 0, embed, model);
    UncoverAbs(t1, f, embed, model);
    ok, removed := store.RemoveLiveFileIfHash(f.path, f.hash);
  }

  /** The commit of a confirmation that saw a tombstone. */
  method ConfirmTombstone(store: Store, c: Conf, ghost model: Symbol -> Vector) returns (ok: bool)
    requires Agrees(store.View(), model)
    modifies store
    ensures store.failures == old(store.failures) + if ok then 0 else 1
    ensures Agrees(store.View(), model) && SameView(old(store.View()), store.View())
    ensures ok ==> Abs(store.View()) == DropTombstone(old(Abs(store.View())), c)
    ensures ok ==> !LiveMatches(store.View(), c.path, c.hash, true)
  {
    hide Agrees, Durable, DeleteIfLiveHash;
    var removed;
    ghost var t := store.View();
    TombstoneAbs(t, c, model);
    ok, removed := store.DeleteSymbolsForPathIfLiveHash(c.path, c.hash);
  }

  lemma TombstoneAbs(t: Tables, c: Conf, model: Symbol -> Vector)
    requires Agrees(t, model)
    ensures var t' := DeleteIfLiveHash(t, c.path, c.hash);
      Agrees(t', model) && Abs(t') == DropTombstone(Abs(t), c) && SameView(t, t') && !LiveMatches(t', c.path, c.hash, true)
  {
    hide Durable, Agrees, DeleteForPath;
    DeleteIfLiveAgrees(t, c.path, c.hash, model);
    LiveAfterDelete(t, c.path);
    if !LiveMatches(t, c.path, c.hash, true) {
      assert DeleteIfLiveHash(t, c.path, c.hash) == t;
    }
  }

  lemma LiveAfterDelete(t: Tables, path: Path)
    ensures DeleteForPath(t, path).live == t.live
  {
  }

  // ---- Index ----

  /** Equal keys mean equal containers, between two prepared files. */
  predicate SameContainers(f: Prepared, g: Prepared) {
    forall i, j | 0 <= i < |f.symbols| && 0 <= j < |g.symbols| && KeyOf(f.symbols[i]) == KeyOf(g.symbols[j]) ::
      f.symbols[i].container == g.symbols[j].container
  }

  /** One file may be prepared twice, under overlapping roots. */
  ghost predicate AllPromotable(t: Tables, files: seq<Prepared>, from: nat) {
    && (forall i :: from <= i < |files| ==> Promotable(t, files[i]))
    && (forall i, j :: from <= i < j < |files| ==> SameContainers(files[i], files[j]))
  }

  /** One turn of Index's loop: a file whose tombstone has its hash is skipped. */
  function IndexOne(s: Overlaid, f: Prepared): Overlaid {
    if Matches(s, ConfIn(f), true) then s else Uncover(UpsertPath(s, ConfIn(f), |f.symbols|), ConfIn(f))
  }

  function IndexAll(s: Overlaid, files: seq<Prepared>): Overlaid {
    if files == [] then s else IndexOne(IndexAll(s, files[..|files| - 1]), files[|files| - 1])
  }

  /** p's preparations all read the same content, and found symbols in it. */
  predicate Steady(files: seq<Prepared>, p: Path) {
    forall i, j | 0 <= i < |files| && 0 <= j < |files| && files[i].path == p && files[j].path == p ::
      files[i].symbols != [] && files[i].hash == files[j].hash
  }

  /** A path that was live is still what it was, covered or uncovered. */
  predicate Survives(s: Overlaid, s': Overlaid, files: seq<Prepared>, p: Path) {
    if p in s'.live then p in s.live && s'.live[p] == s.live[p]
    else
      && p in s.live && !s.live[p].deleted && p in s'.durable && s'.durable[p] == s.live[p].hash
      && exists i :: 0 <= i < |files| && files[i].path == p && files[i].hash == s.live[p].hash
  }

  /** A path with a live row looks the same after any number of files, and half way
      through the next one. */
  lemma {:induction false} IndexKeepsLiveView(s: Overlaid, files: seq<Prepared>, n: nat, p: Path)
    requires n <= |files| && p in s.live && Steady(files, p)
    ensures Survives(s, IndexAll(s, files[..n]), files, p) && Shown(IndexAll(s, files[..n]), p) == Shown(s, p)
    ensures n < |files| && !Matches(IndexAll(s, files[..n]), ConfIn(files[n]), true) ==>
              Shown(UpsertPath(IndexAll(s, files[..n]), ConfIn(files[n]), |files[n].symbols|), p) == Shown(s, p)
  {
    if n == 0 {
    } else {
      assert files[..n][..n - 1] == files[..n - 1];
      IndexKeepsLiveView(s, files, n - 1, p);
    }
  }

  /** A file deleted since it was prepared is skipped: its tombstone and its durable
      rows stay as they are. */
  lemma {:induction false} IndexSkipsTombstone(s: Overlaid, files: seq<Prepared>, p: Path)
    requires p in s.live && s.live[p].deleted && forall i | 0 <= i < |files| && files[i].path == p :: files[i].hash == s.live[p].hash
    ensures var s' := IndexAll(s, files);
      && p in s'.live && s'.live[p] == s.live[p]
      && (p in s'.durable <==> p in s.durable) && (p in s.durable ==> s'.durable[p] == s.durable[p])
  {
    if files == [] {
    } else {
      IndexSkipsTombstone(s, files[..|files| - 1], p);
    }
  }

  /** What a reader sees of a path without a live row after the files. */
  function ViewIndexed(shown: Option<Hash>, files: seq<Prepared>, p: Path): Option<Hash> {
    if files == [] then shown
    else
      var before, f := ViewIndexed(shown, files[..|files| - 1], p), files[|files| - 1];
      if f.path != p || (f.symbols == [] && before == Some(f.hash)) then before
      else if f.symbols == [] then None
      else Some(f.hash)
  }

  lemma {:induction false} IndexMovesOthers(s: Overlaid, files: seq<Prepared>, p: Path)
    requires p !in s.live
    ensures p !in IndexAll(s, files).live && Shown(IndexAll(s, files), p) == ViewIndexed(Shown(s, p), files, p)
  {
    if files == [] {
    } else {
      IndexMovesOthers(s, files[..|files| - 1], p);
    }
  }

  /** So the last preparation that found symbols decides, if no later one found none. */
  lemma {:induction false} LastFileDecides(shown: Option<Hash>, files: seq<Prepared>, n: nat, p: Path)
    requires n < |files| && files[n].path == p && files[n].symbols != []
    requires forall i | n < i < |files| :: files[i].path != p
    ensures ViewIndexed(shown, files, p) == Some(files[n].hash)
  {
    if n == |files| - 1 {
    } else {
      LastFileDecides(shown, files[..|files| - 1], n, p);
    }
  }

  /** The paths Index reports: those whose promotion changed the table, in order. */
  function Reindexed(s: Overlaid, files: seq<Prepared>): seq<Path> {
    if files == [] then []
    else
      var front, f := files[..|files| - 1], files[|files| - 1];
      Reindexed(s, front) + if Promotes(IndexAll(s, front), f) then [f.path] else []
  }

  predicate Promotes(s: Overlaid, f: Prepared) {
    !Matches(s, ConfIn(f), true) && !(f.path in s.durable && s.durable[f.path] == f.hash)
  }

  lemma {:induction false} IndexInTurn(s: Overlaid, a: seq<Prepared>, b: seq<Prepared>)
    ensures IndexAll(s, a + b) == IndexAll(IndexAll(s, a), b)
    ensures Reindexed(s, a + b) == Reindexed(s, a) + Reindexed(IndexAll(s, a), b)
  {
    if b == [] {
      assert a + b == a;
    } else {
      assert (a + b)[..|a + b| - 1] == a + b[..|b| - 1];
      IndexInTurn(s, a, b[..|b| - 1]);
    }
  }

  lemma {:induction false} OthersUntouched(s: Overlaid, files: seq<Prepared>, p: Path)
    requires forall i | 0 <= i < |files| :: files[i].path != p
    ensures var s' := IndexAll(s, files);
      && (p in s'.live <==> p in s.live) && (p in s.live ==> s'.live[p] == s.live[p])
      && (p in s'.durable <==> p in s.durable) && (p in s.durable ==> s'.durable[p] == s.durable[p])
    ensures p !in Reindexed(s, files)
  {
    if files == [] {
    } else {
      OthersUntouched(s, files[..|files| - 1], p);
    }
  }

  /** A file prepared once is reported exactly when it was not deleted since and the
      table does not already hold that content; what is reported is in the order of
      preparation. */
  lemma ReindexedIff(s: Overlaid, a: seq<Prepared>, f: Prepared, b: seq<Prepared>)
    requires forall g | g in a + b :: g.path != f.path
    ensures var reports := !(f.path in s.live && s.live[f.path].hash == f.hash && s.live[f.path].deleted) && !(f.path in s.durable && s.durable[f.path] == f.hash);
      && Reindexed(s, a + [f] + b) == Reindexed(s, a) + (if reports then [f.path] else []) + Reindexed(IndexAll(s, a + [f]), b)
      && f.path !in Reindexed(s, a) + Reindexed(IndexAll(s, a + [f]), b)
  {
    OthersUntouched(s, a, f.path) by {
      assert forall i | 0 <= i < |a| :: a[i] in a + b;
    }
    OthersUntouched(IndexAll(s, a + [f]), b, f.path) by {
      assert forall i | 0 <= i < |b| :: b[i] in a + b;
    }
    IndexInTurn(s, a + [f], b);
    assert (a + [f])[..|a + [f]| - 1] == a;
  }

  /** Promoting one file leaves every other file as promotable as it was. */
  lemma OthersPromotable(t: Tables, t': Tables, f: Prepared, g: Prepared, runId: int, embed: EmbedFunc, model: Symbol -> Vector)
    requires Agrees(t, model) && Faithful(embed, model) && Promotable(t, f) && Promotable(t, g) && SameContainers(f, g)
    requires Upsert(t, f.path, f.hash, f.symbols, runId, embed) == Some(t')
    ensures Promotable(t', g)
  {
    hide FtsAgrees, VecAgrees, EdgesAgree, LiveFtsAgrees, OneHash, WriteRows, Existing, StaleIds;
    if !UpToDate(t, f.path, f.hash) {
      UpsertRows(t, f.path, f.hash, f.symbols, runId, embed, model);
      hide Upsert, Lookup, Incoming;
      forall id, i | id in t'.symbols && 0 <= i < |g.symbols| && KeyAt(t', id) == KeyOf(g.symbols[i])
        ensures g.symbols[i].container == t'.symbols[id].symbol.container
      {
        LookupAt(t', id);
        IncomingIs(f.hash, f.symbols, runId, KeyAt(t', id));
      }
    }
  }

  lemma StillPromotable(t: Tables, t': Tables, files: seq<Prepared>, n: nat, runId: int, embed: EmbedFunc, model: Symbol -> Vector)
    requires Agrees(t, model) && Faithful(embed, model) && n < |files| && AllPromotable(t, files, n)
    requires Upsert(t, files[n].path, files[n].hash, files[n].symbols, runId, embed) == Some(t')
    ensures AllPromotable(t', files, n + 1)
  {
    hide Agrees, Faithful, Promotable, Upsert, SameContainers;
    forall i | n + 1 <= i < |files|
      ensures Promotable(t', files[i])
    {
      OthersPromotable(t, t', files[n], files[i], runId, embed, model);
    }
  }

  lemma SameSymbolsPromotable(t: Tables, t': Tables, files: seq<Prepared>, from: nat)
    requires t'.symbols == t.symbols && AllPromotable(t, files, from)
    ensures AllPromotable(t', files, from)
  {
    hide SameContainers;
    forall i | from <= i < |files|
      ensures Promotable(t', files[i])
    {
      assert Promotable(t, files[i]);
      assert forall id | id in t'.symbols :: KeyAt(t', id) == KeyAt(t, id);
    }
  }

  /** Index's loop over the prepared files: skip a file whose tombstone has its hash,
      promote it otherwise, and uncover its live row.  At every point, errors
      included, a path with a live row whose preparations agree looks as before. */
  method IndexFiles(store: Store, files: seq<Prepared>, runId: int, embed: EmbedFunc, ghost model: Symbol -> Vector) returns (ok: bool, indexed: seq<Path>)
    requires Agrees(store.View(), model) && Faithful(embed, model) && AllPromotable(store.View(), files, 0)
    modifies store
    ensures ok ==> store.failures == old(store.failures)
    ensures !ok ==> store.failures > old(store.failures) || exists n :: 0 <= n < |files| && EmbedFails(files[n], embed)
    ensures indexed == if ok then Reindexed(old(Abs(store.View())), files) else []
    ensures Agrees(store.View(), model)
    ensures ok ==> Abs(store.View()) == IndexAll(old(Abs(store.View())), files)
    ensures ok ==> forall p :: p !in old(store.live) ==>
              Shown(Abs(store.View()), p) == ViewIndexed(old(Shown(Abs(store.View()), p)), files, p)
    ensures forall p :: p in old(store.live) && Steady(files, p) ==>
              Shown(Abs(store.View()), p) == old(Shown(Abs(store.View()), p))
  {
    hide Agrees, Faithful, Promotable, Durable, Upsert, UpToDate, RemoveLiveIfHash, SameContainers, Steady, Shown, EmbedFails;
    ghost var t0 := store.View();
    indexed := [];
    for n := 0 to |files|
      invariant Agrees(store.View(), model) && AllPromotable(store.View(), files, n)
      invariant Abs(store.View()) == IndexAll(Abs(t0), files[..n])
      invariant store.failures == old(store.failures) && indexed == Reindexed(Abs(t0), files[..n])
      invariant forall p :: p in t0.live && Steady(files, p) ==> Shown(Abs(store.View()), p) == Shown(Abs(t0), p)
    {
      var f := files[n];
      ghost var t := store.View();
      assert files[..n + 1][..n] == files[..n];
      AgreesUnfolds(t, model);
      forall p | p in t0.live && Steady(files, p)
        ensures Shown(IndexAll(Abs(t0), files[..n + 1]), p) == Shown(Abs(t0), p)
        ensures !Matches(Abs(t), ConfIn(f), true) ==> Shown(UpsertPath(Abs(t), ConfIn(f), |f.symbols|), p) == Shown(Abs(t0), p)
      {
        IndexKeepsLiveView(Abs(t0), files, n, p);
        IndexKeepsLiveView(Abs(t0), files, n + 1, p);
      }
      if f.path in store.live && store.live[f.path].hash == f.hash && store.live[f.path].deleted {
        continue;
      }
      var promoted, changed := store.UpsertSymbols(f.path, f.hash, f.symbols, runId, embed);
      if !promoted {
        if store.failures == old(store.failures) {
          PromotionFails(t, f, runId, embed);
        }
        return false, [];
      }
      ghost var t1 := store.View();
      UpsertAbs(t, t1, f, runId, embed, model);
      UpToDateIsDurable(t, f.path, f.hash);
      if changed {
        indexed := indexed + [f.path];
      }
      StillPromotable(t, t1, files, n, runId, embed, model);
      UncoverAbs(t1, f, embed, model);
      var uncovered, removed := store.RemoveLiveFileIfHash(f.path, f.hash);
      if !uncovered {
        return false, [];
      }
      SameSymbolsPromotable(t1, store.View(), files, n + 1);
    }
    assert files[..|files|] == files;
    forall p | p !in t0.live {
      IndexMovesOthers(Abs(t0), files, p);
    }
    ok := true;
  }

  // ---- prune ----

  lemma PruneOne(t: Tables, p: Path, model: Symbol -> Vector)
    requires Agrees(t, model)
    ensures var t' := DeleteForPath(t, p);
      Agrees(t', model) && t'.live == t.live && Durable(t') == Durable(t) - {p}
  {
    hide Durable, DeleteRows;
    DeleteForPathDurable(t, p, model);
    LiveAfterDelete(t, p);
  }

  method PruneFile(store: Store, p: Path, ghost model: Symbol -> Vector) returns (ok: bool)
    requires Agrees(store.View(), model)
    modifies store
    ensures store.failures == old(store.failures) + if ok then 0 else 1
    ensures Agrees(store.View(), model) && store.live == old(store.live)
    ensures Durable(store.View()) == if ok then old(Durable(store.View())) - {p} else old(Durable(store.View()))
  {
    hide Agrees, Durable, DeleteForPath, Store.RowsGone;
    PruneOne(store.View(), p, model);
    ok := store.DeleteSymbolsForPath(p);
  }

  lemma PrunedView(t: Tables, t': Tables, gone: set<Path>)
    requires t'.live == t.live && Durable(t') == Durable(t) - gone
    ensures forall p :: p in t.live || p !in gone ==> Shown(Abs(t'), p) == Shown(Abs(t), p)
  {
    hide Durable;
  }

  /** The paths to prune. */
  function Unseen(durable: map<Path, Hash>, seen: set<Path>, roots: set<string>): set<Path> {
    set p | p in durable && p !in seen && UnderAnyRoot(p, roots)
  }

  lemma NoneJudged(durable: map<Path, Hash>, seen: set<Path>, roots: set<string>)
    ensures Unseen(durable, seen, roots) - durable.Keys == {} && durable - {} == durable
  {
  }

  /** One path of the list is judged. */
  lemma Judged(durable: map<Path, Hash>, seen: set<Path>, roots: set<string>, rest: set<Path>, p: Path, gone: set<Path>)
    requires p in rest && rest <= durable.Keys && gone == Unseen(durable, seen, roots) - rest
    ensures (if p in seen || !UnderAnyRoot(p, roots) then gone else gone + {p}) == Unseen(durable, seen, roots) - (rest - {p})
    ensures durable - gone - {p} == durable - (gone + {p})
  {
  }

  /** The loop over the paths listed. */
  method PruneListed(store: Store, listed: set<Path>, seen: set<Path>, roots: set<string>, ghost model: Symbol -> Vector) returns (ok: bool, pruned: seq<Path>)
    requires Agrees(store.View(), model) && listed == Durable(store.View()).Keys
    modifies store
    ensures ok <==> store.failures == old(store.failures)
    ensures store.failures >= old(store.failures)
    ensures Agrees(store.View(), model) && store.live == old(store.live)
    ensures Durable(store.View()) == old(Durable(store.View())) - Elements(pruned)
    ensures Elements(pruned) <= Unseen(old(Durable(store.View())), seen, roots)
    ensures ok ==> Elements(pruned) == Unseen(old(Durable(store.View())), seen, roots)
  {
    hide Agrees, Durable, UnderAnyRoot, Unseen, DeleteForPath, Elements, Store.View, Store.RowsGone;
    ghost var t0 := store.View();
    NoElements();
    NoneJudged(Durable(t0), seen, roots);
    ok, pruned := true, [];
    var rest := listed;
    while rest != {}
      invariant Agrees(store.View(), model) && store.live == old(store.live) && store.failures == old(store.failures)
      invariant rest <= Durable(t0).Keys
      invariant Elements(pruned) == Unseen(Durable(t0), seen, roots) - rest
      invariant Durable(store.View()) == Durable(t0) - Elements(pruned)
      decreases |rest|
    {
      var p :| p in rest;
      Judged(Durable(t0), seen, roots, rest, p, Elements(pruned));
      rest := rest - {p};
      if p in seen || !UnderAnyRoot(p, roots) {
        continue;
      }
      ok := PruneFile(store, p, model);
      if !ok {
        return;
      }
      OneMoreElement(pruned, p);
      pruned := pruned + [p];
    }
  }

  /** pruneCodeSymbolPaths: of the paths the store lists, those under the roots that
      were not seen are dropped; a path with a live row still looks as it did. */
  method Prune(store: Store, seen: set<Path>, roots: set<string>, ghost model: Symbol -> Vector) returns (ok: bool, pruned: seq<Path>)
    requires Agrees(store.View(), model)
    modifies store
    ensures ok <==> store.failures == old(store.failures)
    ensures Agrees(store.View(), model) && store.live == old(store.live)
    ensures Durable(store.View()) == old(Durable(store.View())) - Elements(pruned)
    ensures Elements(pruned) <= Unseen(old(Durable(store.View())), seen, roots)
    ensures ok ==> Elements(pruned) == Unseen(old(Durable(store.View())), seen, roots)
    ensures forall p :: p in store.live || p !in Elements(pruned) ==> Shown(Abs(store.View()), p) == old(Shown(Abs(store.View()), p))
  {
    hide Agrees, Durable, UnderAnyRoot, DeleteForPath, Elements, Shown;
    ghost var t0 := store.View();
    pruned := [];
    NoElements();
    AgreesUnfolds(t0, model);
    PrunedView(t0, t0, {});
    var rest;
    ok, rest := store.ListPaths();
    if !ok {
      return;
    }
    ok, pruned := PruneListed(store, rest, seen, roots, model);
    PrunedView(t0, store.View(), Elements(pruned));
  }
}
