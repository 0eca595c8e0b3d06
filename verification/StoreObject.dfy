/** The store as the program runs it: an object whose tables are its fields.
    Every method is proved against the transaction of the same name on Tables.
    A false `ok` is a failed or rolled-back transaction and changes nothing. */
module StoreObject {
  import opened Options
  import opened Codestore

  lemma DeleteOneMore(t: Tables, ids: set<RowId>, id: RowId)
    requires ids <= t.symbols.Keys && id in t.symbols && id !in ids
    ensures DeleteRows(t, ids + {id}) == DeleteRow(DeleteRows(t, ids), id, t.symbols[id])
  {
    var more, step := DeleteRows(t, ids + {id}), DeleteRow(DeleteRows(t, ids), id, t.symbols[id]);
    assert more.symbols == step.symbols;
    assert more.symbolVec == step.symbolVec;
    assert forall e :: e in more.edges <==> e in step.edges;
    assert (set i | i in ids + {id} :: (i, ColumnsOf(t.symbols[i].symbol)))
        == (set i | i in ids :: (i, ColumnsOf(t.symbols[i].symbol))) + {(id, ColumnsOf(t.symbols[id].symbol))};
  }

  /** deleteSymbolRow for every id, inside one transaction. */
  method DeleteEach(t: Tables, ids: set<RowId>) returns (tx: Tables)
    requires ids <= t.symbols.Keys
    ensures tx == DeleteRows(t, ids)
  {
    tx := t;
    var rest := ids;
    ghost var done: set<RowId> := {};
    while rest != {}
      invariant done + rest == ids && done !! rest
      invariant tx == DeleteRows(t, done)
      decreases |rest|
    {
      var id :| id in rest;
      DeleteOneMore(t, done, id);
      tx := DeleteRow(tx, id, t.symbols[id]);
      rest, done := rest - {id}, done + {id};
    }
    assert done == ids;
  }

  /** insertSymbol or updateSymbol for every incoming symbol, in order. */
  method WriteEach(t: Tables, existing: map<SymbolKey, (RowId, Row)>, fileHash: Hash, incoming: seq<Symbol>, runId: int, embed: EmbedFunc)
      returns (r: Option<Tables>)
    ensures r == WriteRows(t, existing, fileHash, incoming, runId, embed)
  {
    var tx := t;
    for n := 0 to |incoming|
      invariant WriteRows(t, existing, fileHash, incoming[..n], runId, embed) == Some(tx)
    {
      assert incoming[..n + 1][..n] == incoming[..n];
      var written := WriteRow(tx, existing, fileHash, incoming[n], runId, embed);
      if written.None? {
        FailureSticks(t, existing, fileHash, incoming, n + 1, runId, embed);
        return None;
      }
      tx := written.value;
    }
    assert incoming[..|incoming|] == incoming;
    return Some(tx);
  }

  lemma {:induction false} FailureSticks(t: Tables, existing: map<SymbolKey, (RowId, Row)>, fileHash: Hash, incoming: seq<Symbol>, n: nat, runId: int, embed: EmbedFunc)
    requires n <= |incoming| && WriteRows(t, existing, fileHash, incoming[..n], runId, embed).None?
    ensures WriteRows(t, existing, fileHash, incoming, runId, embed).None?
    decreases |incoming|
  {
    if n == |incoming| {
      assert incoming[..n] == incoming;
    } else {
      var front := incoming[..|incoming| - 1];
      assert front[..n] == incoming[..n];
      FailureSticks(t, existing, fileHash, front, n, runId, embed);
    }
  }

  /** The key is that of a row of the path. */
  predicate FromPath(symbols: map<RowId, Row>, path: Path, k: SymbolKey) {
    exists id :: id in symbols && symbols[id].symbol.path == path && KeyOf(symbols[id].symbol) == k
  }

  lemma HashesAreDurable(t: Tables, hashes: map<Path, Hash>)
    requires OneHash(t)
    requires forall p | p in hashes :: Stored(t, p, hashes[p])
    requires forall id | id in t.symbols :: t.symbols[id].symbol.path in hashes
    ensures hashes == Durable(t)
  {
    hide Durable, OneHash;
    forall p
      ensures p in hashes <==> p in Durable(t)
      ensures p in hashes ==> hashes[p] == Durable(t)[p]
    {
      if p in hashes {
        DurableIsStored(t, p, hashes[p]);
      }
      if p in Durable(t) {
        DurableIsStored(t, p, Durable(t)[p]);
      }
    }
  }

  class Store {
    var symbols: map<RowId, Row>
    var symbolFts: set<(RowId, Columns)>
    var symbolVec: map<RowId, Vector>
    var edges: set<Edge>
    var live: map<Path, LiveFile>
    var liveFts: set<(Path, string)>

    /** How many transactions and queries have failed. */
    ghost var failures: nat

    function View(): Tables
      reads `symbols, `symbolFts, `symbolVec, `edges, `live, `liveFts
    {
      Tables(symbols, symbolFts, symbolVec, edges, live, liveFts)
    }

    twostate predicate SameSymbols()
      reads this
    {
      symbols == old(symbols) && symbolFts == old(symbolFts) && symbolVec == old(symbolVec) && edges == old(edges)
    }

    /** The rows of the path are gone, and with them what was attached to them. */
    twostate predicate RowsGone(path: Path)
      reads this
    {
      && symbols.Keys == (set id | id in old(symbols) && old(symbols)[id].symbol.path != path)
      && (forall id :: id in symbols ==> symbols[id] == old(symbols)[id])
      && (forall id :: id in symbolVec <==> id in old(symbolVec) && !(id in old(symbols) && old(symbols)[id].symbol.path == path))
      && (forall id :: id in symbolVec ==> symbolVec[id] == old(symbolVec)[id])
      && (forall e :: e in edges <==> e in old(edges) && !FromPath(old(symbols), path, e.fromKey))
    }

    constructor Open()
      ensures View() == EMPTY_TABLES
    {
      symbols, symbolFts, symbolVec, edges, live, liveFts := map[], {}, map[], {}, map[], {};
      failures := 0;
    }

    /** Whether the database does what it is asked to. */
    method Attempt() returns (ok: bool)
      modifies `failures
      ensures failures == old(failures) + if ok then 0 else 1
    {
      ok := *;
      failures := failures + if ok then 0 else 1;
    }

    method PutLiveFile(path: Path, hash: Hash, body: string, generation: nat) returns (ok: bool)
      modifies this
      ensures failures == old(failures) + if ok then 0 else 1
      ensures View() == if ok then PutLive(old(View()), path, LiveFile(hash, body, generation, false)) else old(View())
      ensures ok ==> live == old(live)[path := LiveFile(hash, body, generation, false)] && SameSymbols()
    {
      ok := Put(path, LiveFile(hash, body, generation, false));
    }

    method PutLiveDeletion(path: Path, previousHash: Hash, generation: nat) returns (ok: bool)
      modifies this
      ensures failures == old(failures) + if ok then 0 else 1
      ensures View() == if ok then PutLive(old(View()), path, LiveFile(previousHash, "", generation, true)) else old(View())
      ensures ok ==> live == old(live)[path := LiveFile(previousHash, "", generation, true)] && SameSymbols()
    {
      ok := Put(path, LiveFile(previousHash, "", generation, true));
    }

    /** putLiveFile */
    method Put(path: Path, file: LiveFile) returns (ok: bool)
      modifies this
      ensures failures == old(failures) + if ok then 0 else 1
      ensures View() == if ok then PutLive(old(View()), path, file) else old(View())
      ensures ok ==> live == old(live)[path := file] && SameSymbols()
    {
      ok := Attempt();
      if !ok {
        return;
      }
      if path in live && !live[path].deleted {
        liveFts := liveFts - {(path, live[path].body)};
      }
      live := live[path := file];
      if file.deleted {
        return;
      }
      liveFts := liveFts + {(path, file.body)};
    }

    method RemoveLiveFileIfHash(path: Path, expectedHash: Hash) returns (ok: bool, removed: bool)
      modifies this
      ensures failures == old(failures) + if ok then 0 else 1
      ensures View() == if ok then RemoveLiveIfHash(old(View()), path, expectedHash) else old(View())
      ensures removed <==> ok && path in old(live) && old(live)[path].hash == expectedHash && !old(live)[path].deleted
      ensures live == (if removed then old(live) - {path} else old(live)) && SameSymbols()
    {
      ok := Attempt();
      removed := false;
      if !ok || path !in live {
        return;
      }
      if live[path].hash != expectedHash || live[path].deleted {
        return;
      }
      liveFts := liveFts - {(path, live[path].body)};
      live := live - {path};
      removed := true;
    }

    /** The rows of a path, by id, in one pass over the table. */
    method ExistingIds(path: Path) returns (ids: set<RowId>)
      ensures ids == PathIds(View(), path)
    {
      ids := {};
      var rest := symbols.Keys;
      while rest != {}
        invariant rest <= symbols.Keys
        invariant ids == set id | id in symbols && id !in rest && symbols[id].symbol.path == path
        decreases |rest|
      {
        var id :| id in rest;
        rest := rest - {id};
        if symbols[id].symbol.path == path {
          ids := ids + {id};
        }
      }
    }

    method DeleteSymbolsForPath(path: Path) returns (ok: bool)
      modifies this
      ensures failures == old(failures) + if ok then 0 else 1
      ensures View() == if ok then DeleteForPath(old(View()), path) else old(View())
      ensures ok ==> RowsGone(path) && live == old(live) && liveFts == old(liveFts)
    {
      ok := Attempt();
      var ids := ExistingIds(path);
      if ok {
        DeleteAll(ids);
      }
    }

    method DeleteAll(ids: set<RowId>)
      requires ids <= symbols.Keys
      modifies `symbols, `symbolFts, `symbolVec, `edges, `live, `liveFts
      ensures View() == DeleteRows(old(View()), ids)
    {
      var tx := DeleteEach(View(), ids);
      Commit(tx);
    }

    method Commit(tx: Tables)
      modifies `symbols, `symbolFts, `symbolVec, `edges, `live, `liveFts
      ensures View() == tx
    {
      symbols, symbolFts, symbolVec, edges, live, liveFts :=
        tx.symbols, tx.symbolFts, tx.symbolVec, tx.edges, tx.live, tx.liveFts;
    }

    method DeleteSymbolsForPathIfLiveHash(path: Path, expectedHash: Hash) returns (ok: bool, removed: bool)
      modifies this
      ensures failures == old(failures) + if ok then 0 else 1
      ensures View() == if ok then DeleteIfLiveHash(old(View()), path, expectedHash) else old(View())
      ensures removed <==> ok && path in old(live) && old(live)[path].hash == expectedHash && old(live)[path].deleted
      ensures if removed then RowsGone(path) && live == old(live) - {path} else View() == old(View())
    {
      ok := Attempt();
      removed := false;
      if !ok || path !in live || live[path].hash != expectedHash || !live[path].deleted {
        return;
      }
      var ids := ExistingIds(path);
      DeleteAll(ids);
      live := live - {path};
      removed := true;
    }

    /** UpsertSymbols: the fast path, then one transaction built on a copy of
        the tables that only the commit makes visible. */
    method UpsertSymbols(path: Path, fileHash: Hash, incoming: seq<Symbol>, runId: int, embed: EmbedFunc)
        returns (ok: bool, changed: bool)
      requires UniqueKeys(View())
      modifies this
      ensures ok ==> failures == old(failures)
      ensures !ok ==> failures == old(failures) + 1 || (failures == old(failures) && Upsert(old(View()), path, fileHash, incoming, runId, embed).None?)
      ensures ok ==> Upsert(old(View()), path, fileHash, incoming, runId, embed) == Some(View())
      ensures ok ==> changed == !UpToDate(old(View()), path, fileHash)
      ensures !ok ==> View() == old(View())
    {
      ghost var t := View();
      var ids := ExistingIds(path);
      changed := false;
      if ids != {} && forall id | id in ids :: symbols[id].fileHash == fileHash {
        ok := true;
        return;
      }
      ok := Attempt();
      if !ok {
        return;
      }
      var existing := ExistingByKey(ids, path);
      var stale := set id | id in ids && forall s | s in incoming :: KeyOf(s) != KeyAt(View(), id);
      assert stale == StaleIds(t, path, incoming);
      var tx := DeleteEach(View(), stale);
      var written := WriteEach(tx, existing, fileHash, incoming, runId, embed);
      if written.None? {
        ok := false;
        return;
      }
      Commit(written.value);
      changed := true;
    }

    /** existingSymbolRows */
    method ExistingByKey(ids: set<RowId>, path: Path) returns (existing: map<SymbolKey, (RowId, Row)>)
      requires UniqueKeys(View()) && ids == PathIds(View(), path)
      ensures existing == Existing(View(), path)
    {
      existing := map[];
      var rest := ids;
      while rest != {}
        invariant rest <= ids
        invariant forall k :: k in existing <==> exists id :: id in ids && id !in rest && KeyAt(View(), id) == k
        invariant forall k | k in existing :: existing[k].0 in ids && KeyAt(View(), existing[k].0) == k && existing[k].1 == symbols[existing[k].0]
        decreases |rest|
      {
        var id :| id in rest;
        existing := existing[KeyAt(View(), id) := (id, symbols[id])];
        rest := rest - {id};
      }
      ghost var t := View();
      forall k
        ensures k in existing <==> k in PathKeys(t, path)
        ensures k in existing ==> existing[k] == Existing(t, path)[k]
      {
        if k in existing {
          assert k in PathKeys(t, path);
          var id := Existing(t, path)[k].0;
          assert KeyAt(t, existing[k].0) == KeyAt(t, id);
        }
      }
    }

    method ReplaceRelations(fromKey: SymbolKey, kinds: set<string>, relations: set<Edge>) returns (ok: bool)
      modifies this
      ensures failures == old(failures) + if ok then 0 else 1
      ensures View() == if ok && kinds != {} then Codestore.ReplaceRelations(old(View()), fromKey, kinds, relations) else old(View())
      ensures ok && kinds != {} ==>
                forall e :: e in edges <==> e in relations || (e in old(edges) && (e.fromKey != fromKey || e.kind !in kinds))
    {
      ok := Attempt();
      if !ok || kinds == {} {
        return;
      }
      edges := set e | e in edges && !(e.fromKey == fromKey && e.kind in kinds);
      edges := edges + relations;
    }

    /** The paths with a durable row, in no order that matters. */
    method ListPaths() returns (ok: bool, paths: set<Path>)
      requires OneHash(View())
      modifies `failures
      ensures failures == old(failures) + if ok then 0 else 1
      ensures ok ==> paths == Durable(View()).Keys
    {
      ok := Attempt();
      paths := set id | id in symbols :: symbols[id].symbol.path;
    }

    /** The durable half of ListWorkspaceFileStates: one file hash a path. */
    method DurableHashes() returns (ok: bool, hashes: map<Path, Hash>)
      requires OneHash(View())
      modifies `failures
      ensures failures == old(failures) + if ok then 0 else 1
      ensures ok ==> hashes == Durable(View())
    {
      hide Durable;
      ok := Attempt();
      ghost var t := View();
      hashes := map[];
      var rest := symbols.Keys;
      while rest != {}
        invariant rest <= symbols.Keys
        invariant forall p | p in hashes :: Stored(t, p, hashes[p])
        invariant forall id | id in t.symbols && id !in rest :: t.symbols[id].symbol.path in hashes
        decreases |rest|
      {
        var id :| id in rest;
        assert Stored(t, symbols[id].symbol.path, symbols[id].fileHash);
        hashes := hashes[symbols[id].symbol.path := symbols[id].fileHash];
        rest := rest - {id};
      }
      HashesAreDurable(t, hashes);
    }
  }
}
