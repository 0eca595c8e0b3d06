/** What an upsert does to the text index when incoming symbols share a key
    (src/internal/codestore/symbols.go:109-158, 241-278). */
module Postings {
  import opened Options
  import opened Codestore

  type ReadRows = map<SymbolKey, (RowId, Row)>  // the path's rows as read before the transaction

  /** A write of s to row id adds a posting that no later write of the row removes:
      each removes only the columns the row had when it was read. */
  predicate Lingers(existing: ReadRows, s: Symbol, id: RowId, c: Columns) {
    && KeyOf(s) in existing && existing[KeyOf(s)].0 == id
    && c == ColumnsOf(s) && c != ColumnsOf(existing[KeyOf(s)].1.symbol)
  }

  ghost predicate AnyLingers(existing: ReadRows, symbols: seq<Symbol>, id: RowId, c: Columns) {
    exists j :: 0 <= j < |symbols| && Lingers(existing, symbols[j], id, c)
  }

  /** The index holds each row's columns and what lingers of earlier writes. */
  ghost predicate IndexHolds(t: Tables, existing: ReadRows, symbols: seq<Symbol>) {
    forall id, c :: (id, c) in t.symbolFts <==>
      id in t.symbols && (c == ColumnsOf(t.symbols[id].symbol) || AnyLingers(existing, symbols, id, c))
  }

  /** The symbol last written under a key, or else the one that was read. */
  ghost function Latest(existing: ReadRows, symbols: seq<Symbol>, k: SymbolKey): Symbol
    requires k in existing
  {
    match Incoming("", symbols, 0, k)
    case Some(row) => row.symbol
    case None => existing[k].1.symbol
  }

  /** The rows read are still there, as last written. */
  ghost predicate RowsWritten(t: Tables, existing: ReadRows, keys: set<SymbolKey>, symbols: seq<Symbol>) {
    forall k | k in existing && k in keys ::
      existing[k].0 in t.symbols && t.symbols[existing[k].0].symbol == Latest(existing, symbols, k)
  }

  ghost predicate OneRowAKey(existing: ReadRows, keys: set<SymbolKey>) {
    forall k, k' | k in existing && k' in existing && k in keys && k' in keys && existing[k].0 == existing[k'].0 :: k == k'
  }

  lemma AnyLingersSnoc(existing: ReadRows, symbols: seq<Symbol>, s: Symbol, id: RowId, c: Columns)
    ensures AnyLingers(existing, symbols + [s], id, c) <==> AnyLingers(existing, symbols, id, c) || Lingers(existing, s, id, c)
  {
    var all := symbols + [s];
    if AnyLingers(existing, symbols, id, c) {
      var j :| 0 <= j < |symbols| && Lingers(existing, symbols[j], id, c);
      assert Lingers(existing, all[j], id, c);
    }
    if Lingers(existing, s, id, c) {
      assert Lingers(existing, all[|symbols|], id, c);
    }
  }

  /** A row that no longer has the columns it was read with got them from a symbol
      that lingers. */
  lemma LatestLingers(existing: ReadRows, symbols: seq<Symbol>, k: SymbolKey)
    requires k in existing && ColumnsOf(Latest(existing, symbols, k)) != ColumnsOf(existing[k].1.symbol)
    ensures AnyLingers(existing, symbols, existing[k].0, ColumnsOf(Latest(existing, symbols, k)))
  {
    IncomingIs("", symbols, 0, k);
    var s := Latest(existing, symbols, k);
    var j :| 0 <= j < |symbols| && symbols[j] == s;
    assert Lingers(existing, symbols[j], existing[k].0, ColumnsOf(s));
  }

  predicate KeysIn(symbols: seq<Symbol>, keys: set<SymbolKey>) {
    forall j | 0 <= j < |symbols| :: KeyOf(symbols[j]) in keys
  }

  lemma ReadColumnsNeverLinger(existing: ReadRows, keys: set<SymbolKey>, symbols: seq<Symbol>, k: SymbolKey)
    requires OneRowAKey(existing, keys) && KeysIn(symbols, keys) && k in existing && k in keys
    ensures !AnyLingers(existing, symbols, existing[k].0, ColumnsOf(existing[k].1.symbol))
  {
  }

  lemma UpdateHolds(t: Tables, t': Tables, existing: ReadRows, keys: set<SymbolKey>, symbols: seq<Symbol>, s: Symbol, hash: Hash, runId: int, embed: EmbedFunc)
    requires IndexHolds(t, existing, symbols) && RowsWritten(t, existing, keys, symbols)
    requires OneRowAKey(existing, keys) && KeysIn(symbols + [s], keys) && KeyOf(s) in existing && KeyOf(s) in keys
    requires UpdateRow(t, existing[KeyOf(s)].0, existing[KeyOf(s)].1, hash, s, runId, embed) == Some(t')
    ensures IndexHolds(t', existing, symbols + [s])
  {
    hide AnyLingers, Latest;
    var k := KeyOf(s);
    var id, was := existing[k].0, ColumnsOf(existing[k].1.symbol);
    if ColumnsOf(t.symbols[id].symbol) != was {
      LatestLingers(existing, symbols, k);
    }
    ReadColumnsNeverLinger(existing, keys, symbols, k) by {
      assert forall j | 0 <= j < |symbols| :: (symbols + [s])[j] == symbols[j];
    }
    forall i, c
      ensures (i, c) in t'.symbolFts <==>
        i in t'.symbols && (c == ColumnsOf(t'.symbols[i].symbol) || AnyLingers(existing, symbols + [s], i, c))
    {
      AnyLingersSnoc(existing, symbols, s, i, c);
      assert (i, c) in t.symbolFts <==> i in t.symbols && (c == ColumnsOf(t.symbols[i].symbol) || AnyLingers(existing, symbols, i, c));
    }
  }

  lemma InsertHolds(t: Tables, t': Tables, existing: ReadRows, keys: set<SymbolKey>, symbols: seq<Symbol>, s: Symbol, hash: Hash, runId: int, embed: EmbedFunc)
    requires IndexHolds(t, existing, symbols) && RowsWritten(t, existing, keys, symbols)
    requires KeysIn(symbols, keys) && KeyOf(s) !in existing && InsertRow(t, hash, s, runId, embed) == Some(t')
    ensures IndexHolds(t', existing, symbols + [s])
  {
    hide Latest;
    var id := FreshId(t.symbols.Keys);
    forall c
      ensures !AnyLingers(existing, symbols, id, c)
    {
    }
    hide AnyLingers;
    forall i, c
      ensures (i, c) in t'.symbolFts <==>
        i in t'.symbols && (c == ColumnsOf(t'.symbols[i].symbol) || AnyLingers(existing, symbols + [s], i, c))
    {
      AnyLingersSnoc(existing, symbols, s, i, c);
      assert (i, c) in t.symbolFts <==> i in t.symbols && (c == ColumnsOf(t.symbols[i].symbol) || AnyLingers(existing, symbols, i, c));
    }
  }

  lemma LatestSnoc(existing: ReadRows, symbols: seq<Symbol>, s: Symbol, k: SymbolKey)
    requires k in existing
    ensures Latest(existing, symbols + [s], k) == if KeyOf(s) == k then s else Latest(existing, symbols, k)
  {
    assert (symbols + [s])[..|symbols|] == symbols;
  }

  lemma WriteKeepsRows(t: Tables, t': Tables, existing: ReadRows, keys: set<SymbolKey>, symbols: seq<Symbol>, s: Symbol, hash: Hash, runId: int, embed: EmbedFunc)
    requires RowsWritten(t, existing, keys, symbols) && OneRowAKey(existing, keys) && KeyOf(s) in keys
    requires WriteRow(t, existing, hash, s, runId, embed) == Some(t')
    ensures RowsWritten(t', existing, keys, symbols + [s])
  {
    hide Latest;
    forall k | k in existing && k in keys
      ensures existing[k].0 in t'.symbols && t'.symbols[existing[k].0].symbol == Latest(existing, symbols + [s], k)
    {
      LatestSnoc(existing, symbols, s, k);
    }
  }

  lemma {:induction false} WritesHold(t: Tables, existing: ReadRows, keys: set<SymbolKey>, symbols: seq<Symbol>, hash: Hash, runId: int, embed: EmbedFunc)
    requires FtsAgrees(t) && OneRowAKey(existing, keys) && KeysIn(symbols, keys)
    requires forall k | k in existing && k in keys :: existing[k].0 in t.symbols && t.symbols[existing[k].0] == existing[k].1
    requires WriteRows(t, existing, hash, symbols, runId, embed).Some?
    ensures var t' := WriteRows(t, existing, hash, symbols, runId, embed).value;
      IndexHolds(t', existing, symbols) && RowsWritten(t', existing, keys, symbols)
  {
    hide InsertRow, UpdateRow, OneRowAKey;
    if symbols == [] {
    } else {
      var front, s := symbols[..|symbols| - 1], symbols[|symbols| - 1];
      WritesHold(t, existing, keys, front, hash, runId, embed);
      var mid := WriteRows(t, existing, hash, front, runId, embed).value;
      var t' := WriteRows(t, existing, hash, symbols, runId, embed).value;
      hide WriteRows, IndexHolds, RowsWritten;
      assert front + [s] == symbols;
      WriteKeepsRows(mid, t', existing, keys, front, s, hash, runId, embed);
      if KeyOf(s) in existing {
        UpdateHolds(mid, t', existing, keys, front, s, hash, runId, embed);
      } else {
        InsertHolds(mid, t', existing, keys, front, s, hash, runId, embed);
      }
    }
  }

  /** What an upsert needs of its list for the index to stay right. */
  ghost predicate NoStalePosting(existing: ReadRows, symbols: seq<Symbol>) {
    forall j | 0 <= j < |symbols| && KeyOf(symbols[j]) in existing ::
      || ColumnsOf(symbols[j]) == ColumnsOf(existing[KeyOf(symbols[j])].1.symbol)
      || ColumnsOf(symbols[j]) == ColumnsOf(Latest(existing, symbols, KeyOf(symbols[j])))
  }

  /** Incoming symbols under one stored key are all diffed against the row as it was
      read.  The index is right after the upsert exactly when each of them has the
      columns of the row that was read or of the last of them. */
  lemma UpsertIndexesIff(t: Tables, path: Path, hash: Hash, symbols: seq<Symbol>, runId: int, embed: EmbedFunc)
    requires UniqueKeys(t) && FtsAgrees(t) && !UpToDate(t, path, hash)
    requires Upsert(t, path, hash, symbols, runId, embed).Some?
    ensures FtsAgrees(Upsert(t, path, hash, symbols, runId, embed).value) <==> NoStalePosting(Existing(t, path), symbols)
  {
    var existing, mid := Existing(t, path), DeleteRows(t, StaleIds(t, path, symbols));
    hide Existing, StaleIds, WriteRows, Latest;
    var keys := set s | s in symbols :: KeyOf(s);
    IncomingRead(t, path, symbols);
    WritesHold(mid, existing, keys, symbols, hash, runId, embed);
    IndexedIff(Upsert(t, path, hash, symbols, runId, embed).value, existing, keys, symbols);
  }

  lemma IncomingRead(t: Tables, path: Path, symbols: seq<Symbol>)
    requires UniqueKeys(t) && FtsAgrees(t)
    ensures
      var existing, mid, keys := Existing(t, path), DeleteRows(t, StaleIds(t, path, symbols)), (set s | s in symbols :: KeyOf(s));
      && FtsAgrees(mid) && OneRowAKey(existing, keys) && KeysIn(symbols, keys)
      && forall k | k in existing && k in keys :: existing[k].0 in mid.symbols && mid.symbols[existing[k].0] == existing[k].1
  {
    var existing, mid, keys := Existing(t, path), DeleteRows(t, StaleIds(t, path, symbols)), (set s | s in symbols :: KeyOf(s));
    ExistingRead(t, path, symbols);
    hide Existing, StaleIds;
    assert FtsAgrees(mid) by {
      hide ReadBefore;
    }
    hide FtsAgrees, DeleteRows;
    forall k | k in existing && k in keys
      ensures existing[k].0 in mid.symbols && mid.symbols[existing[k].0] == existing[k].1 && KeyAt(mid, existing[k].0) == k
    {
      var i :| 0 <= i < |symbols| && KeyOf(symbols[i]) == k;
    }
  }

  lemma IndexedIff(t: Tables, existing: ReadRows, keys: set<SymbolKey>, symbols: seq<Symbol>)
    requires IndexHolds(t, existing, symbols) && RowsWritten(t, existing, keys, symbols) && KeysIn(symbols, keys)
    ensures FtsAgrees(t) <==> NoStalePosting(existing, symbols)
  {
    hide Latest;
    if NoStalePosting(existing, symbols) {
      forall id, c
        ensures (id, c) in t.symbolFts <==> id in t.symbols && c == ColumnsOf(t.symbols[id].symbol)
      {
      }
    } else {
      var j :| 0 <= j < |symbols| && KeyOf(symbols[j]) in existing && ColumnsOf(symbols[j]) != ColumnsOf(existing[KeyOf(symbols[j])].1.symbol)
               && ColumnsOf(symbols[j]) != ColumnsOf(Latest(existing, symbols, KeyOf(symbols[j])));
      var id := existing[KeyOf(symbols[j])].0;
      assert Lingers(existing, symbols[j], id, ColumnsOf(symbols[j]));
      assert (id, ColumnsOf(symbols[j])) in t.symbolFts;
    }
  }

  // ---- an input: a Go file with one init function gains a second ----

  function Init(body: string): Symbol {
    Symbol("go", "function", "init", "init", "func init()", "", "", "p.go", 0, 0, 0, 0, body, body)
  }

  function OneInit(): Tables {
    var row := Row(Init("func init() { a() }"), "old", 1);
    Tables(map[1 := row], {(1, ColumnsOf(row.symbol))}, map[1 := []], {}, map[], {})
  }

  lemma SecondInitUpserts(a: Symbol, b: Symbol, embed: EmbedFunc)
    requires a == Init(a.body) && b == Init(b.body) && forall s :: embed(s) == Some([])
    ensures
      var t, symbols := OneInit(), [a, b];
      && !UpToDate(t, "p.go", "new") && Upsert(t, "p.go", "new", symbols, 2, embed).Some?
      && KeyOf(a) in Existing(t, "p.go") && Existing(t, "p.go")[KeyOf(a)].1 == t.symbols[1]
  {
    var t, symbols := OneInit(), [a, b];
    var existing := Existing(t, "p.go");
    assert 1 in PathIds(t, "p.go") && KeyAt(t, 1) == KeyOf(a) == KeyOf(b);
    assert KeyOf(a) in existing && existing[KeyOf(a)].0 == 1;
    var mid := DeleteRows(t, StaleIds(t, "p.go", symbols));
    assert symbols[..1] == [a] && [a][..0] == [];
    hide Existing, StaleIds, DeleteRows, UpdateRow;
    assert WriteRows(mid, existing, "new", [a], 2, embed) == WriteRow(mid, existing, "new", a, 2, embed);
    UpdateSucceeds(mid, 1, t.symbols[1], "new", a, 2, embed);
    var t1 := WriteRows(mid, existing, "new", [a], 2, embed).value;
    UpdateSucceeds(t1, 1, t.symbols[1], "new", b, 2, embed);
  }

  lemma UpdateSucceeds(t: Tables, id: RowId, was: Row, hash: Hash, s: Symbol, runId: int, embed: EmbedFunc)
    requires embed(s).Some?
    ensures UpdateRow(t, id, was, hash, s, runId, embed).Some?
  {
  }

  lemma OneInitBody(a: Symbol)
    requires a == Init("func init() { b() }")
    ensures 1 in OneInit().symbols && a.body != OneInit().symbols[1].symbol.body
  {
    assert a.body[14] != "func init() { a() }"[14];
  }

  lemma FirstOfTwoIsStale(existing: ReadRows, a: Symbol, b: Symbol)
    requires KeyOf(a) == KeyOf(b) && KeyOf(a) in existing
    requires a.body != b.body && a.body != existing[KeyOf(a)].1.symbol.body
    ensures !NoStalePosting(existing, [a, b])
  {
    LatestSnoc(existing, [a], b, KeyOf(a));
    assert [a] + [b] == [a, b];
    hide Latest;
    assert ColumnsOf([a, b][0]) != ColumnsOf(b);
  }

  lemma OneInitAgrees(symbols: seq<Symbol>)
    requires forall i | 0 <= i < |symbols| :: symbols[i] == Init(symbols[i].body)
    ensures Agrees(OneInit(), s => []) && AllAt(symbols, "p.go") && ContainersFixed(OneInit(), symbols)
  {
  }

  lemma SecondInitLeavesPosting(embed: EmbedFunc)
    requires forall s :: embed(s) == Some([])
    ensures
      var t, symbols := OneInit(), [Init("func init() { b() }"), Init("func init() { c() }")];
      && Agrees(t, s => []) && AllAt(symbols, "p.go") && ContainersFixed(t, symbols)
      && Upsert(t, "p.go", "new", symbols, 2, embed).Some?
      && !FtsAgrees(Upsert(t, "p.go", "new", symbols, 2, embed).value)
  {
    hide UniqueKeys, FtsAgrees, VecAgrees, EdgesAgree, LiveFtsAgrees, OneHash, AllAt, ContainersFixed;
    hide Existing, Upsert, UpToDate, NoStalePosting, OneInit;
    var t, a, b := OneInit(), Init("func init() { b() }"), Init("func init() { c() }");
    OneInitAgrees([a, b]);
    SecondInitUpserts(a, b, embed);
    UpsertIndexesIff(t, "p.go", "new", [a, b], 2, embed);
    assert a.body[14] != b.body[14];
    FirstOfTwoIsStale(Existing(t, "p.go"), a, b) by { OneInitBody(a); }
  }
}
