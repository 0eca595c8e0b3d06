/** The code-symbol store (src/internal/codestore/symbols.go): the symbols
    table with its full-text, vector and edge shadows, and the live overlay.
    Each SQL transaction is one atomic step on a value of type Tables; the
    class of module StoreObject carries the tables as fields and runs the same steps. */
module Codestore {
  import opened Options

  type Path = string
  type Hash = string
  type RowId = nat
  type Vector = seq<real>
  type EmbedFunc = Symbol -> Option<Vector>  // the embedder run on a symbol's rendered text; None is its error

  datatype Symbol = Symbol(
    language: string, kind: string, name: string, qualifiedName: string, signature: string,
    documentation: string, container: string, path: Path,
    startLine: int, startCharacter: int, endLine: int, endCharacter: int,
    body: string, bodyHash: Hash)

  /** The stable key: a collision-free digest of exactly these five fields. */
  datatype SymbolKey = SymbolKey(language: string, path: Path, kind: string, qualifiedName: string, signature: string)

  function KeyOf(s: Symbol): SymbolKey {
    SymbolKey(s.language, s.path, s.kind, s.qualifiedName, s.signature)
  }

  datatype Row = Row(symbol: Symbol, fileHash: Hash, runId: int)

  datatype Columns = Columns(name: string, qualifiedName: string, signature: string, documentation: string, body: string)

  function ColumnsOf(s: Symbol): Columns {
    Columns(s.name, s.qualifiedName, s.signature, s.documentation, s.body)
  }

  datatype Edge = Edge(fromKey: SymbolKey, toKey: SymbolKey, kind: string, source: string, runId: int)

  datatype LiveFile = LiveFile(hash: Hash, body: string, generation: nat, deleted: bool)

  datatype Tables = Tables(
    symbols: map<RowId, Row>,
    symbolFts: set<(RowId, Columns)>,
    symbolVec: map<RowId, Vector>,
    edges: set<Edge>,
    live: map<Path, LiveFile>,
    liveFts: set<(Path, string)>)

  // ---- canonical embedding text (src/internal/codeindex/render.go) ----

  function Field(name: string, value: string): string {
    if value == "" then "" else name + ": " + value + "\n"
  }

  function FieldsBefore(s: Symbol): string {
    Field("language", s.language) + Field("kind", s.kind) + Field("qualified_name", s.qualifiedName)
  }

  function FieldsAfter(s: Symbol): string {
    Field("signature", s.signature) + Field("documentation", s.documentation) + Field("path", s.path)
  }

  function AllFields(s: Symbol): string {
    FieldsBefore(s) + Field("container", s.container) + FieldsAfter(s)
  }

  function TrimNewline(s: string): string {
    if s != "" && s[|s| - 1] == '\n' then s[..|s| - 1] else s
  }

  function Render(s: Symbol): string {
    TrimNewline(AllFields(s))
  }

  lemma MiddleEqual(a: string, x: string, y: string, b: string)
    requires a + x + b == a + y + b
    ensures x == y
  {
    var s, t := a + x + b, a + y + b;
    assert |x| == |y|;
    assert x == s[|a|..|a| + |x|];
    assert y == t[|a|..|a| + |y|];
  }

  lemma FieldInjective(name: string, v: string, w: string)
    requires Field(name, v) == Field(name, w)
    ensures v == w
  {
    if v != "" && w != "" {
      var s, t := Field(name, v), Field(name, w);
      assert v == s[|name| + 2..|s| - 1];
      assert w == t[|name| + 2..|t| - 1];
    }
  }

  /** The re-embed rule skips the embedder when documentation and body hash are
      unchanged.  Under an unchanged key that is right exactly when the
      container, the one rendered field outside the key, is unchanged too. */
  lemma RenderFixedIffContainerFixed(a: Symbol, b: Symbol)
    requires KeyOf(a) == KeyOf(b) && a.documentation == b.documentation
    ensures Render(a) == Render(b) <==> a.container == b.container
  {
    if Render(a) == Render(b) {
      assert AllFields(a) != "" && AllFields(b) != "" ==>
          AllFields(a) == Render(a) + "\n" && AllFields(b) == Render(b) + "\n";
      assert AllFields(a) == AllFields(b);
      MiddleEqual(FieldsBefore(a), Field("container", a.container), Field("container", b.container), FieldsAfter(a));
      FieldInjective("container", a.container, b.container);
    }
  }

  /** A dotted name gives two declarations one key and two containers, so the
      skip would keep a vector of the wrong text. */
  lemma DottedNameBreaksSkip()
    ensures
      var a := Symbol("go", "method", "B", "A.B", "func B()", "", "A", "p.go", 0, 0, 1, 0, "func B() {}", "h");
      var b := Symbol("go", "method", "A.B", "A.B", "func B()", "", "", "p.go", 0, 0, 1, 0, "func B() {}", "h");
      KeyOf(a) == KeyOf(b) && a.bodyHash == b.bodyHash && a.documentation == b.documentation && Render(a) != Render(b)
  {
    var a := Symbol("go", "method", "B", "A.B", "func B()", "", "A", "p.go", 0, 0, 1, 0, "func B() {}", "h");
    var b := Symbol("go", "method", "A.B", "A.B", "func B()", "", "", "p.go", 0, 0, 1, 0, "func B() {}", "h");
    RenderFixedIffContainerFixed(a, b);
  }

  // ---- agreement of the shadows ----

  function KeyAt(t: Tables, id: RowId): SymbolKey
    requires id in t.symbols
  {
    KeyOf(t.symbols[id].symbol)
  }

  ghost predicate UniqueKeys(t: Tables) {
    forall i, j {:trigger KeyAt(t, i), KeyAt(t, j)} ::
      i in t.symbols && j in t.symbols && KeyAt(t, i) == KeyAt(t, j) ==> i == j
  }

  ghost predicate FtsAgrees(t: Tables) {
    forall id, c :: (id, c) in t.symbolFts <==> id in t.symbols && c == ColumnsOf(t.symbols[id].symbol)
  }

  ghost predicate VecAgrees(t: Tables, model: Symbol -> Vector) {
    && t.symbolVec.Keys == t.symbols.Keys
    && forall id | id in t.symbolVec :: t.symbolVec[id] == model(t.symbols[id].symbol)
  }

  ghost predicate HasKey(t: Tables, k: SymbolKey) {
    exists id :: id in t.symbols && KeyAt(t, id) == k
  }

  ghost predicate EdgesAgree(t: Tables) {
    forall e | e in t.edges :: HasKey(t, e.fromKey)
  }

  ghost predicate LiveFtsAgrees(t: Tables) {
    forall p, b :: (p, b) in t.liveFts <==> p in t.live && !t.live[p].deleted && t.live[p].body == b
  }

  /** Everything that must hold at every transaction boundary, bar OneHash. */
  ghost predicate Shadows(t: Tables, model: Symbol -> Vector) {
    UniqueKeys(t) && FtsAgrees(t) && VecAgrees(t, model) && EdgesAgree(t) && LiveFtsAgrees(t)
  }

  /** All rows of a path come from the same file content. */
  ghost predicate OneHash(t: Tables) {
    forall i, j | i in t.symbols && j in t.symbols && t.symbols[i].symbol.path == t.symbols[j].symbol.path ::
      t.symbols[i].fileHash == t.symbols[j].fileHash
  }

  ghost predicate Agrees(t: Tables, model: Symbol -> Vector) {
    Shadows(t, model) && OneHash(t)
  }

  /** An embedder that answers at all answers as the model does, and the model
      sees nothing of a symbol but its rendered text. */
  ghost predicate Faithful(embed: EmbedFunc, model: Symbol -> Vector) {
    && (forall s | embed(s).Some? :: embed(s).value == model(s))
    && (forall a, b {:trigger Render(a), Render(b)} :: Render(a) == Render(b) ==> model(a) == model(b))
  }

  const EMPTY_TABLES := Tables(map[], {}, map[], {}, map[], {})

  // ---- the transactions ----

  function PathIds(t: Tables, path: Path): set<RowId> {
    set id | id in t.symbols && t.symbols[id].symbol.path == path
  }

  /** Every row of the path already carries the hash, and there is one. */
  predicate UpToDate(t: Tables, path: Path, hash: Hash) {
    PathIds(t, path) != {} && forall id | id in PathIds(t, path) :: t.symbols[id].fileHash == hash
  }

  /** deleteSymbolRow, given the row's values as read before the transaction. */
  function DeleteRow(t: Tables, id: RowId, was: Row): Tables {
    t.(symbols := t.symbols - {id},
       symbolFts := t.symbolFts - {(id, ColumnsOf(was.symbol))},
       symbolVec := t.symbolVec - {id},
       edges := set e | e in t.edges && e.fromKey != KeyOf(was.symbol))
  }

  /** All of the deletions together; their order does not show. */
  function DeleteRows(t: Tables, ids: set<RowId>): Tables
    requires ids <= t.symbols.Keys
  {
    t.(symbols := t.symbols - ids,
       symbolFts := t.symbolFts - (set id | id in ids :: (id, ColumnsOf(t.symbols[id].symbol))),
       symbolVec := t.symbolVec - ids,
       edges := set e | e in t.edges && forall id | id in ids :: KeyAt(t, id) != e.fromKey)
  }

  lemma MaxExists(ids: set<RowId>)
    requires ids != {}
    ensures exists m :: m in ids && forall x | x in ids :: x <= m
  {
    var x :| x in ids;
    if ids != {x} {
      MaxExists(ids - {x});
      var m :| m in ids - {x} && forall y | y in ids - {x} :: y <= m;
      var top := if x < m then m else x;
      assert forall y | y in ids :: y == x || y in ids - {x};
      assert top in ids && forall y | y in ids :: y <= top;
    }
  }

  /** SQLite's choice for an INTEGER PRIMARY KEY: one more than the largest. */
  function FreshId(ids: set<RowId>): (id: RowId)
    ensures id !in ids
  {
    if ids == {} then 1 else
      MaxExists(ids);
      var m :| m in ids && forall x | x in ids :: x <= m;
      m + 1
  }

  function InsertRow(t: Tables, hash: Hash, s: Symbol, runId: int, embed: EmbedFunc): Option<Tables> {
    if exists id :: id in t.symbols && KeyAt(t, id) == KeyOf(s) then None else
      var id := FreshId(t.symbols.Keys);
      match embed(s)
      case None => None
      case Some(v) =>
        Some(t.(symbols := t.symbols[id := Row(s, hash, runId)],
                symbolFts := t.symbolFts + {(id, ColumnsOf(s))},
                symbolVec := t.symbolVec[id := v]))
  }

  function UpdateRow(t: Tables, id: RowId, was: Row, hash: Hash, s: Symbol, runId: int, embed: EmbedFunc): Option<Tables> {
    var t' := t.(symbols := t.symbols[id := Row(s, hash, runId)],
                 symbolFts := t.symbolFts - {(id, ColumnsOf(was.symbol))} + {(id, ColumnsOf(s))});
    if was.symbol.documentation == s.documentation && was.symbol.bodyHash == s.bodyHash then Some(t') else
      match embed(s)
      case None => None
      case Some(v) => Some(t'.(symbolVec := t.symbolVec[id := v]))
  }

  function PathKeys(t: Tables, path: Path): set<SymbolKey> {
    set id | id in PathIds(t, path) :: KeyAt(t, id)
  }

  /** existingSymbolRows: the rows of a path by key. */
  ghost function Existing(t: Tables, path: Path): map<SymbolKey, (RowId, Row)> {
    map k | k in PathKeys(t, path) ::
      (var id :| id in PathIds(t, path) && KeyAt(t, id) == k; (id, t.symbols[id]))
  }

  function WriteRow(t: Tables, existing: map<SymbolKey, (RowId, Row)>, hash: Hash, s: Symbol, runId: int, embed: EmbedFunc): Option<Tables> {
    if KeyOf(s) in existing
    then UpdateRow(t, existing[KeyOf(s)].0, existing[KeyOf(s)].1, hash, s, runId, embed)
    else InsertRow(t, hash, s, runId, embed)
  }

  function WriteRows(t: Tables, existing: map<SymbolKey, (RowId, Row)>, hash: Hash, symbols: seq<Symbol>, runId: int, embed: EmbedFunc): Option<Tables> {
    if symbols == [] then Some(t) else
      match WriteRows(t, existing, hash, symbols[..|symbols| - 1], runId, embed)
      case None => None
      case Some(t') => WriteRow(t', existing, hash, symbols[|symbols| - 1], runId, embed)
  }

  function StaleIds(t: Tables, path: Path, symbols: seq<Symbol>): set<RowId> {
    set id | id in PathIds(t, path) && forall s | s in symbols :: KeyOf(s) != KeyAt(t, id)
  }

  /** UpsertSymbols; None is a failed transaction, which changes nothing. */
  ghost function Upsert(t: Tables, path: Path, hash: Hash, symbols: seq<Symbol>, runId: int, embed: EmbedFunc): Option<Tables> {
    if UpToDate(t, path, hash) then Some(t)
    else WriteRows(DeleteRows(t, StaleIds(t, path, symbols)), Existing(t, path), hash, symbols, runId, embed)
  }

  function DeleteForPath(t: Tables, path: Path): Tables {
    DeleteRows(t, PathIds(t, path))
  }

  function PutLive(t: Tables, path: Path, file: LiveFile): Tables {
    var cleared := if path in t.live && !t.live[path].deleted then t.liveFts - {(path, t.live[path].body)} else t.liveFts;
    t.(live := t.live[path := file], liveFts := if file.deleted then cleared else cleared + {(path, file.body)})
  }

  predicate LiveMatches(t: Tables, path: Path, hash: Hash, deleted: bool) {
    path in t.live && t.live[path].hash == hash && t.live[path].deleted == deleted
  }

  function RemoveLiveIfHash(t: Tables, path: Path, hash: Hash): Tables {
    if LiveMatches(t, path, hash, false)
    then t.(live := t.live - {path}, liveFts := t.liveFts - {(path, t.live[path].body)})
    else t
  }

  function DeleteIfLiveHash(t: Tables, path: Path, hash: Hash): Tables {
    if LiveMatches(t, path, hash, true)
    then DeleteForPath(t, path).(live := t.live - {path})
    else t
  }

  function ReplaceRelations(t: Tables, fromKey: SymbolKey, kinds: set<string>, relations: set<Edge>): Tables {
    t.(edges := (set e | e in t.edges && !(e.fromKey == fromKey && e.kind in kinds)) + relations)
  }

  // ---- every transaction keeps the shadows in agreement ----

  /** The row stored under a key: the symbols table with row ids forgotten. */
  ghost function Lookup(t: Tables, k: SymbolKey): Option<Row> {
    if HasKey(t, k) then
      var id :| id in t.symbols && KeyAt(t, id) == k;
      Some(t.symbols[id])
    else None
  }

  lemma LookupAt(t: Tables, id: RowId)
    requires UniqueKeys(t) && id in t.symbols
    ensures Lookup(t, KeyAt(t, id)) == Some(t.symbols[id])
  {
  }

  /** The last symbol of the list with the key, as the row it becomes. */
  ghost function Incoming(hash: Hash, symbols: seq<Symbol>, runId: int, k: SymbolKey): Option<Row> {
    if symbols == [] then None
    else if KeyOf(symbols[|symbols| - 1]) == k then Some(Row(symbols[|symbols| - 1], hash, runId))
    else Incoming(hash, symbols[..|symbols| - 1], runId, k)
  }

  predicate DistinctKeys(symbols: seq<Symbol>) {
    forall i, j | 0 <= i < j < |symbols| :: KeyOf(symbols[i]) != KeyOf(symbols[j])
  }

  predicate AllAt(symbols: seq<Symbol>, path: Path) {
    forall i | 0 <= i < |symbols| :: symbols[i].path == path
  }

  /** Equal keys mean equal containers, between the table and the incoming list. */
  ghost predicate ContainersFixed(t: Tables, symbols: seq<Symbol>) {
    forall id, i | id in t.symbols && 0 <= i < |symbols| && KeyAt(t, id) == KeyOf(symbols[i]) ::
      symbols[i].container == t.symbols[id].symbol.container
  }

  lemma DeleteRowsAgree(t: Tables, ids: set<RowId>, model: Symbol -> Vector)
    requires Shadows(t, model) && ids <= t.symbols.Keys
    ensures Shadows(DeleteRows(t, ids), model)
  {
    var t' := DeleteRows(t, ids);
    assert forall id | id in t'.symbols :: id in t.symbols && KeyAt(t', id) == KeyAt(t, id);
    forall e | e in t'.edges
      ensures HasKey(t', e.fromKey)
    {
      assert HasKey(t, e.fromKey);
      var id :| id in t.symbols && KeyAt(t, id) == e.fromKey;
      assert id in t'.symbols && KeyAt(t', id) == e.fromKey;
    }
  }

  lemma DeleteRowsLookup(t: Tables, ids: set<RowId>, k: SymbolKey)
    requires UniqueKeys(t) && ids <= t.symbols.Keys
    ensures UniqueKeys(DeleteRows(t, ids))
    ensures Lookup(DeleteRows(t, ids), k) == if exists id :: id in ids && KeyAt(t, id) == k then None else Lookup(t, k)
  {
    var t' := DeleteRows(t, ids);
    assert forall id | id in t'.symbols :: id in t.symbols && KeyAt(t', id) == KeyAt(t, id);
    if HasKey(t, k) {
      var id :| id in t.symbols && KeyAt(t, id) == k;
      LookupAt(t, id);
      if id !in ids {
        assert id in t'.symbols && KeyAt(t', id) == k;
        LookupAt(t', id);
      }
    }
  }

  /** Writing one row under its own key. */
  lemma WriteLookup(t: Tables, t': Tables, id: RowId, k: SymbolKey)
    requires UniqueKeys(t) && id in t'.symbols && t'.symbols == t.symbols[id := t'.symbols[id]]
    requires if id in t.symbols then KeyAt(t, id) == KeyAt(t', id) else !HasKey(t, KeyAt(t', id))
    ensures UniqueKeys(t')
    ensures Lookup(t', k) == if k == KeyAt(t', id) then Some(t'.symbols[id]) else Lookup(t, k)
  {
    assert forall i | i in t.symbols && i != id :: i in t'.symbols && KeyAt(t', i) == KeyAt(t, i);
    assert UniqueKeys(t') by {
      forall i, j {:trigger KeyAt(t', i), KeyAt(t', j)} | i in t'.symbols && j in t'.symbols && KeyAt(t', i) == KeyAt(t', j)
        ensures i == j
      {
        assert i != id ==> KeyAt(t, i) == KeyAt(t', i);
        assert j != id ==> KeyAt(t, j) == KeyAt(t', j);
      }
    }
    LookupAt(t', id);
    if HasKey(t, k) && k != KeyAt(t', id) {
      var i :| i in t.symbols && KeyAt(t, i) == k;
      LookupAt(t, i);
      assert KeyAt(t', i) == k;
      LookupAt(t', i);
    }
  }

  lemma EdgesAfterWrite(t: Tables, t': Tables, id: RowId)
    requires EdgesAgree(t) && t'.edges == t.edges && id in t'.symbols && t'.symbols == t.symbols[id := t'.symbols[id]]
    requires id in t.symbols ==> KeyAt(t, id) == KeyAt(t', id)
    ensures EdgesAgree(t')
  {
    forall e | e in t'.edges
      ensures HasKey(t', e.fromKey)
    {
      assert HasKey(t, e.fromKey);
      var i :| i in t.symbols && KeyAt(t, i) == e.fromKey;
      assert i in t'.symbols && KeyAt(t', i) == e.fromKey;
    }
  }

  lemma InsertRowAgrees(t: Tables, hash: Hash, s: Symbol, runId: int, embed: EmbedFunc, model: Symbol -> Vector) returns (id: RowId)
    requires Shadows(t, model) && Faithful(embed, model) && InsertRow(t, hash, s, runId, embed).Some?
    ensures
      var t' := InsertRow(t, hash, s, runId, embed).value;
      && Shadows(t', model)
      && id !in t.symbols && t'.symbols == t.symbols[id := Row(s, hash, runId)] && !HasKey(t, KeyOf(s))
  {
    var t' := InsertRow(t, hash, s, runId, embed).value;
    id := FreshId(t.symbols.Keys);
    assert KeyAt(t', id) == KeyOf(s);
    WriteLookup(t, t', id, KeyOf(s));
    EdgesAfterWrite(t, t', id);
    assert LiveFtsAgrees(t');
  }

  /** The skipped or the fresh vector: both are the vector of the new text. */
  lemma UpdateVector(t: Tables, id: RowId, hash: Hash, s: Symbol, runId: int, embed: EmbedFunc, model: Symbol -> Vector)
    requires VecAgrees(t, model) && Faithful(embed, model) && id in t.symbols
    requires KeyOf(s) == KeyAt(t, id) && s.container == t.symbols[id].symbol.container
    requires UpdateRow(t, id, t.symbols[id], hash, s, runId, embed).Some?
    ensures
      var vec := UpdateRow(t, id, t.symbols[id], hash, s, runId, embed).value.symbolVec;
      id in vec && vec == t.symbolVec[id := vec[id]] && vec[id] == model(s)
  {
    if s.documentation == t.symbols[id].symbol.documentation {
      RenderFixedIffContainerFixed(s, t.symbols[id].symbol);
    }
  }

  lemma UpdateRowAgrees(t: Tables, id: RowId, hash: Hash, s: Symbol, runId: int, embed: EmbedFunc, model: Symbol -> Vector)
    requires Shadows(t, model) && Faithful(embed, model) && id in t.symbols
    requires KeyOf(s) == KeyAt(t, id) && s.container == t.symbols[id].symbol.container
    requires UpdateRow(t, id, t.symbols[id], hash, s, runId, embed).Some?
    ensures
      var t' := UpdateRow(t, id, t.symbols[id], hash, s, runId, embed).value;
      Shadows(t', model) && t'.symbols == t.symbols[id := Row(s, hash, runId)]
  {
    var t' := UpdateRow(t, id, t.symbols[id], hash, s, runId, embed).value;
    UpdateVector(t, id, hash, s, runId, embed, model);
    assert KeyAt(t', id) == KeyOf(s);
    WriteLookup(t, t', id, KeyOf(s));
    EdgesAfterWrite(t, t', id);
  }

  /** The rows read before the transaction, as far as the incoming list needs them. */
  ghost predicate ReadBefore(t: Tables, existing: map<SymbolKey, (RowId, Row)>, symbols: seq<Symbol>) {
    forall i | 0 <= i < |symbols| && KeyOf(symbols[i]) in existing ::
      var (id, row) := existing[KeyOf(symbols[i])];
      id in t.symbols && t.symbols[id] == row && KeyAt(t, id) == KeyOf(symbols[i])
  }

  /** Row ids survive, and only rows whose key is incoming change. */
  ghost predicate IdsKept(t: Tables, t': Tables, symbols: seq<Symbol>) {
    forall id | id in t.symbols ::
      && id in t'.symbols
      && KeyAt(t', id) == KeyAt(t, id)
      && ((forall i | 0 <= i < |symbols| :: KeyOf(symbols[i]) != KeyAt(t, id)) ==> t'.symbols[id] == t.symbols[id])
  }

  /** Only the row under one key moves, and no row id is lost. */
  ghost predicate OnlyWrites(t: Tables, t': Tables, k: SymbolKey) {
    forall i | i in t.symbols ::
      && i in t'.symbols
      && KeyAt(t', i) == KeyAt(t, i)
      && (k != KeyAt(t, i) ==> t'.symbols[i] == t.symbols[i])
  }

  lemma WriteRowAgrees(t: Tables, existing: map<SymbolKey, (RowId, Row)>, hash: Hash, s: Symbol,
                       runId: int, embed: EmbedFunc, model: Symbol -> Vector)
    requires Shadows(t, model) && Faithful(embed, model)
    requires KeyOf(s) in existing ==>
               var (id, row) := existing[KeyOf(s)];
               id in t.symbols && t.symbols[id] == row && KeyAt(t, id) == KeyOf(s) && s.container == row.symbol.container
    requires WriteRow(t, existing, hash, s, runId, embed).Some?
    ensures
      var t' := WriteRow(t, existing, hash, s, runId, embed).value;
      && Shadows(t', model)
      && OnlyWrites(t, t', KeyOf(s))
      && forall k :: Lookup(t', k) == if k == KeyOf(s) then Some(Row(s, hash, runId)) else Lookup(t, k)
  {
    hide FtsAgrees, VecAgrees, EdgesAgree, LiveFtsAgrees, Render, ColumnsOf, UpdateRow, InsertRow;
    var t' := WriteRow(t, existing, hash, s, runId, embed).value;
    var id;
    if KeyOf(s) in existing {
      id := existing[KeyOf(s)].0;
      UpdateRowAgrees(t, id, hash, s, runId, embed, model);
    } else {
      id := InsertRowAgrees(t, hash, s, runId, embed, model);
    }
    assert KeyAt(t', id) == KeyOf(s);
    assert forall i | i in t.symbols && i != id :: KeyAt(t', i) == KeyAt(t, i);
    forall k {
      WriteLookup(t, t', id, k);
    }
  }

  lemma {:induction false} WriteRowsAgree(t: Tables, existing: map<SymbolKey, (RowId, Row)>, hash: Hash, symbols: seq<Symbol>,
                                          runId: int, embed: EmbedFunc, model: Symbol -> Vector)
    requires Shadows(t, model) && Faithful(embed, model) && DistinctKeys(symbols) && ContainersFixed(t, symbols)
    requires ReadBefore(t, existing, symbols)
    requires WriteRows(t, existing, hash, symbols, runId, embed).Some?
    ensures
      var t' := WriteRows(t, existing, hash, symbols, runId, embed).value;
      && Shadows(t', model) && IdsKept(t, t', symbols)
      && forall k :: Lookup(t', k) == if Incoming(hash, symbols, runId, k).Some? then Incoming(hash, symbols, runId, k) else Lookup(t, k)
  {
    hide FtsAgrees, VecAgrees, EdgesAgree, LiveFtsAgrees, Faithful;
    if symbols == [] {
    } else {
      var front, s := symbols[..|symbols| - 1], symbols[|symbols| - 1];
      WriteRowsAgree(t, existing, hash, front, runId, embed, model);
      var mid := WriteRows(t, existing, hash, front, runId, embed).value;
      WriteRowAgrees(mid, existing, hash, s, runId, embed, model);
    }
  }

  // ---- UpsertSymbols as a whole ----

  lemma StaleLookup(t: Tables, path: Path, symbols: seq<Symbol>, k: SymbolKey)
    requires UniqueKeys(t)
    ensures
      var mid := DeleteRows(t, StaleIds(t, path, symbols));
      && UniqueKeys(mid)
      && (k.path != path ==> Lookup(mid, k) == Lookup(t, k))
      && (k.path == path && (forall i | 0 <= i < |symbols| :: KeyOf(symbols[i]) != k) ==> Lookup(mid, k) == None)
  {
    var stale := StaleIds(t, path, symbols);
    DeleteRowsLookup(t, stale, k);
    if HasKey(t, k) {
      var id :| id in t.symbols && KeyAt(t, id) == k;
      LookupAt(t, id);
      if k.path == path && (forall i | 0 <= i < |symbols| :: KeyOf(symbols[i]) != k) {
        assert id in stale;
      }
    }
  }

  lemma {:induction false} IncomingIs(hash: Hash, symbols: seq<Symbol>, runId: int, k: SymbolKey)
    ensures var r := Incoming(hash, symbols, runId, k);
            && (r.Some? <==> exists i :: 0 <= i < |symbols| && KeyOf(symbols[i]) == k)
            && (r.Some? ==> KeyOf(r.value.symbol) == k && r.value.fileHash == hash && r.value.symbol in symbols)
  {
    if symbols == [] {
    } else {
      var n := |symbols| - 1;
      IncomingIs(hash, symbols[..n], runId, k);
      if i :| 0 <= i < |symbols| && KeyOf(symbols[i]) == k && i < n {
        assert KeyOf(symbols[..n][i]) == k;
      }
    }
  }

  /** What a committed UpsertSymbols leaves behind: the shadows agree, the path
      holds exactly the incoming symbols under the new hash, no other row
      moved, and a surviving row id still means the same key. */
  lemma UpsertRows(t: Tables, path: Path, hash: Hash, symbols: seq<Symbol>, runId: int, embed: EmbedFunc, model: Symbol -> Vector)
    requires Shadows(t, model) && Faithful(embed, model) && !UpToDate(t, path, hash)
    requires DistinctKeys(symbols) && AllAt(symbols, path) && ContainersFixed(t, symbols)
    requires Upsert(t, path, hash, symbols, runId, embed).Some?
    ensures
      var t' := Upsert(t, path, hash, symbols, runId, embed).value;
      && Shadows(t', model)
      && (forall k: SymbolKey :: Lookup(t', k) == if k.path == path then Incoming(hash, symbols, runId, k) else Lookup(t, k))
      && (forall id | id in t.symbols && id in DeleteRows(t, StaleIds(t, path, symbols)).symbols ::
            id in t'.symbols && KeyAt(t', id) == KeyAt(t, id))
  {
    var stale := StaleIds(t, path, symbols);
    var mid := DeleteRows(t, stale);
    var existing := Existing(t, path);
    DeleteRowsAgree(t, stale, model);
    assert forall id | id in mid.symbols :: KeyAt(mid, id) == KeyAt(t, id);
    ExistingRead(t, path, symbols);
    WriteRowsAgree(mid, existing, hash, symbols, runId, embed, model);
    var t' := WriteRows(mid, existing, hash, symbols, runId, embed).value;
    forall k
      ensures Lookup(t', k) == if k.path == path then Incoming(hash, symbols, runId, k) else Lookup(t, k)
    {
      StaleLookup(t, path, symbols, k);
      IncomingIs(hash, symbols, runId, k);
    }
  }

  lemma ExistingRead(t: Tables, path: Path, symbols: seq<Symbol>)
    requires UniqueKeys(t)
    ensures ReadBefore(DeleteRows(t, StaleIds(t, path, symbols)), Existing(t, path), symbols)
  {
    var stale := StaleIds(t, path, symbols);
    var mid := DeleteRows(t, stale);
    var existing := Existing(t, path);
    forall i | 0 <= i < |symbols| && KeyOf(symbols[i]) in existing
      ensures var (id, row) := existing[KeyOf(symbols[i])];
              id in mid.symbols && mid.symbols[id] == row && KeyAt(mid, id) == KeyOf(symbols[i])
    {
      var id := existing[KeyOf(symbols[i])].0;
      assert id in t.symbols && KeyAt(t, id) == KeyOf(symbols[i]);
      assert symbols[i] in symbols && id !in stale;
    }
  }

  // ---- the durable half of the visible view ----

  ghost predicate Stored(t: Tables, path: Path, hash: Hash) {
    exists id :: id in t.symbols && t.symbols[id].symbol.path == path && t.symbols[id].fileHash == hash
  }

  ghost function StoredPaths(t: Tables): set<Path> {
    set id | id in t.symbols :: t.symbols[id].symbol.path
  }

  /** path -> file hash of its durable rows. */
  ghost function Durable(t: Tables): map<Path, Hash> {
    map p | p in StoredPaths(t) :: (var id :| id in t.symbols && t.symbols[id].symbol.path == p; t.symbols[id].fileHash)
  }

  lemma DurableIsStored(t: Tables, path: Path, hash: Hash)
    requires OneHash(t)
    ensures Stored(t, path, hash) <==> path in Durable(t) && Durable(t)[path] == hash
  {
  }

  lemma DurableExt(t: Tables, m: map<Path, Hash>)
    requires OneHash(t)
    requires forall p, h :: Stored(t, p, h) <==> p in m && m[p] == h
    ensures Durable(t) == m
  {
    forall p
      ensures p in Durable(t) <==> p in m
      ensures p in m ==> Durable(t)[p] == m[p]
    {
      if p in m {
        assert Stored(t, p, m[p]);
        DurableIsStored(t, p, m[p]);
      }
      if p in Durable(t) {
        DurableIsStored(t, p, Durable(t)[p]);
      }
    }
  }

  lemma StoredByKey(t: Tables, path: Path, hash: Hash)
    requires UniqueKeys(t)
    ensures Stored(t, path, hash) <==>
            exists k: SymbolKey :: k.path == path && Lookup(t, k).Some? && Lookup(t, k).value.fileHash == hash
  {
    if Stored(t, path, hash) {
      var id :| id in t.symbols && t.symbols[id].symbol.path == path && t.symbols[id].fileHash == hash;
      LookupAt(t, id);
      assert KeyAt(t, id).path == path;
    }
  }

  /** UpsertSymbols seen from the view: a path with symbols moves to the new
      hash, a path without any leaves the durable half altogether. */
  lemma UpsertDurable(t: Tables, path: Path, hash: Hash, symbols: seq<Symbol>, runId: int, embed: EmbedFunc, model: Symbol -> Vector)
    requires Agrees(t, model) && Faithful(embed, model)
    requires DistinctKeys(symbols) && AllAt(symbols, path) && ContainersFixed(t, symbols)
    requires Upsert(t, path, hash, symbols, runId, embed).Some?
    ensures
      var t' := Upsert(t, path, hash, symbols, runId, embed).value;
      && Agrees(t', model)
      && t'.live == t.live && t'.liveFts == t.liveFts
      && (UpToDate(t, path, hash) <==> path in Durable(t) && Durable(t)[path] == hash)
      && Durable(t') == if symbols != [] || UpToDate(t, path, hash) then Durable(t)[path := hash] else Durable(t) - {path}
  {
    hide Durable, FtsAgrees, VecAgrees, EdgesAgree, LiveFtsAgrees, WriteRows, Existing;
    UpToDateIsDurable(t, path, hash);
    var t' := Upsert(t, path, hash, symbols, runId, embed).value;
    if !UpToDate(t, path, hash) {
      UpsertRows(t, path, hash, symbols, runId, embed, model);
      WriteRowsLive(DeleteRows(t, StaleIds(t, path, symbols)), Existing(t, path), hash, symbols, runId, embed);
      var m := if symbols != [] then Durable(t)[path := hash] else Durable(t) - {path};
      forall p, h
        ensures Stored(t', p, h) <==> p in m && m[p] == h
      {
        UpsertStored(t, t', path, hash, symbols, runId, p, h);
        DurableIsStored(t, p, h);
      }
      StoredOnceIsOneHash(t', m);
      DurableExt(t', m);
    }
  }

  lemma StoredOnceIsOneHash(t: Tables, m: map<Path, Hash>)
    requires forall p, h :: Stored(t, p, h) <==> p in m && m[p] == h
    ensures OneHash(t)
  {
    forall i, j | i in t.symbols && j in t.symbols && t.symbols[i].symbol.path == t.symbols[j].symbol.path
      ensures t.symbols[i].fileHash == t.symbols[j].fileHash
    {
      assert Stored(t, t.symbols[i].symbol.path, t.symbols[i].fileHash);
      assert Stored(t, t.symbols[j].symbol.path, t.symbols[j].fileHash);
    }
  }

  lemma UpsertStored(t: Tables, t': Tables, path: Path, hash: Hash, symbols: seq<Symbol>, runId: int, p: Path, h: Hash)
    requires UniqueKeys(t) && UniqueKeys(t') && AllAt(symbols, path)
    requires forall k: SymbolKey :: Lookup(t', k) == if k.path == path then Incoming(hash, symbols, runId, k) else Lookup(t, k)
    ensures Stored(t', p, h) <==> if p == path then symbols != [] && h == hash else Stored(t, p, h)
  {
    StoredByKey(t', p, h);
    if p == path {
      if symbols != [] {
        var k := KeyOf(symbols[0]);
        IncomingIs(hash, symbols, runId, k);
        assert Lookup(t', k).Some? && k.path == path;
      }
      forall k: SymbolKey | k.path == path && Lookup(t', k).Some?
        ensures symbols != [] && Lookup(t', k).value.fileHash == hash
      {
        IncomingIs(hash, symbols, runId, k);
      }
    } else {
      StoredByKey(t, p, h);
      assert forall k: SymbolKey | k.path == p :: Lookup(t', k) == Lookup(t, k);
    }
  }

  lemma UpToDateIsDurable(t: Tables, path: Path, hash: Hash)
    requires OneHash(t)
    ensures UpToDate(t, path, hash) <==> path in Durable(t) && Durable(t)[path] == hash
  {
    DurableIsStored(t, path, hash);
    if UpToDate(t, path, hash) {
      var id :| id in PathIds(t, path);
      assert Stored(t, path, hash);
    }
    if Stored(t, path, hash) {
      var id :| id in t.symbols && t.symbols[id].symbol.path == path && t.symbols[id].fileHash == hash;
      assert id in PathIds(t, path);
    }
  }

  lemma {:induction false} WriteRowsLive(t: Tables, existing: map<SymbolKey, (RowId, Row)>, hash: Hash, symbols: seq<Symbol>, runId: int, embed: EmbedFunc)
    requires WriteRows(t, existing, hash, symbols, runId, embed).Some?
    ensures
      var t' := WriteRows(t, existing, hash, symbols, runId, embed).value;
      t'.live == t.live && t'.liveFts == t.liveFts && t'.edges == t.edges
  {
    if symbols == [] {
    } else {
      WriteRowsLive(t, existing, hash, symbols[..|symbols| - 1], runId, embed);
    }
  }

  /** A symbol of the path has this key, and no incoming one does. */
  predicate Gone(t: Tables, path: Path, symbols: seq<Symbol>, k: SymbolKey) {
    (exists id :: id in t.symbols && t.symbols[id].symbol.path == path && KeyAt(t, id) == k) && forall s | s in symbols :: KeyOf(s) != k
  }

  /** An upsert drops the edges of the path's symbols that are gone, and no others. */
  lemma UpsertEdges(t: Tables, path: Path, hash: Hash, symbols: seq<Symbol>, runId: int, embed: EmbedFunc)
    requires Upsert(t, path, hash, symbols, runId, embed).Some? && !UpToDate(t, path, hash)
    ensures forall e :: e in Upsert(t, path, hash, symbols, runId, embed).value.edges <==> e in t.edges && !Gone(t, path, symbols, e.fromKey)
  {
    WriteRowsLive(DeleteRows(t, StaleIds(t, path, symbols)), Existing(t, path), hash, symbols, runId, embed);
    hide WriteRows, Existing;
  }

  lemma DeleteForPathDurable(t: Tables, path: Path, model: Symbol -> Vector)
    requires Agrees(t, model)
    ensures Agrees(DeleteForPath(t, path), model) && Durable(DeleteForPath(t, path)) == Durable(t) - {path}
  {
    hide FtsAgrees, VecAgrees, EdgesAgree, LiveFtsAgrees, Durable;
    var t' := DeleteForPath(t, path);
    DeleteRowsAgree(t, PathIds(t, path), model);
    forall p, h
      ensures Stored(t', p, h) <==> p in Durable(t) - {path} && Durable(t)[p] == h
    {
      DurableIsStored(t, p, h);
      if Stored(t, p, h) && p != path {
        var id :| id in t.symbols && t.symbols[id].symbol.path == p && t.symbols[id].fileHash == h;
        assert id in t'.symbols;
      }
    }
    DurableExt(t', Durable(t) - {path});
  }

  // ---- runs of transactions ----

  datatype Op =
    | OpUpsert(path: Path, hash: Hash, symbols: seq<Symbol>, runId: int)
    | OpPutLive(path: Path, file: LiveFile)
    | OpRemoveLive(path: Path, hash: Hash)
    | OpDeletePath(path: Path)
    | OpDeleteIfLive(path: Path, hash: Hash)
    | OpRelate(fromKey: SymbolKey, kinds: set<string>, relations: set<Edge>)

  /** What a caller of each transaction has to guarantee. */
  ghost predicate Allowed(t: Tables, op: Op) {
    match op
    case OpUpsert(path, hash, symbols, runId) => DistinctKeys(symbols) && AllAt(symbols, path) && ContainersFixed(t, symbols)
    case OpRelate(fromKey, kinds, relations) => HasKey(t, fromKey) && forall e | e in relations :: e.fromKey == fromKey
    case _ => true
  }

  ghost function Apply(t: Tables, op: Op, embed: EmbedFunc): Tables {
    match op
    case OpUpsert(path, hash, symbols, runId) =>
      (match Upsert(t, path, hash, symbols, runId, embed) case None => t case Some(t') => t')
    case OpPutLive(path, file) => PutLive(t, path, file)
    case OpRemoveLive(path, hash) => RemoveLiveIfHash(t, path, hash)
    case OpDeletePath(path) => DeleteForPath(t, path)
    case OpDeleteIfLive(path, hash) => DeleteIfLiveHash(t, path, hash)
    case OpRelate(fromKey, kinds, relations) => ReplaceRelations(t, fromKey, kinds, relations)
  }

  lemma ApplyAgrees(t: Tables, op: Op, embed: EmbedFunc, model: Symbol -> Vector)
    requires Agrees(t, model) && Faithful(embed, model) && Allowed(t, op)
    ensures Agrees(Apply(t, op, embed), model)
  {
    match op
    case OpUpsert(path, hash, symbols, runId) =>
      if Upsert(t, path, hash, symbols, runId, embed).Some? {
        UpsertDurable(t, path, hash, symbols, runId, embed, model);
      }
    case OpPutLive(path, file) => PutLiveAgrees(t, path, file, model);
    case OpRemoveLive(path, hash) => LiveOnly(t, RemoveLiveIfHash(t, path, hash), model);
    case OpDeletePath(path) => DeleteForPathDurable(t, path, model);
    case OpDeleteIfLive(path, hash) => DeleteIfLiveAgrees(t, path, hash, model);
    case OpRelate(fromKey, kinds, relations) => RelateAgrees(t, fromKey, kinds, relations, model);
  }

  lemma DeleteIfLiveAgrees(t: Tables, path: Path, hash: Hash, model: Symbol -> Vector)
    requires Agrees(t, model)
    ensures Agrees(DeleteIfLiveHash(t, path, hash), model)
    ensures LiveMatches(t, path, hash, true) ==> Durable(DeleteIfLiveHash(t, path, hash)) == Durable(t) - {path}
  {
    hide Durable, UniqueKeys, FtsAgrees, VecAgrees, EdgesAgree, OneHash;
    if LiveMatches(t, path, hash, true) {
      DeleteForPathDurable(t, path, model);
      LiveOnly(DeleteForPath(t, path), DeleteIfLiveHash(t, path, hash), model);
    }
  }

  lemma RelateAgrees(t: Tables, fromKey: SymbolKey, kinds: set<string>, relations: set<Edge>, model: Symbol -> Vector)
    requires Agrees(t, model) && HasKey(t, fromKey) && forall e | e in relations :: e.fromKey == fromKey
    ensures Agrees(ReplaceRelations(t, fromKey, kinds, relations), model)
  {
    var t' := ReplaceRelations(t, fromKey, kinds, relations);
    SameSymbols(t, t');
    forall e | e in t'.edges
      ensures HasKey(t', e.fromKey)
    {
      assert HasKey(t, e.fromKey);
      var id :| id in t.symbols && KeyAt(t, id) == e.fromKey;
      assert KeyAt(t', id) == e.fromKey;
    }
  }

  /** The symbol half of the agreement depends on the symbol tables alone. */
  lemma SameSymbols(t: Tables, t': Tables)
    requires UniqueKeys(t) && FtsAgrees(t) && OneHash(t) && t'.symbols == t.symbols && t'.symbolFts == t.symbolFts
    ensures UniqueKeys(t') && FtsAgrees(t') && OneHash(t')
  {
    assert forall id | id in t'.symbols :: KeyAt(t', id) == KeyAt(t, id);
  }

  lemma LiveOnly(t: Tables, t': Tables, model: Symbol -> Vector)
    requires Agrees(t, model) && LiveFtsAgrees(t')
    requires t'.symbols == t.symbols && t'.symbolFts == t.symbolFts && t'.symbolVec == t.symbolVec && t'.edges == t.edges
    ensures Agrees(t', model) && Durable(t') == Durable(t)
  {
    SameSymbols(t, t');
    assert forall id | id in t'.symbols :: KeyAt(t', id) == KeyAt(t, id);
    forall e | e in t'.edges
      ensures HasKey(t', e.fromKey)
    {
      assert HasKey(t, e.fromKey);
      var id :| id in t.symbols && KeyAt(t, id) == e.fromKey;
      assert KeyAt(t', id) == e.fromKey;
    }
  }

  lemma PutLiveAgrees(t: Tables, path: Path, file: LiveFile, model: Symbol -> Vector)
    requires Agrees(t, model)
    ensures Agrees(PutLive(t, path, file), model)
  {
    PutLiveFts(t, path, file);
    LiveOnly(t, PutLive(t, path, file), model);
  }

  lemma PutLiveFts(t: Tables, path: Path, file: LiveFile)
    requires LiveFtsAgrees(t)
    ensures LiveFtsAgrees(PutLive(t, path, file))
  {
    var t' := PutLive(t, path, file);
    forall p, b
      ensures (p, b) in t'.liveFts <==> p in t'.live && !t'.live[p].deleted && t'.live[p].body == b
    {
      assert (p, b) in t.liveFts <==> p in t.live && !t.live[p].deleted && t.live[p].body == b;
    }
  }

  /** The store before, between and after a sequence of transactions. */
  ghost predicate IsRun(run: seq<Tables>, ops: seq<Op>, embed: EmbedFunc) {
    |run| == |ops| + 1 && forall i | 0 <= i < |ops| :: run[i + 1] == Apply(run[i], ops[i], embed)
  }

  /** At every boundary in any sequence of transactions, failed upserts included,
      every shadow agrees with the rows it shadows. */
  lemma {:induction false} RunsAgree(run: seq<Tables>, ops: seq<Op>, embed: EmbedFunc, model: Symbol -> Vector, k: nat)
    requires IsRun(run, ops, embed) && k <= |ops| && Agrees(run[0], model) && Faithful(embed, model)
    requires forall i | 0 <= i < |ops| :: Allowed(run[i], ops[i])
    ensures Agrees(run[k], model)
  {
    hide Agrees, Faithful, Allowed, Apply;
    if k == 0 {
    } else {
      RunsAgree(run, ops, embed, model, k - 1);
      ApplyAgrees(run[k - 1], ops[k - 1], embed, model);
    }
  }
}
