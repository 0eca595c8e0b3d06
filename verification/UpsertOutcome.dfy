/** When an upsert commits, when it runs the embedder, and on what text
    (src/internal/codestore/symbols.go:109-278, src/internal/codeindex/render.go:14-34). */
module UpsertOutcome {
  import opened Options
  import opened Codestore

  /** A write adds at most its symbol's key. */
  lemma WriteRowKeys(t: Tables, existing: map<SymbolKey, (RowId, Row)>, hash: Hash, s: Symbol, runId: int, embed: EmbedFunc, k: SymbolKey)
    requires WriteRow(t, existing, hash, s, runId, embed).Some? && HasKey(WriteRow(t, existing, hash, s, runId, embed).value, k)
    ensures HasKey(t, k) || k == KeyOf(s)
  {
    var t' := WriteRow(t, existing, hash, s, runId, embed).value;
    var id :| id in t'.symbols && KeyAt(t', id) == k;
    assert k != KeyOf(s) ==> id in t.symbols && KeyAt(t, id) == k;
  }

  lemma {:induction false} WritesSucceed(t: Tables, existing: map<SymbolKey, (RowId, Row)>, hash: Hash, symbols: seq<Symbol>, runId: int, embed: EmbedFunc)
    requires DistinctKeys(symbols)
    requires forall i | 0 <= i < |symbols| :: embed(symbols[i]).Some? && (KeyOf(symbols[i]) !in existing ==> !HasKey(t, KeyOf(symbols[i])))
    ensures WriteRows(t, existing, hash, symbols, runId, embed).Some?
    ensures forall k | HasKey(WriteRows(t, existing, hash, symbols, runId, embed).value, k) ::
              HasKey(t, k) || exists i :: 0 <= i < |symbols| && KeyOf(symbols[i]) == k
  {
    hide HasKey;
    if symbols == [] {
    } else {
      var n := |symbols| - 1;
      var front, s := symbols[..n], symbols[n];
      WritesSucceed(t, existing, hash, front, runId, embed);
      var mid := WriteRows(t, existing, hash, front, runId, embed).value;
      assert forall i | 0 <= i < n :: KeyOf(front[i]) != KeyOf(s);
      WriteSucceeds(mid, existing, hash, s, runId, embed);
      forall k | HasKey(WriteRows(t, existing, hash, symbols, runId, embed).value, k)
        ensures HasKey(t, k) || exists i :: 0 <= i < |symbols| && KeyOf(symbols[i]) == k
      {
        WriteRowKeys(mid, existing, hash, s, runId, embed, k);
        if k != KeyOf(s) && !HasKey(t, k) {
          var i :| 0 <= i < |front| && KeyOf(front[i]) == k;
          assert KeyOf(symbols[i]) == k;
        }
      }
    }
  }

  lemma WriteSucceeds(t: Tables, existing: map<SymbolKey, (RowId, Row)>, hash: Hash, s: Symbol, runId: int, embed: EmbedFunc)
    requires embed(s).Some? && (KeyOf(s) !in existing ==> !HasKey(t, KeyOf(s)))
    ensures WriteRow(t, existing, hash, s, runId, embed).Some?
  {
  }

  /** An upsert of distinct symbols of the path fails only where the embedder does. */
  lemma UpsertSucceeds(t: Tables, path: Path, hash: Hash, symbols: seq<Symbol>, runId: int, embed: EmbedFunc)
    requires DistinctKeys(symbols) && AllAt(symbols, path) && forall i | 0 <= i < |symbols| :: embed(symbols[i]).Some?
    ensures Upsert(t, path, hash, symbols, runId, embed).Some?
  {
    var mid := DeleteRows(t, StaleIds(t, path, symbols));
    forall i | 0 <= i < |symbols| && HasKey(mid, KeyOf(symbols[i]))
      ensures KeyOf(symbols[i]) in Existing(t, path)
    {
      var id :| id in mid.symbols && KeyAt(mid, id) == KeyOf(symbols[i]);
      assert id in PathIds(t, path) && KeyAt(t, id) == KeyOf(symbols[i]);
      assert KeyOf(symbols[i]) in PathKeys(t, path);
    }
    hide HasKey, Existing, WriteRows;
    WritesSucceed(mid, Existing(t, path), hash, symbols, runId, embed);
  }

  /** An update with the documentation and body it had does not run the embedder, and
      keeps the row's vector; any other one stores what the embedder gives. */
  lemma EmbedsIff(t: Tables, id: RowId, was: Row, hash: Hash, s: Symbol, runId: int, embed: EmbedFunc)
    ensures var r := UpdateRow(t, id, was, hash, s, runId, embed);
      if was.symbol.documentation == s.documentation && was.symbol.bodyHash == s.bodyHash
      then r.Some? && r.value.symbolVec == t.symbolVec
      else (r.Some? <==> embed(s).Some?) && (r.Some? ==> r.value.symbolVec == t.symbolVec[id := embed(s).value])
    ensures
      var r := InsertRow(t, hash, s, runId, embed);
      && (r.Some? <==> !HasKey(t, KeyOf(s)) && embed(s).Some?)
      && (r.Some? ==> exists row: RowId :: row !in t.symbols && r.value.symbolVec == t.symbolVec[row := embed(s).value])
  {
  }

  // ---- the text embedded ----

  datatype Named = Named(name: string, value: string)

  function Fields(s: Symbol): seq<Named> {
    [Named("language", s.language), Named("kind", s.kind), Named("qualified_name", s.qualifiedName),
     Named("container", s.container), Named("signature", s.signature),
     Named("documentation", s.documentation), Named("path", s.path)]
  }

  /** The fields that have a value, each as a line. */
  function Lines(fields: seq<Named>): seq<string> {
    if fields == [] then [] else
      var last := fields[|fields| - 1];
      Lines(fields[..|fields| - 1]) + if last.value == "" then [] else [last.name + ": " + last.value]
  }

  function Joined(lines: seq<string>): string {
    if lines == [] then ""
    else if |lines| == 1 then lines[0]
    else Joined(lines[..|lines| - 1]) + "\n" + lines[|lines| - 1]
  }

  function Written(fields: seq<Named>): string {
    if fields == [] then "" else
      var last := fields[|fields| - 1];
      Written(fields[..|fields| - 1]) + Field(last.name, last.value)
  }

  lemma {:induction false} WrittenJoins(fields: seq<Named>)
    ensures Lines(fields) == [] ==> Written(fields) == ""
    ensures Lines(fields) != [] ==> Written(fields) == Joined(Lines(fields)) + "\n"
  {
    if fields != [] {
      var front, last := fields[..|fields| - 1], fields[|fields| - 1];
      WrittenJoins(front);
      if last.value == "" {
        assert Lines(fields) == Lines(front);
      } else {
        var line := last.name + ": " + last.value;
        assert Lines(fields)[..|Lines(fields)| - 1] == Lines(front);
        assert Field(last.name, last.value) == line + "\n";
        if Lines(front) == [] {
          assert Lines(fields) == [line];
        } else {
          assert Written(fields) == Joined(Lines(front)) + "\n" + line + "\n";
        }
      }
    }
  }

  lemma WrittenGrows(fields: seq<Named>, name: string, value: string)
    ensures Written(fields + [Named(name, value)]) == Written(fields) + Field(name, value)
  {
    var all := fields + [Named(name, value)];
    assert all[..|all| - 1] == fields && all[|all| - 1] == Named(name, value);
  }

  lemma FieldsWritten(s: Symbol)
    ensures Written(Fields(s)) == AllFields(s)
  {
    hide Field;
    var fs := Fields(s);
    var before, after := fs[..3], fs[..4];
    WrittenGrows([], "language", s.language);
    WrittenGrows([fs[0]], "kind", s.kind);
    WrittenGrows(fs[..2], "qualified_name", s.qualifiedName);
    WrittenGrows(before, "container", s.container);
    WrittenGrows(after, "signature", s.signature);
    WrittenGrows(fs[..5], "documentation", s.documentation);
    WrittenGrows(fs[..6], "path", s.path);
    hide Written;
    assert [] + [fs[0]] == [fs[0]] && [fs[0]] + [fs[1]] == fs[..2] && fs[..2] + [fs[2]] == before;
    assert before + [fs[3]] == after && after + [fs[4]] == fs[..5] && fs[..5] + [fs[5]] == fs[..6] && fs[..6] + [fs[6]] == fs;
    assert Written(before) == FieldsBefore(s);
    assert Written(fs) == FieldsBefore(s) + Field("container", s.container) + FieldsAfter(s);
  }

  /** The text embedded is the fields that have a value, one a line, with no line feed
      after the last. */
  lemma RenderIs(s: Symbol)
    ensures Render(s) == Joined(Lines(Fields(s)))
  {
    FieldsWritten(s);
    WrittenJoins(Fields(s));
    hide Fields, Lines, AllFields, Written;
    if Lines(Fields(s)) != [] {
      var text := Joined(Lines(Fields(s)));
      assert (text + "\n")[..|text|] == text;
    }
  }
}
