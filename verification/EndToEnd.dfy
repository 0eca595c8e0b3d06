/** Across the components: a refreshed workspace, a context pack built from it, and the
    verification of its manifest. */
module EndToEnd {
  import opened Options
  import opened Codestore
  import opened LiveKeys
  import opened Overlay
  import opened Packs
  import opened Workspace

  ghost predicate Bodies(files: Disk, disk: map<Path, string>, fileHash: string -> Hash) {
    forall p :: p in files ==> files[p].hash == fileHash(files[p].body) && p in disk && disk[p] == files[p].body
  }

  lemma RefreshShowsDisk(t: Tables, t': Tables, files: Disk, roots: set<string>, g: nat, disk: map<Path, string>, fileHash: string -> Hash, p: Path)
    requires OneHash(t) && Written(t, t', FullPlan(files, Baseline(t), roots, g))
    requires Bodies(files, disk, fileHash) && UnderAnyRoot(p, roots) && forall q | q in files :: UnderAnyRoot(q, roots)
    ensures Packs.ShowsDisk(t', disk, fileHash, p)
  {
    RefreshReachesDisk(t, t', files, roots, g, p);
    hide FullPlan, Baseline, UnderAnyRoot;
    assert OneHash(t') by {
      assert t'.symbols == t.symbols;
      SymbolsGiveOneHash(t, t');
    }
    forall id | id in t'.symbols && t'.symbols[id].symbol.path == p && p !in t'.live
      ensures p in disk && t'.symbols[id].fileHash == fileHash(disk[p])
    {
      assert Stored(t', p, t'.symbols[id].fileHash);
      DurableIsStored(t', p, t'.symbols[id].fileHash);
    }
  }

  lemma SymbolsGiveOneHash(t: Tables, t': Tables)
    requires OneHash(t) && t'.symbols == t.symbols
    ensures OneHash(t')
  {
  }

  /** After a completed full refresh, whatever was packed from files under the roots
      verifies clean for as long as neither the store nor the disk changes. */
  lemma RefreshPackVerify(t: Tables, t': Tables, files: Disk, roots: set<string>, g: nat, disk: map<Path, string>, fileHash: string -> Hash,
      digest: Digest, symbols: seq<Packed>, refs: seq<Ref>, entries: seq<Checked>)
    requires OneHash(t) && UniqueKeys(t) && Written(t, t', FullPlan(files, Baseline(t), roots, g))
    requires Bodies(files, disk, fileHash) && forall q | q in files :: UnderAnyRoot(q, roots)
    requires Sound(digest) && |refs| == |symbols| == |entries|
    requires forall i :: 0 <= i < |symbols| ==> FromSnapshot(t', digest, symbols[i]) && UnderAnyRoot(symbols[i].path, roots)
    requires forall i :: 0 <= i < |symbols| ==> RefOf(t', digest, symbols[i]) == Some(refs[i])
    requires forall i :: 0 <= i < |refs| ==> entries[i] == Check(refs[i], Read(disk, refs[i].path), fileHash, ResolveEntry(t', digest, refs[i]))
    ensures forall i :: 0 <= i < |entries| ==> !entries[i].stale && entries[i].resolved
  {
    hide FromSnapshot, RefOf, Check, ResolveEntry, Packs.ShowsDisk, FullPlan, Baseline, UnderAnyRoot, Bodies;
    forall i | 0 <= i < |symbols|
      ensures Packs.ShowsDisk(t', disk, fileHash, symbols[i].path)
    {
      RefreshShowsDisk(t, t', files, roots, g, disk, fileHash, symbols[i].path);
    }
    SymbolsGiveUniqueKeys(t, t');
    PackThenVerifyIsClean(t', digest, disk, fileHash, symbols, refs, entries);
  }

  lemma SymbolsGiveUniqueKeys(t: Tables, t': Tables)
    requires UniqueKeys(t) && t'.symbols == t.symbols
    ensures UniqueKeys(t')
  {
    assert forall id | id in t'.symbols :: KeyAt(t', id) == KeyAt(t, id);
  }

  // ---- refreshes keep live keys honest ----

  ghost predicate HashedFiles(files: Disk, fileHash: string -> Hash) {
    forall p :: p in files ==> files[p].hash == fileHash(files[p].body)
  }

  /** Both refreshes, completed or failed half way, keep every live row's hash that of
      its text. */
  lemma RefreshKeepsBodiesHashed(t: Tables, t': Tables, files: Disk, roots: set<string>, g: nat, fileHash: string -> Hash)
    requires BodiesHashed(t, fileHash) && HashedFiles(files, fileHash)
    requires PartlyWritten(t, t', FullPlan(files, Baseline(t), roots, g))
    ensures BodiesHashed(t', fileHash)
  {
    hide PartlyWritten, FullPlan, Baseline, UnderAnyRoot, Shown;
    forall p | p in t'.live && !t'.live[p].deleted
      ensures t'.live[p].hash == fileHash(t'.live[p].body)
    {
      RefreshWritesRows(t, t', files, roots, g, p);
    }
  }

  lemma PathsKeepBodiesHashed(t: Tables, t': Tables, paths: set<Path>, disk: Disk, roots: set<string>, g: nat, fileHash: string -> Hash)
    requires BodiesHashed(t, fileHash) && HashedFiles(disk, fileHash)
    requires PartlyWritten(t, t', PathsPlan(paths, disk, Baseline(t), roots, g))
    ensures BodiesHashed(t', fileHash)
  {
    hide PartlyWritten, PathsPlan, Baseline, UnderAnyRoot, Shown;
    forall p | p in t'.live && !t'.live[p].deleted
      ensures t'.live[p].hash == fileHash(t'.live[p].body)
    {
      PathsWriteRows(t, t', paths, disk, roots, g, p);
    }
  }

  /** The writes of a refresh as store transactions. */
  function AsOps(puts: seq<Put>): (ops: seq<Op>)
    ensures |ops| == |puts| && forall i :: 0 <= i < |puts| ==> ops[i] == OpPutLive(puts[i].path, puts[i].file)
  {
    seq(|puts|, i requires 0 <= i < |puts| => OpPutLive(puts[i].path, puts[i].file))
  }

  /** They carry the hash of their text, which is what live keys rest on. */
  lemma RefreshPutsHashed(files: Disk, prev: map<Path, FileState>, changed: seq<Path>, deleted: seq<Path>, g: nat, fileHash: string -> Hash)
    requires HashedFiles(files, fileHash) && Elements(changed) <= files.Keys && Elements(deleted) <= prev.Keys
    ensures PutsHashed(AsOps(Puts(files, prev, changed, deleted, g)), fileHash)
  {
  }

  /** A refreshed file is served with its text under the key its row gives it. */
  lemma RefreshedTextIsServed(t: Tables, t': Tables, files: Disk, roots: set<string>, g: nat, digest: Digest, p: Path)
    requires Written(t, t', FullPlan(files, Baseline(t), roots, g)) && p in files && Shown(Abs(t), p) != Some(files[p].hash)
    requires g < TWO_TO_THE_64 && files[p].hash != "" && ':' !in files[p].hash && p != ""
    ensures var a := GetSnapshot(t', digest, LiveKey(LiveName(g, files[p].hash, p)));
      a.LiveAnswer? && a.path == p && a.body == files[p].body && a.hash == files[p].hash
  {
    RefreshWritesRows(t, t', files, roots, g, p);
    hide Written, FullPlan, Baseline, Shown, LiveKey, ParseLiveKey, LineCount;
    ParseInvertsFormatIff(LiveName(g, files[p].hash, p));
    LivePrefix(LiveName(g, files[p].hash, p));
  }
}
