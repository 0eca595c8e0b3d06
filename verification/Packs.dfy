/** Context packs and the manifests that check them later
    (src/internal/coderetrieval/context.go:81-139, manifest.go:65-132;
    src/cmd/ragrep/code.go:963-1015, 1110-1156; code_service.go:237-313). */
module Packs {
  import opened Options
  import opened Codestore
  import opened LiveKeys
  import Overlaps
  import opened Sequences

  // ---- the budget ----

  /** What tryAdd changes in a pack. */
  datatype Tab = Tab(used: int, skipped: seq<string>)

  /** An item with the length of its encoding (None when it cannot be encoded). */
  datatype Charge<T> = Charge(item: T, cost: Option<nat>, id: string)

  predicate Fits<T>(c: Charge<T>, used: int, budget: int) {
    c.cost.Some? && used + c.cost.value <= budget
  }

  /** One stage: items are taken in order, each if it still fits. */
  function Stage<T>(charges: seq<Charge<T>>, tab: Tab, budget: int): (seq<Charge<T>>, Tab) {
    if charges == [] then ([], tab)
    else
      var n := |charges| - 1;
      var (kept, t) := Stage(charges[..n], tab, budget);
      if Fits(charges[n], t.used, budget) then (kept + [charges[n]], t.(used := t.used + charges[n].cost.value))
      else (kept, t.(skipped := t.skipped + [charges[n].id]))
  }

  function Sum<T>(kept: seq<Charge<T>>): int {
    if kept == [] then 0
    else
      var last := kept[|kept| - 1];
      Sum(kept[..|kept| - 1]) + (if last.cost.Some? then last.cost.value else 0)
  }

  /** A stage charges exactly what it keeps, never beyond the budget, and records
      every item it leaves out. */
  lemma {:induction false} StageCharges<T>(charges: seq<Charge<T>>, tab: Tab, budget: int)
    ensures var (kept, t) := Stage(charges, tab, budget);
      && t.used == tab.used + Sum(kept)
      && (t.used <= budget || kept == [])
      && tab.skipped <= t.skipped && |kept| + |t.skipped| == |charges| + |tab.skipped|
      && forall c :: c in kept ==> c in charges && c.cost.Some?
  {
    if charges == [] {
    } else {
      var n := |charges| - 1;
      StageCharges(charges[..n], tab, budget);
    }
  }

  /** Item i is kept exactly when it fits beside what was kept of the items before
      it; a later, smaller item may still fit. */
  lemma {:induction false} KeptIffFits<T>(charges: seq<Charge<T>>, tab: Tab, budget: int, i: nat)
    requires i < |charges|
    ensures var (before, t) := Stage(charges[..i], tab, budget);
      var (kept, _) := Stage(charges, tab, budget);
      var fits := charges[i].cost.Some? && t.used + charges[i].cost.value <= budget;
      && before <= kept
      && (fits ==> |kept| > |before| && kept[|before|] == charges[i])
      && (fits ==> Stage(charges[..i + 1], tab, budget) == (before + [charges[i]], t.(used := t.used + charges[i].cost.value)))
      && (!fits ==> Stage(charges[..i + 1], tab, budget) == (before, t.(skipped := t.skipped + [charges[i].id])))
  {
    var n := |charges| - 1;
    assert charges[..i + 1][..i] == charges[..i];
    if i < n {
      assert charges[..n][..i] == charges[..i] && charges[..n][..i + 1] == charges[..i + 1];
      KeptIffFits(charges[..n], tab, budget, i);
    } else {
      assert charges[..i + 1] == charges;
    }
  }

  class ContextPack {
    const budget: int
    var usedChars: int
    var truncated: bool
    var skipped: seq<string>

    function View(): Tab
      reads this
    {
      Tab(usedChars, skipped)
    }

    predicate Valid()
      reads this
    {
      (truncated <==> skipped != []) && (usedChars <= budget || usedChars == 0)
    }

    constructor (b: int)
      ensures budget == b && View() == Tab(0, []) && Valid()
    {
      budget := b;
      usedChars, truncated, skipped := 0, false, [];
    }

    method TryAdd<T>(c: Charge<T>) returns (added: bool)
      requires Valid()
      modifies this
      ensures Valid() && (added <==> c.cost.Some? && old(usedChars) + c.cost.value <= budget)
      ensures View() == if added then Tab(old(usedChars) + c.cost.value, old(skipped)) else Tab(old(usedChars), old(skipped) + [c.id])
    {
      if c.cost.None? || usedChars + c.cost.value > budget {
        truncated := true;
        skipped := skipped + [c.id];
        return false;
      }
      usedChars := usedChars + c.cost.value;
      added := true;
    }

    /** The loop of each stage of BuildContextPack. */
    method AddAll<T>(charges: seq<Charge<T>>) returns (kept: seq<Charge<T>>)
      requires Valid()
      modifies this
      ensures Valid() && (kept, View()) == Stage(charges, old(View()), budget)
    {
      kept := [];
      for i := 0 to |charges|
        invariant Valid() && (kept, View()) == Stage(charges[..i], old(View()), budget)
      {
        assert charges[..i + 1][..i] == charges[..i];
        var added := TryAdd(charges[i]);
        if added {
          kept := kept + [charges[i]];
        }
      }
      assert charges[..|charges|] == charges;
    }
  }

  // ---- packed symbols and manifest entries ----

  datatype Packed = Packed(key: string, qualifiedName: string, path: Path, startLine: int, endLine: int, bodyHash: Hash)

  datatype Ref = Ref(key: string, qualifiedName: string, path: Path, startLine: int, endLine: int, fileHash: Hash)

  predicate IsLive(key: string) {
    "live:" <= key
  }

  /** The symbol getSnapshot answers with. */
  function SymbolOf(key: string, a: Answer): Option<Packed> {
    match a
    case LiveAnswer(path, _, hash, endLine) => Some(Packed(key, path, path, 0, endLine, hash))
    case DurableAnswer(s) => Some(Packed(key, s.qualifiedName, s.path, s.startLine, s.endLine, s.bodyHash))
    case _ => None
  }

  /** A packed symbol is what the snapshot served for its key; merging overlaps may
      only have widened its lines. */
  ghost predicate FromSnapshot(t: Tables, digest: Digest, s: Packed) {
    exists o :: SymbolOf(s.key, GetSnapshot(t, digest, s.key)) == Some(o) && s == o.(startLine := s.startLine, endLine := s.endLine)
  }

  function Widened(x: Overlaps.Item<Packed>): Packed {
    x.value.(startLine := x.start, endLine := x.end)
  }

  /** Merging selected symbols that overlap keeps each survivor one of them. */
  lemma MergedFromSnapshot(t: Tables, digest: Digest, items: seq<Overlaps.Item<Packed>>, merged: seq<Overlaps.Item<Packed>>, groups: seq<set<nat>>, k: nat)
    requires Overlaps.Merged(items, merged, groups) && k < |merged|
    requires forall i :: 0 <= i < |items| ==> FromSnapshot(t, digest, items[i].value)
    ensures FromSnapshot(t, digest, Widened(merged[k]))
    ensures Widened(merged[k]) == merged[k].value.(startLine := merged[k].start, endLine := merged[k].end)
  {
    hide GetSnapshot;
    assert Overlaps.GroupSurvives(items, |items|, groups[k], merged[k]);
    var s := merged[k].value;
    assert FromSnapshot(t, digest, s);
    var o :| SymbolOf(s.key, GetSnapshot(t, digest, s.key)) == Some(o) && s == o.(startLine := s.startLine, endLine := s.endLine);
    assert Widened(merged[k]) == o.(startLine := Widened(merged[k]).startLine, endLine := Widened(merged[k]).endLine);
  }

  /** SymbolFileHash. */
  ghost function RowHash(t: Tables, digest: Digest, key: string): Option<Hash> {
    if id :| id in t.symbols && digest(KeyAt(t, id)) == key then Some(t.symbols[id].fileHash) else None
  }

  ghost function RefOf(t: Tables, digest: Digest, s: Packed): Option<Ref> {
    var hash := if IsLive(s.key) then Some(s.bodyHash) else RowHash(t, digest, s.key);
    match hash
    case None => None
    case Some(h) => Some(Ref(s.key, s.qualifiedName, s.path, s.startLine, s.endLine, h))
  }

  /** buildManifest's entries; `rowHash` is the store's SymbolFileHash. */
  method BuildManifest(symbols: seq<Packed>, rowHash: string -> Option<Hash>) returns (refs: Option<seq<Ref>>)
    ensures refs.None? <==> exists i :: 0 <= i < |symbols| && !IsLive(symbols[i].key) && rowHash(symbols[i].key).None?
    ensures refs.Some? ==> |refs.value| == |symbols|
    ensures refs.Some? ==> forall i :: 0 <= i < |symbols| ==>
              var s, ref := symbols[i], refs.value[i];
              && ref.key == s.key && ref.qualifiedName == s.qualifiedName && ref.path == s.path
              && ref.startLine == s.startLine && ref.endLine == s.endLine
              && if IsLive(s.key) then ref.fileHash == s.bodyHash else rowHash(s.key) == Some(ref.fileHash)
  {
    var out := [];
    for i := 0 to |symbols|
      invariant |out| == i
      invariant forall j :: 0 <= j < i ==> IsLive(symbols[j].key) || rowHash(symbols[j].key).Some?
      invariant forall j :: 0 <= j < i ==> out[j] == RefWith(symbols[j], HashFor(symbols[j], rowHash))
    {
      var s := symbols[i];
      var hash := s.bodyHash;
      if !IsLive(s.key) {
        var stored := rowHash(s.key);
        if stored.None? {
          return None;
        }
        hash := stored.value;
      }
      out := out + [RefWith(s, hash)];
    }
    refs := Some(out);
  }

  /** The hash an entry records; the empty hash stands for a missing row. */
  function HashFor(s: Packed, rowHash: string -> Option<Hash>): Hash {
    if IsLive(s.key) then s.bodyHash
    else match rowHash(s.key) case None => "" case Some(h) => h
  }

  function RefWith(s: Packed, hash: Hash): Ref {
    Ref(s.key, s.qualifiedName, s.path, s.startLine, s.endLine, hash)
  }

  // ---- verification ----

  datatype Resolution = Resolved(ref: Ref) | Ambiguous

  datatype Checked = Checked(key: string, path: Path, stale: bool, resolved: bool, resolvedKey: string)

  /** ResolveRef's fallback: the one stored symbol of that name in that file. */
  ghost function Namesakes(t: Tables, name: string, path: Path): set<RowId> {
    set id | id in t.symbols && t.symbols[id].symbol.qualifiedName == name && t.symbols[id].symbol.path == path
  }

  ghost predicate Indexed(t: Tables, digest: Digest, key: string) {
    exists id :: id in t.symbols && digest(KeyAt(t, id)) == key
  }

  ghost function ResolveRef(t: Tables, digest: Digest, ref: Ref): Resolution {
    if Indexed(t, digest, ref.key) then Resolved(ref)
    else
      var ids := Namesakes(t, ref.qualifiedName, ref.path);
      if |ids| != 1 then Ambiguous
      else
        var id :| id in ids;
        var s := t.symbols[id].symbol;
        Resolved(ref.(key := digest(KeyOf(s)), startLine := s.startLine, endLine := s.endLine))
  }

  /** A reference whose key is stored stays as it is; otherwise it moves to the one
      symbol of its name in its file, and to none when there is not exactly one. */
  lemma ResolveRefIs(t: Tables, digest: Digest, ref: Ref)
    ensures Indexed(t, digest, ref.key) ==> ResolveRef(t, digest, ref) == Resolved(ref)
    ensures !Indexed(t, digest, ref.key) && |Namesakes(t, ref.qualifiedName, ref.path)| != 1 ==> ResolveRef(t, digest, ref) == Ambiguous
    ensures !Indexed(t, digest, ref.key) && |Namesakes(t, ref.qualifiedName, ref.path)| == 1 ==>
      exists id :: id in t.symbols && var s := t.symbols[id].symbol;
        && s.qualifiedName == ref.qualifiedName && s.path == ref.path
        && ResolveRef(t, digest, ref) == Resolved(Ref(digest(KeyOf(s)), ref.qualifiedName, ref.path, s.startLine, s.endLine, ref.fileHash))
  {
  }

  /** A live key resolves to the whole file it still names, or to nothing. */
  lemma ResolveLiveIs(t: Tables, digest: Digest, ref: Ref)
    requires IsLive(ref.key)
    ensures var a := GetLiveFile(t, ref.key);
      ResolveEntry(t, digest, ref) ==
        if a.LiveAnswer? then Resolved(Ref(ref.key, ref.qualifiedName, ref.path, 0, a.endLine, ref.fileHash)) else Ambiguous
  {
    hide GetLiveFile;
  }

  /** The closure Verify hands to runCodeVerify. */
  ghost function ResolveEntry(t: Tables, digest: Digest, ref: Ref): Resolution {
    if !IsLive(ref.key) then ResolveRef(t, digest, ref)
    else match GetLiveFile(t, ref.key)
      case LiveAnswer(_, _, _, endLine) => Resolved(ref.(startLine := 0, endLine := endLine))
      case _ => Ambiguous
  }

  /** The entry a manifest line gets: stale if its file is unreadable or has another
      hash, or if it is a live key that no longer resolves. */
  function Check(ref: Ref, content: Option<string>, fileHash: string -> Hash, r: Resolution): Checked {
    var stale := content.None? || fileHash(content.value) != ref.fileHash;
    match r
    case Resolved(to) => Checked(ref.key, ref.path, stale, true, to.key)
    case Ambiguous => Checked(ref.key, ref.path, stale || IsLive(ref.key), false, "")
  }

  /** One turn of the loop of runCodeVerify. */
  method CheckEntry(ref: Ref, hash: Option<Hash>, resolution: Resolution) returns (entry: Checked)
    ensures entry.key == ref.key && entry.path == ref.path
    ensures entry.stale <==> hash != Some(ref.fileHash) || (resolution.Ambiguous? && IsLive(ref.key))
    ensures entry.resolved <==> resolution.Resolved?
    ensures entry.resolvedKey == if resolution.Resolved? then resolution.ref.key else ""
  {
    entry := Checked(ref.key, ref.path, hash.None? || hash.value != ref.fileHash, false, "");
    match resolution {
      case Resolved(to) =>
        entry := entry.(resolved := true, resolvedKey := to.key);
      case Ambiguous =>
        if IsLive(ref.key) {
          entry := entry.(stale := true);
        }
    }
  }

  /** runCodeVerify: each file is read once, however many entries name it;
      `asked` are the calls of readFile. */
  method RunCodeVerify(refs: seq<Ref>, readFile: Path -> Option<string>, fileHash: string -> Hash, resolve: Ref -> Resolution)
    returns (entries: seq<Checked>, clean: bool, ghost asked: seq<Path>)
    ensures |entries| == |refs|
    ensures forall i :: 0 <= i < |refs| ==> entries[i] == Check(refs[i], readFile(refs[i].path), fileHash, resolve(refs[i]))
    ensures clean <==> forall i :: 0 <= i < |entries| ==> !entries[i].stale && entries[i].resolved
    ensures Distinct(asked) && forall p :: p in asked <==> exists i :: 0 <= i < |refs| && refs[i].path == p
  {
    var files: map<Path, Option<Hash>> := map[];
    entries, clean, asked := [], true, [];
    for i := 0 to |refs|
      invariant |entries| == i
      invariant forall p :: p in files ==> files[p] == HashOf(readFile(p), fileHash)
      invariant forall j :: 0 <= j < i ==> entries[j] == Check(refs[j], readFile(refs[j].path), fileHash, resolve(refs[j]))
      invariant clean <==> forall j :: 0 <= j < i ==> !entries[j].stale && entries[j].resolved
      invariant Distinct(asked) && forall p :: p in asked <==> p in files
      invariant forall p :: p in files <==> exists j :: 0 <= j < i && refs[j].path == p
    {
      var ref := refs[i];
      if ref.path !in files {
        asked := asked + [ref.path];
        files := files[ref.path := HashOf(readFile(ref.path), fileHash)];
      }
      var entry := CheckEntry(ref, files[ref.path], resolve(ref));
      clean := clean && !entry.stale && entry.resolved;
      entries := entries + [entry];
    }
  }

  function HashOf(content: Option<string>, fileHash: string -> Hash): Option<Hash> {
    match content case None => None case Some(c) => Some(fileHash(c))
  }

  datatype StaleEntry = StaleEntry(key: string, path: Path, stale: bool)

  /** CheckStale. */
  method CheckStale(refs: seq<Ref>, readFile: Path -> Option<string>, fileHash: string -> Hash) returns (entries: seq<StaleEntry>, stale: bool, ghost asked: seq<Path>)
    ensures |entries| == |refs|
    ensures forall i :: 0 <= i < |refs| ==>
      entries[i] == StaleEntry(refs[i].key, refs[i].path, HashOf(readFile(refs[i].path), fileHash) != Some(refs[i].fileHash))
    ensures stale <==> exists i :: 0 <= i < |entries| && entries[i].stale
    ensures Distinct(asked) && forall p :: p in asked <==> exists i :: 0 <= i < |refs| && refs[i].path == p
  {
    var cache: map<Path, Option<Hash>> := map[];
    entries, stale, asked := [], false, [];
    for i := 0 to |refs|
      invariant |entries| == i
      invariant forall p :: p in cache ==> cache[p] == HashOf(readFile(p), fileHash)
      invariant forall j :: 0 <= j < i ==>
        entries[j] == StaleEntry(refs[j].key, refs[j].path, HashOf(readFile(refs[j].path), fileHash) != Some(refs[j].fileHash))
      invariant stale <==> exists j :: 0 <= j < i && entries[j].stale
      invariant Distinct(asked) && forall p :: p in asked <==> p in cache
      invariant forall p :: p in cache <==> exists j :: 0 <= j < i && refs[j].path == p
    {
      var ref := refs[i];
      if ref.path !in cache {
        asked := asked + [ref.path];
        cache := cache[ref.path := HashOf(readFile(ref.path), fileHash)];
      }
      var c := cache[ref.path];
      var old_ := entries;
      entries := entries + [StaleEntry(ref.key, ref.path, c.None? || c.value != ref.fileHash)];
      assert forall j :: 0 <= j < i ==> entries[j] == old_[j];
      assert entries[i].stale <==> c.None? || c.value != ref.fileHash;
      if c.None? || c.value != ref.fileHash {
        stale := true;
      }
    }
  }

  // ---- the round trip ----

  /** What the store shows of p, live row or durable rows, is what is on disk. */
  ghost predicate ShowsDisk(t: Tables, disk: map<Path, string>, fileHash: string -> Hash, p: Path) {
    && (p in t.live && !t.live[p].deleted ==> p in disk && t.live[p].hash == fileHash(disk[p]))
    && (forall id :: id in t.symbols && t.symbols[id].symbol.path == p && p !in t.live ==>
          p in disk && t.symbols[id].fileHash == fileHash(disk[p]))
  }

  function Read(disk: map<Path, string>, p: Path): Option<string> {
    if p in disk then Some(disk[p]) else None
  }

  /** A symbol packed under a snapshot, verified against the same store and disk, is
      fresh and resolves to itself: durable and live alike. */
  lemma PackedVerifiesClean(t: Tables, digest: Digest, disk: map<Path, string>, fileHash: string -> Hash, s: Packed)
    requires Sound(digest) && UniqueKeys(t) && ShowsDisk(t, disk, fileHash, s.path) && FromSnapshot(t, digest, s)
    ensures RefOf(t, digest, s).Some?
    ensures var ref := RefOf(t, digest, s).value;
      Check(ref, Read(disk, s.path), fileHash, ResolveEntry(t, digest, ref)) == Checked(s.key, s.path, false, true, s.key)
  {
    hide ParseLiveKey, LineCount;
    var o :| SymbolOf(s.key, GetSnapshot(t, digest, s.key)) == Some(o) && s == o.(startLine := s.startLine, endLine := s.endLine);
    if !IsLive(s.key) {
      var id :| id in t.symbols && digest(KeyAt(t, id)) == s.key;
    }
  }

  /** Pack, then Verify: the whole manifest comes back clean. */
  lemma PackThenVerifyIsClean(t: Tables, digest: Digest, disk: map<Path, string>, fileHash: string -> Hash, symbols: seq<Packed>, refs: seq<Ref>, entries: seq<Checked>)
    requires Sound(digest) && UniqueKeys(t) && |refs| == |symbols| == |entries|
    requires forall i :: 0 <= i < |symbols| ==> FromSnapshot(t, digest, symbols[i]) && ShowsDisk(t, disk, fileHash, symbols[i].path)
    requires forall i :: 0 <= i < |symbols| ==> RefOf(t, digest, symbols[i]) == Some(refs[i])
    requires forall i :: 0 <= i < |refs| ==> entries[i] == Check(refs[i], Read(disk, refs[i].path), fileHash, ResolveEntry(t, digest, refs[i]))
    ensures forall i :: 0 <= i < |entries| ==> !entries[i].stale && entries[i].resolved && entries[i].resolvedKey == refs[i].key
  {
    hide GetSnapshot, ResolveEntry, Check, ShowsDisk, FromSnapshot;
    forall i | 0 <= i < |entries|
      ensures !entries[i].stale && entries[i].resolved && entries[i].resolvedKey == refs[i].key
    {
      PackedVerifiesClean(t, digest, disk, fileHash, symbols[i]);
    }
  }

  /** p's live row is in place as it was. */
  predicate SameLiveRow(t: Tables, t': Tables, p: Path) {
    && p in t.live && p in t'.live && !t'.live[p].deleted
    && t'.live[p].hash == t.live[p].hash && t'.live[p].generation == t.live[p].generation
  }

  /** What Verify reports of a packed symbol on any later store and disk: it is clean
      exactly when its file still has the recorded content and, for a live key, the
      row is in place as it was, for a durable one, the symbol or one namesake is there. */
  lemma VerifiedCleanIff(t: Tables, t': Tables, digest: Digest, disk: map<Path, string>, fileHash: string -> Hash, s: Packed, ref: Ref)
    requires FromSnapshot(t, digest, s) && RefOf(t, digest, s) == Some(ref)
    ensures
      var entry := Check(ref, Read(disk, ref.path), fileHash, ResolveEntry(t', digest, ref));
      !entry.stale && entry.resolved <==>
        && ref.path in disk && fileHash(disk[ref.path]) == ref.fileHash
        && if IsLive(ref.key) then SameLiveRow(t, t', ref.path)
           else Indexed(t', digest, ref.key) || |Namesakes(t', ref.qualifiedName, ref.path)| == 1
  {
    hide ParseLiveKey, LineCount;
    var o :| SymbolOf(s.key, GetSnapshot(t, digest, s.key)) == Some(o) && s == o.(startLine := s.startLine, endLine := s.endLine);
  }
}
