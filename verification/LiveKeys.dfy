/** Keys handed out by a search and taken back by a get
    (src/internal/codestore/symbols.go:541-594, 831-895, 953-968, 1191-1209;
    src/cmd/ragrep/code_service.go:126-191, 387-407). */
module LiveKeys {
  import opened Options
  import opened Codestore
  import opened Ranking
  import opened Sorting
  import opened Sequences

  // ---- the key format ----

  const TWO_TO_THE_64 := 0x1_0000_0000_0000_0000

  predicate IsDigit(c: char) {
    '0' <= c <= '9'
  }

  predicate AllDigits(s: string) {
    forall i :: 0 <= i < |s| ==> IsDigit(s[i])
  }

  function Decimal(n: nat): string {
    if n < 10 then ['0' + n as char] else Decimal(n / 10) + ['0' + (n % 10) as char]
  }

  function Value(s: string): nat
    requires AllDigits(s)
  {
    if s == "" then 0 else Value(s[..|s| - 1]) * 10 + (s[|s| - 1] as int - '0' as int)
  }

  /** strconv.ParseUint(s, 10, 64). */
  function ParseUint(s: string): Option<nat> {
    if s != "" && AllDigits(s) && Value(s) < TWO_TO_THE_64 then Some(Value(s)) else None
  }

  lemma {:induction false} DecimalParses(n: nat)
    ensures Decimal(n) != "" && AllDigits(Decimal(n)) && Value(Decimal(n)) == n
  {
    if n >= 10 {
      DecimalParses(n / 10);
      var s := Decimal(n);
      assert s[..|s| - 1] == Decimal(n / 10);
    } else {
      assert Decimal(n)[..0] == "";
    }
  }

  function IndexOf(s: string, c: char): (i: nat)
    ensures i <= |s| && c !in s[..i] && (i < |s| ==> s[i] == c)
  {
    if s == "" || s[0] == c then 0
    else
      var rest := IndexOf(s[1..], c);
      assert s[..rest + 1] == [s[0]] + s[1..][..rest];
      rest + 1
  }

  lemma {:induction false} IndexOfIs(s: string, c: char, i: nat)
    requires i < |s| && s[i] == c && c !in s[..i]
    ensures IndexOf(s, c) == i
  {
    if i == 0 {
    } else {
      assert s[0] == s[..i][0];
      assert s[1..][..i - 1] == s[..i][1..];
      IndexOfIs(s[1..], c, i - 1);
    }
  }

  /** strings.SplitN(s, ":", n) for n > 0. */
  function SplitN(s: string, n: nat): (parts: seq<string>)
    requires n > 0
    ensures 0 < |parts| <= n
  {
    var i := IndexOf(s, ':');
    if n == 1 || i == |s| then [s] else [s[..i]] + SplitN(s[i + 1..], n - 1)
  }

  datatype LiveName = LiveName(generation: nat, hash: Hash, path: Path)

  function LiveKey(name: LiveName): string {
    "live:" + Decimal(name.generation) + ":" + name.hash + ":" + name.path
  }

  function ParseLiveKey(key: string): Option<LiveName> {
    var parts := SplitN(key, 4);
    if |parts| != 4 || parts[0] != "live" || parts[2] == "" || parts[3] == "" then None
    else match ParseUint(parts[1])
      case None => None
      case Some(generation) => Some(LiveName(generation, parts[2], parts[3]))
  }

  lemma SplitHead(head: string, rest: string, n: nat)
    requires n > 1 && ':' !in head
    ensures SplitN(head + ":" + rest, n) == [head] + SplitN(rest, n - 1)
  {
    var s := head + ":" + rest;
    var i := |head|;
    assert s[..i] == head && s[i] == ':' && s[i + 1..] == rest;
    IndexOfIs(s, ':', i);
  }

  lemma SplitLiveKey(name: LiveName)
    ensures SplitN(LiveKey(name), 4) == ["live", Decimal(name.generation)] + SplitN(name.hash + ":" + name.path, 2)
  {
    hide SplitN;
    var n := Decimal(name.generation);
    DecimalParses(name.generation);
    var tail := name.hash + ":" + name.path;
    assert LiveKey(name) == "live" + ":" + (n + ":" + tail);
    SplitHead("live", n + ":" + tail, 4);
    SplitHead(n, tail, 3);
  }

  lemma SplitInTwo(h: string, p: string)
    ensures SplitN(h + ":" + p, 2)[0] == h && |SplitN(h + ":" + p, 2)| == 2 && SplitN(h + ":" + p, 2)[1] == p <==> ':' !in h
    ensures ':' in h ==> SplitN(h + ":" + p, 2)[0] != h
  {
    if ':' !in h {
      SplitHead(h, p, 2);
    } else {
      var i := IndexOf(h + ":" + p, ':');
      assert (h + ":" + p)[..i] == SplitN(h + ":" + p, 2)[0];
    }
  }

  /** Parsing inverts formatting, colons in the path included, exactly for a
      non-empty colon-free hash and a non-empty path. */
  lemma ParseInvertsFormatIff(name: LiveName)
    requires name.generation < TWO_TO_THE_64
    ensures ParseLiveKey(LiveKey(name)) == Some(name) <==> name.hash != "" && ':' !in name.hash && name.path != ""
  {
    hide SplitN, LiveKey;
    SplitLiveKey(name);
    SplitInTwo(name.hash, name.path);
    DecimalParses(name.generation);
    var parts := SplitN(LiveKey(name), 4);
    var last := SplitN(name.hash + ":" + name.path, 2);
    assert parts[0] == "live" && parts[1] == Decimal(name.generation) && parts[2] == last[0];
  }

  lemma {:induction false} SplitPartsClean(s: string, n: nat)
    requires n > 0
    ensures forall i :: 0 <= i < |SplitN(s, n)| - 1 ==> ':' !in SplitN(s, n)[i]
  {
    var i := IndexOf(s, ':');
    if n > 1 && i < |s| {
      SplitPartsClean(s[i + 1..], n - 1);
    }
  }

  /** Every key that parses names the same row as its canonical spelling, so
      accepting leading zeros adds keys but no rows. */
  lemma AcceptedKeysAreCanonical(key: string)
    requires ParseLiveKey(key).Some?
    ensures ParseLiveKey(LiveKey(ParseLiveKey(key).value)) == ParseLiveKey(key)
  {
    hide LiveKey;
    SplitPartsClean(key, 4);
    ParseInvertsFormatIff(ParseLiveKey(key).value);
  }

  // ---- reading a key back ----

  datatype Answer =
    | LiveAnswer(path: Path, body: string, hash: Hash, endLine: int)
    | DurableAnswer(symbol: Symbol)
    | StaleKey
    | NoSuchKey

  predicate Served(a: Answer) {
    a.LiveAnswer? || a.DurableAnswer?
  }

  function LineCount(body: string): nat {
    if body == "" then 0 else LineCount(body[..|body| - 1]) + (if body[|body| - 1] == '\n' then 1 else 0)
  }

  /** As many as there are line feeds. */
  lemma {:induction false} LineCountIs(body: string)
    ensures LineCount(body) == multiset(body)['\n']
  {
    if body == "" {
    } else {
      LineCountIs(body[..|body| - 1]);
      assert body == body[..|body| - 1] + [body[|body| - 1]];
    }
  }

  function GetLiveFile(t: Tables, key: string): Answer {
    match ParseLiveKey(key)
    case None => StaleKey
    case Some(name) =>
      if name.path !in t.live then StaleKey
      else
        var file := t.live[name.path];
        if file.deleted || file.generation != name.generation || file.hash != name.hash then StaleKey
        else LiveAnswer(name.path, file.body, file.hash, LineCount(file.body) + 1)
  }

  /** How stable keys are written: an injective digest in hexadecimal. */
  type Digest = SymbolKey -> string

  predicate IsHex(c: char) {
    '0' <= c <= '9' || 'a' <= c <= 'f'
  }

  ghost predicate Sound(digest: Digest) {
    && (forall k :: forall i :: 0 <= i < |digest(k)| ==> IsHex(digest(k)[i]))
    && (forall a, b :: digest(a) == digest(b) ==> a == b)
  }

  ghost function GetVisibleSymbol(t: Tables, digest: Digest, key: string): Answer {
    if exists id :: id in t.symbols && digest(KeyAt(t, id)) == key then
      var id :| id in t.symbols && digest(KeyAt(t, id)) == key;
      var symbol := t.symbols[id].symbol;
      if symbol.path in t.live then StaleKey else DurableAnswer(symbol)
    else NoSuchKey
  }

  ghost function GetSnapshot(t: Tables, digest: Digest, key: string): Answer {
    if "live:" <= key then GetLiveFile(t, key) else GetVisibleSymbol(t, digest, key)
  }

  // ---- what a search returns ----

  predicate Visible(t: Tables, id: int) {
    id >= 0 && id in t.symbols && t.symbols[id].symbol.path !in t.live
  }

  function RowOf(t: Tables, id: int): Symbol
    requires Visible(t, id)
  {
    var row: RowId := id;
    t.symbols[row].symbol
  }

  function DurableHit(t: Tables, digest: Digest, id: RowId, exact: bool, score: real): Hit
    requires id in t.symbols
  {
    var s := t.symbols[id].symbol;
    Hit(digest(KeyOf(s)), s.path, s.startLine, s.endLine, exact, score)
  }

  function LiveHit(t: Tables, p: Path, exact: bool): Hit
    requires p in t.live
  {
    var file := t.live[p];
    Hit(LiveKey(LiveName(file.generation, file.hash, p)), p, 0, LineCount(file.body) + 1, exact, 0.0)
  }

  ghost predicate FromDurable(t: Tables, digest: Digest, hit: Hit) {
    exists id :: Visible(t, id) && hit == DurableHit(t, digest, id, hit.exact, hit.score)
  }

  predicate Searchable(t: Tables, p: Path) {
    p in t.live && !t.live[p].deleted
  }

  ghost predicate FromLive(t: Tables, hit: Hit) {
    Searchable(t, hit.path) && hit == LiveHit(t, hit.path, hit.exact).(score := hit.score)
  }

  /** The hit names the symbol: its key, file and lines. */
  predicate HitOfRow(hit: Hit, s: Symbol, digest: Digest) {
    hit.key == digest(KeyOf(s)) && hit.path == s.path && hit.startLine == s.startLine && hit.endLine == s.endLine
  }

  /** symbolHitsByIDs. */
  method SymbolHitsByIds(t: Tables, digest: Digest, ids: seq<int>, exact: set<int>, scores: map<int, real>) returns (hits: seq<Hit>)
    requires forall id :: id in ids ==> Visible(t, id)
    ensures |hits| == |ids| && forall i :: 0 <= i < |hits| ==> FromDurable(t, digest, hits[i])
    ensures forall i :: 0 <= i < |hits| ==> Visible(t, ids[i]) && HitOfRow(hits[i], RowOf(t, ids[i]), digest)
    ensures forall i :: 0 <= i < |hits| ==> hits[i].exact == (ids[i] in exact) && hits[i].score == ScoreOf(scores, ids[i])
  {
    hits := [];
    for i := 0 to |ids|
      invariant |hits| == i && forall j :: 0 <= j < i ==> FromDurable(t, digest, hits[j])
      invariant forall j :: 0 <= j < i ==> Visible(t, ids[j]) && HitOfRow(hits[j], RowOf(t, ids[j]), digest)
      invariant forall j :: 0 <= j < i ==> hits[j].exact == (ids[j] in exact) && hits[j].score == ScoreOf(scores, ids[j])
    {
      assert ids[i] in ids;
      var hit := DurableHit(t, digest, ids[i], ids[i] in exact, ScoreOf(scores, ids[i]));
      assert FromDurable(t, digest, hit);
      hits := hits + [hit];
    }
  }

  /** Reciprocal rank fusion of two ranked lists. */
  function Fused(textIds: seq<int>, vectorIds: seq<int>, id: int): real {
    Votes(textIds, id) + Votes(vectorIds, id)
  }

  /** The higher score first, and the lower row id on equal scores. */
  predicate Better(textIds: seq<int>, vectorIds: seq<int>, a: int, b: int) {
    var x, y := Fused(textIds, vectorIds, a), Fused(textIds, vectorIds, b);
    x > y || (x == y && a < b)
  }

  /** At most k of the listed ids, each once: exact matches first, each half by its
      fused score, and one left out only for k that come before it. */
  ghost predicate InFusedOrder(textIds: seq<int>, vectorIds: seq<int>, exactIds: seq<int>, k: nat, ids: seq<int>) {
    && |ids| <= k && Distinct(ids)
    && (forall id :: id in ids ==> id in textIds || id in vectorIds || id in exactIds)
    && (forall i, j :: 0 <= i < j < |ids| ==> ComesFirst(textIds, vectorIds, exactIds, ids[i], ids[j]))
    && (forall id :: (id in textIds || id in vectorIds || id in exactIds) && id !in ids ==>
          |ids| == k && forall i :: 0 <= i < k ==> ComesFirst(textIds, vectorIds, exactIds, ids[i], id))
  }

  predicate ComesFirst(textIds: seq<int>, vectorIds: seq<int>, exactIds: seq<int>, a: int, b: int) {
    (a in exactIds && b !in exactIds) || ((a in exactIds <==> b in exactIds) && Better(textIds, vectorIds, a, b))
  }

  /** SearchSymbolsHybrid; its three queries skip every path with a live row.  `ids`
      are the rows of the hits. */
  method SearchHybrid(t: Tables, digest: Digest, textIds: seq<int>, vectorIds: seq<int>, exactIds: seq<int>, k: nat)
      returns (hits: seq<Hit>, ghost ids: seq<int>)
    requires Distinct(exactIds)
    requires forall id :: id in textIds || id in vectorIds || id in exactIds ==> Visible(t, id)
    ensures |hits| <= k && forall i :: 0 <= i < |hits| ==> FromDurable(t, digest, hits[i])
    ensures forall i, j :: 0 <= i < j < |hits| ==> hits[j].exact ==> hits[i].exact
    ensures InFusedOrder(textIds, vectorIds, exactIds, k, ids)
    ensures |ids| == |hits| && forall i :: 0 <= i < |ids| ==>
              && Visible(t, ids[i]) && HitOfRow(hits[i], RowOf(t, ids[i]), digest)
              && (hits[i].exact <==> ids[i] in exactIds) && hits[i].score == Votes(textIds, ids[i]) + Votes(vectorIds, ids[i])
  {
    hide Votes, Visible, HitOfRow, FromDurable, ByScore, Better;
    var lists := [textIds, vectorIds];
    var fused, scores := RrfMerge(lists);
    TwoListed(textIds, vectorIds);
    FusedScores(textIds, vectorIds, scores);
    var chosen, pinned := PrioritizeExact(exactIds, fused, scores, k);
    ids := chosen;
    FusedOrder(textIds, vectorIds, exactIds, fused, scores, k, pinned, ids);
    var exact := set id | id in exactIds;
    hits := SymbolHitsByIds(t, digest, chosen, exact, scores);
    hide ScoreOf, Sorted, Without;
  }

  lemma FusedOrder(textIds: seq<int>, vectorIds: seq<int>, exactIds: seq<int>, fused: seq<int>, scores: map<int, real>, k: nat,
      pinned: seq<int>, ids: seq<int>)
    requires forall id :: ScoreOf(scores, id) == Votes(textIds, id) + Votes(vectorIds, id)
    requires Sorted(ByScore(scores), fused) && Distinct(fused) && forall id :: id in fused <==> id in textIds || id in vectorIds
    requires Sorted(ByScore(scores), pinned) && SameElements(pinned, exactIds)
    requires ids == Take(pinned + Without(fused, exactIds), k)
    ensures InFusedOrder(textIds, vectorIds, exactIds, k, ids)
  {
    hide Sorted, Without, SameElements;
    PinnedFirst(exactIds, fused, scores, k, pinned, ids);
    RestInOrder(exactIds, fused, scores, k, pinned, ids);
    forall a, b | Outranks(scores, a, b)
      ensures Better(textIds, vectorIds, a, b)
    {
    }
    hide Outranks, Better, Take;
  }

  lemma TwoListed(a: seq<int>, b: seq<int>)
    ensures forall id :: Listed([a, b], id) <==> id in a || id in b
  {
    assert [a, b][0] == a && [a, b][1] == b;
  }

  lemma FusedScores(a: seq<int>, b: seq<int>, scores: map<int, real>)
    requires forall id :: id in scores <==> Listed([a, b], id)
    requires forall id :: id in scores ==> scores[id] == AllVotes([a, b], id)
    ensures forall id :: ScoreOf(scores, id) == Votes(a, id) + Votes(b, id)
  {
    TwoListed(a, b);
    forall id
      ensures ScoreOf(scores, id) == Votes(a, id) + Votes(b, id)
    {
      TwoLists(a, b, id);
      if id !in scores {
        UnlistedHasNoVotes(a, id);
        UnlistedHasNoVotes(b, id);
      }
    }
  }

  /** The hit is for the whole file of this row. */
  predicate NamesAllOf(hit: Hit, file: LiveFile) {
    hit.key == LiveKey(LiveName(file.generation, file.hash, hit.path)) && hit.startLine == 0 && hit.endLine == multiset(file.body)['\n'] + 1
  }

  lemma LiveHitIs(t: Tables, hit: Hit)
    requires FromLive(t, hit)
    ensures hit.path in t.live && NamesAllOf(hit, t.live[hit.path])
  {
    LineCountIs(t.live[hit.path].body);
  }

  /** SearchLiveText: the file named by the query, then the full-text matches,
      which are live, not that file, and few enough. */
  method SearchLiveText(t: Tables, query: string, matches: seq<Path>, mentions: (string, string) -> bool, k: nat) returns (hits: seq<Hit>)
    requires forall p :: p in matches ==> Searchable(t, p) && p != query
    requires Distinct(matches) && (k > 0 ==> |matches| <= k - (if Searchable(t, query) then 1 else 0))
    ensures |hits| <= k && forall i :: 0 <= i < |hits| ==> FromLive(t, hits[i])
    ensures forall i :: 0 <= i < |hits| ==> hits[i].path in t.live && NamesAllOf(hits[i], t.live[hits[i].path])
    ensures forall i, j :: 0 <= i < j < |hits| ==> hits[i].path != hits[j].path
    ensures k > 0 && Searchable(t, query) ==> hits != [] && hits[0].path == query && hits[0].exact
    ensures forall i :: 0 <= i < |hits| ==>
              hits[i].path in t.live && (hits[i].exact <==> hits[i].path == query || mentions(query, t.live[hits[i].path].body))
    ensures var first := if Searchable(t, query) then 1 else 0;
      if k == 0 then hits == []
      else |hits| == first + |matches| && forall i :: first <= i < |hits| ==> hits[i].path == matches[i - first]
  {
    hits := [];
    if k == 0 {
      return;
    }
    if Searchable(t, query) {
      hits := [LiveHit(t, query, true)];
      if |hits| == k {
        LiveHitIs(t, hits[0]);
        return;
      }
    }
    ghost var first := |hits|;
    for i := 0 to |matches|
      invariant |hits| == first + i && hits[..first] == (if first == 1 then [LiveHit(t, query, true)] else [])
      invariant forall j :: first <= j < |hits| ==> hits[j].path == matches[j - first] && FromLive(t, hits[j])
      invariant forall j :: first <= j < |hits| ==>
        hits[j].path in t.live && (hits[j].exact <==> hits[j].path == query || mentions(query, t.live[hits[j].path].body))
    {
      var p := matches[i];
      assert p in matches;
      hits := hits + [LiveHit(t, p, p == query || mentions(query, t.live[p].body))];
    }
    assert first == 1 ==> hits[0] == hits[..first][0];
    forall i | 0 <= i < |hits| {
      LiveHitIs(t, hits[i]);
    }
  }

  // ---- search keys are accepted ----

  /** Hashes are hexadecimal and paths are not empty, in every live row. */
  predicate WellKeyed(t: Tables) {
    forall p :: p in t.live ==>
      p != "" && t.live[p].hash != "" && ':' !in t.live[p].hash && t.live[p].generation < TWO_TO_THE_64
  }

  lemma DurableKeyAccepted(t: Tables, digest: Digest, id: RowId)
    requires Sound(digest) && UniqueKeys(t) && Visible(t, id)
    ensures GetSnapshot(t, digest, digest(KeyAt(t, id))) == DurableAnswer(t.symbols[id].symbol)
  {
    var key := digest(KeyAt(t, id));
    assert |key| > 0 ==> IsHex(key[0]);
    assert "live:"[0] == 'l';
    assert forall other :: other in t.symbols && digest(KeyAt(t, other)) == key ==> other == id;
  }

  lemma LivePrefix(name: LiveName)
    ensures "live:" <= LiveKey(name)
  {
  }

  /** A live key is accepted exactly while the row it was made from is in place, and
      then answered with all of that row's text. */
  lemma LiveKeyAcceptedIff(t: Tables, digest: Digest, name: LiveName)
    requires name.generation < TWO_TO_THE_64 && name.hash != "" && ':' !in name.hash && name.path != ""
    ensures Served(GetSnapshot(t, digest, LiveKey(name))) <==>
      name.path in t.live && !t.live[name.path].deleted
        && t.live[name.path].generation == name.generation && t.live[name.path].hash == name.hash
    ensures Served(GetSnapshot(t, digest, LiveKey(name))) ==>
      var body := t.live[name.path].body;
      GetSnapshot(t, digest, LiveKey(name)) == LiveAnswer(name.path, body, name.hash, multiset(body)['\n'] + 1)
  {
    hide LiveKey, ParseLiveKey;
    ParseInvertsFormatIff(name);
    LivePrefix(name);
    if name.path in t.live {
      LineCountIs(t.live[name.path].body);
    }
  }

  predicate Describes(a: Answer, hit: Hit) {
    match a
    case LiveAnswer(path, _, _, endLine) => path == hit.path && endLine == hit.endLine && hit.startLine == 0
    case DurableAnswer(symbol) => symbol.path == hit.path && symbol.startLine == hit.startLine && symbol.endLine == hit.endLine
    case _ => false
  }

  /** Every hit of a search is served by a get under the same snapshot, and the
      answer is the file or symbol the hit described. */
  lemma SearchedKeysAreServed(t: Tables, digest: Digest, durable: seq<Hit>, live: seq<Hit>, k: nat,
      ranked: seq<Candidate>, picks: seq<nat>, i: nat)
    requires Sound(digest) && UniqueKeys(t) && WellKeyed(t)
    requires forall j :: 0 <= j < |durable| ==> FromDurable(t, digest, durable[j])
    requires forall j :: 0 <= j < |live| ==> FromLive(t, live[j])
    requires IsRanking(Merged(durable, live), ranked) && Selection(ranked, k, picks) && i < |picks|
    ensures Describes(GetSnapshot(t, digest, Chosen(ranked, picks)[i].key), Chosen(ranked, picks)[i])
  {
    hide Merged, GetSnapshot, LiveKey;
    HitsAreDistinct(durable, live, k, ranked, picks);
    var hit := Chosen(ranked, picks)[i];
    if From(hit, durable) {
      var j :| 0 <= j < |durable| && hit == durable[j].(score := hit.score);
      assert FromDurable(t, digest, durable[j]);
      var id :| Visible(t, id) && durable[j] == DurableHit(t, digest, id, durable[j].exact, durable[j].score);
      DurableKeyAccepted(t, digest, id);
    } else {
      var j :| 0 <= j < |live| && hit == live[j].(score := hit.score);
      assert FromLive(t, live[j]);
      LiveHitServed(t, digest, live[j]);
    }
  }

  lemma LiveHitServed(t: Tables, digest: Digest, hit: Hit)
    requires WellKeyed(t) && FromLive(t, hit)
    ensures Describes(GetSnapshot(t, digest, hit.key), hit)
  {
    hide LiveKey, ParseLiveKey, LineCount;
    var file := t.live[hit.path];
    var name := LiveName(file.generation, file.hash, hit.path);
    ParseInvertsFormatIff(name);
    LivePrefix(name);
  }

  // ---- a live key has one body ----

  ghost predicate BodiesHashed(t: Tables, fileHash: string -> Hash) {
    forall p :: p in t.live && !t.live[p].deleted ==> t.live[p].hash == fileHash(t.live[p].body)
  }

  predicate Collision(fileHash: string -> Hash, a: string, b: string) {
    a != b && fileHash(a) == fileHash(b)
  }

  /** One path and one body, unless the two bodies are a collision of the file hash. */
  predicate SameBody(a: Answer, b: Answer, fileHash: string -> Hash)
    requires a.LiveAnswer? && b.LiveAnswer?
  {
    a.path == b.path && a.hash == b.hash && (a.body != b.body ==> Collision(fileHash, a.body, b.body))
  }

  lemma LiveKeyHasOneBody(t: Tables, t': Tables, key: string, fileHash: string -> Hash)
    requires BodiesHashed(t, fileHash) && BodiesHashed(t', fileHash)
    requires GetLiveFile(t, key).LiveAnswer? && GetLiveFile(t', key).LiveAnswer?
    ensures SameBody(GetLiveFile(t, key), GetLiveFile(t', key), fileHash)
  {
    hide ParseLiveKey;
  }

  ghost predicate PutsHashed(ops: seq<Op>, fileHash: string -> Hash) {
    forall i :: 0 <= i < |ops| && ops[i].OpPutLive? && !ops[i].file.deleted ==> ops[i].file.hash == fileHash(ops[i].file.body)
  }

  lemma UpsertKeepsLive(t: Tables, path: Path, hash: Hash, symbols: seq<Symbol>, runId: int, embed: EmbedFunc)
    ensures Upsert(t, path, hash, symbols, runId, embed).Some? ==> Upsert(t, path, hash, symbols, runId, embed).value.live == t.live
  {
    var start := DeleteRows(t, StaleIds(t, path, symbols));
    if !UpToDate(t, path, hash) && Upsert(t, path, hash, symbols, runId, embed).Some? {
      WriteRowsLive(start, Existing(t, path), hash, symbols, runId, embed);
    }
  }

  /** Any sequence of transactions whose puts carry the hash of their body keeps
      every live row's hash right. */
  lemma {:induction false} BodiesStayHashed(run: seq<Tables>, ops: seq<Op>, embed: EmbedFunc, fileHash: string -> Hash, k: nat)
    requires IsRun(run, ops, embed) && k <= |ops| && BodiesHashed(run[0], fileHash) && PutsHashed(ops, fileHash)
    ensures BodiesHashed(run[k], fileHash)
  {
    if k == 0 {
    } else {
      BodiesStayHashed(run, ops, embed, fileHash, k - 1);
      match ops[k - 1] {
        case OpUpsert(path, hash, symbols, runId) => UpsertKeepsLive(run[k - 1], path, hash, symbols, runId, embed);
        case _ =>
      }
    }
  }

  /** So a live key never resolves to a different body: whatever transactions run in
      between, two answers to it are of one file content. */
  lemma LiveKeyKeepsBody(run: seq<Tables>, ops: seq<Op>, embed: EmbedFunc, fileHash: string -> Hash, i: nat, j: nat, key: string)
    requires IsRun(run, ops, embed) && BodiesHashed(run[0], fileHash) && PutsHashed(ops, fileHash) && i <= |ops| && j <= |ops|
    requires GetLiveFile(run[i], key).LiveAnswer? && GetLiveFile(run[j], key).LiveAnswer?
    ensures SameBody(GetLiveFile(run[i], key), GetLiveFile(run[j], key), fileHash)
  {
    hide PutsHashed, BodiesHashed, GetLiveFile, SameBody;
    BodiesStayHashed(run, ops, embed, fileHash, i);
    BodiesStayHashed(run, ops, embed, fileHash, j);
    LiveKeyHasOneBody(run[i], run[j], key, fileHash);
  }
}
