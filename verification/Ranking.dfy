/** Merging ranked lists: reciprocal rank fusion and exact-match pinning
    (src/internal/codestore/symbols.go:1026-1085) and the greedy selection of
    non-overlapping hits (src/cmd/ragrep/code_service.go:781-828).  Go iterates
    maps in any order; here that order is an arbitrary choice. */
module Ranking {
  import opened Sorting
  import opened Sequences

  /** What a list contributes to an id: 1/(60 + rank) for each 1-based rank it holds. */
  function Votes<K(==)>(list: seq<K>, key: K): real {
    if list == [] then 0.0
    else
      var n := |list| - 1;
      Votes(list[..n], key) + (if list[n] == key then 1.0 / (61 + n) as real else 0.0)
  }

  function AllVotes<K(==)>(lists: seq<seq<K>>, key: K): real {
    if lists == [] then 0.0
    else AllVotes(lists[..|lists| - 1], key) + Votes(lists[|lists| - 1], key)
  }

  lemma {:induction false} UnlistedHasNoVotes<K>(list: seq<K>, key: K)
    requires key !in list
    ensures Votes(list, key) == 0.0
  {
    if list == [] {
    } else {
      UnlistedHasNoVotes(list[..|list| - 1], key);
    }
  }

  /** In a list without repeats, the item at 1-based rank r has 1/(60 + r). */
  lemma {:induction false} VotesByRank<K>(list: seq<K>, r: nat)
    requires 1 <= r <= |list| && Distinct(list)
    ensures Votes(list, list[r - 1]) == 1.0 / (60 + r) as real
  {
    var n := |list| - 1;
    if r == n + 1 {
      UnlistedHasNoVotes(list[..n], list[n]);
    } else {
      VotesByRank(list[..n], r);
    }
  }

  lemma TwoLists<K>(a: seq<K>, b: seq<K>, key: K)
    ensures AllVotes([a, b], key) == Votes(a, key) + Votes(b, key)
  {
    assert [a, b][..1] == [a] && [a][..0] == [];
    assert AllVotes([a], key) == AllVotes([a][..0], key) + Votes(a, key);
    assert AllVotes([a, b], key) == AllVotes([a, b][..1], key) + Votes(b, key);
  }

  predicate Listed<K(==)>(lists: seq<seq<K>>, key: K) {
    exists i :: 0 <= i < |lists| && key in lists[i]
  }

  /** One pass over a map's keys; which order Go takes is unknown. */
  method InMapOrder<T(==)>(keys: set<T>) returns (order: seq<T>)
    ensures Distinct(order)
    ensures forall x :: x in order <==> x in keys
  {
    order := [];
    var left := keys;
    while left != {}
      invariant left <= keys && Distinct(order)
      invariant forall x :: x in order <==> x in keys && x !in left
      decreases |left|
    {
      var x :| x in left;
      order, left := order + [x], left - {x};
    }
  }

  // ---- rrfMerge and prioritizeExactIDs ----

  function ScoreOf(scores: map<int, real>, id: int): real {
    if id in scores then scores[id] else 0.0
  }

  predicate Outranks(scores: map<int, real>, a: int, b: int) {
    if ScoreOf(scores, a) != ScoreOf(scores, b) then ScoreOf(scores, a) > ScoreOf(scores, b) else a < b
  }

  function ByScore(scores: map<int, real>): Less<int> {
    (a, b) => Outranks(scores, a, b)
  }

  method AddVotes(before: map<int, real>, list: seq<int>) returns (scores: map<int, real>)
    ensures forall id :: id in scores <==> id in before || id in list
    ensures forall id :: ScoreOf(scores, id) == ScoreOf(before, id) + Votes(list, id)
  {
    scores := before;
    for r := 0 to |list|
      invariant forall id :: id in scores <==> id in before || id in list[..r]
      invariant forall id :: ScoreOf(scores, id) == ScoreOf(before, id) + Votes(list[..r], id)
    {
      assert list[..r + 1] == list[..r] + [list[r]] && list[..r + 1][..r] == list[..r];
      scores := scores[list[r] := ScoreOf(scores, list[r]) + 1.0 / (60 + r + 1) as real];
    }
    assert list[..|list|] == list;
  }

  /** The fused ranking: every listed id once, by descending score, ties by id. */
  method RrfMerge(lists: seq<seq<int>>) returns (ids: seq<int>, scores: map<int, real>)
    ensures forall id :: id in scores <==> Listed(lists, id)
    ensures forall id :: id in scores ==> scores[id] == AllVotes(lists, id)
    ensures Sorted(ByScore(scores), ids) && Distinct(ids)
    ensures forall id :: id in ids <==> Listed(lists, id)
  {
    scores := map[];
    for l := 0 to |lists|
      invariant forall id :: id in scores <==> Listed(lists[..l], id)
      invariant forall id :: ScoreOf(scores, id) == AllVotes(lists[..l], id)
    {
      assert lists[..l + 1] == lists[..l] + [lists[l]] && lists[..l + 1][..l] == lists[..l];
      ListedSnoc(lists[..l], lists[l]);
      scores := AddVotes(scores, lists[l]);
    }
    assert lists[..|lists|] == lists;
    var unsorted := InMapOrder(scores.Keys);
    ids := SortSlice(ByScore(scores), unsorted);
  }

  lemma ListedSnoc<K>(lists: seq<seq<K>>, last: seq<K>)
    ensures forall key :: Listed(lists + [last], key) <==> Listed(lists, key) || key in last
  {
    forall key
      ensures Listed(lists + [last], key) <==> Listed(lists, key) || key in last
    {
      if key in last {
        assert (lists + [last])[|lists|] == last;
      }
      if Listed(lists, key) {
        var i :| 0 <= i < |lists| && key in lists[i];
        assert (lists + [last])[i] == lists[i];
      }
    }
  }

  function Without(s: seq<int>, exact: seq<int>): seq<int> {
    if s == [] then []
    else
      var n := |s| - 1;
      Without(s[..n], exact) + (if s[n] in exact then [] else [s[n]])
  }

  /** Exact matches first, by score; then the other candidates in their own order. */
  method PrioritizeExact(exactIds: seq<int>, candidates: seq<int>, scores: map<int, real>, k: nat)
    returns (ids: seq<int>, ghost pinned: seq<int>)
    requires Distinct(exactIds)
    ensures Sorted(ByScore(scores), pinned) && SameElements(pinned, exactIds)
    ensures ids == Take(pinned + Without(candidates, exactIds), k)
  {
    var ordered := SortSlice(ByScore(scores), exactIds);
    pinned := ordered;
    for i := 0 to |candidates|
      invariant ordered == pinned + Without(candidates[..i], exactIds)
    {
      assert candidates[..i + 1][..i] == candidates[..i];
      if candidates[i] !in exactIds {
        ordered := ordered + [candidates[i]];
      }
    }
    assert candidates[..|candidates|] == candidates;
    ids := Take(ordered, k);
  }

  lemma {:induction false} WithoutElements(s: seq<int>, exact: seq<int>)
    ensures forall x :: x in Without(s, exact) <==> x in s && x !in exact
    ensures Distinct(s) ==> Distinct(Without(s, exact))
  {
    if s == [] {
    } else {
      WithoutElements(s[..|s| - 1], exact);
      assert s == s[..|s| - 1] + [s[|s| - 1]];
    }
  }

  /** The order in which SQL happened to list the exact matches does not show. */
  lemma PinnedOrderIrrelevant(exactA: seq<int>, exactB: seq<int>, candidates: seq<int>, scores: map<int, real>, k: nat,
      pinnedA: seq<int>, pinnedB: seq<int>)
    requires SameElements(exactA, exactB)
    requires Sorted(ByScore(scores), pinnedA) && SameElements(pinnedA, exactA)
    requires Sorted(ByScore(scores), pinnedB) && SameElements(pinnedB, exactB)
    ensures Take(pinnedA + Without(candidates, exactA), k) == Take(pinnedB + Without(candidates, exactB), k)
  {
    SortedUnique(ByScore(scores), pinnedA, pinnedB);
    WithoutSame(candidates, exactA, exactB);
  }

  lemma {:induction false} WithoutSame(s: seq<int>, a: seq<int>, b: seq<int>)
    requires SameElements(a, b)
    ensures Without(s, a) == Without(s, b)
  {
    if s == [] {
    } else {
      WithoutSame(s[..|s| - 1], a, b);
    }
  }

  lemma SortedIsDistinct(scores: map<int, real>, ids: seq<int>)
    requires Sorted(ByScore(scores), ids)
    ensures Distinct(ids)
  {
    forall i, j | 0 <= i < j < |ids|
      ensures ids[i] != ids[j]
    {
      assert ByScore(scores)(ids[i], ids[j]);
    }
  }

  lemma JoinIsDistinct(a: seq<int>, b: seq<int>)
    requires Distinct(a) && Distinct(b) && forall x :: x in a ==> x !in b
    ensures Distinct(a + b)
  {
    forall i, j | 0 <= i < |a| <= j < |a + b|
      ensures (a + b)[i] != (a + b)[j]
    {
      assert (a + b)[i] in a && (a + b)[j] == b[j - |a|] && (a + b)[j] in b;
    }
  }

  /** No id is listed twice, all of them were asked for, and an exact match is
      absent only when the k places went to exact matches. */
  lemma PinnedFirst(exactIds: seq<int>, candidates: seq<int>, scores: map<int, real>, k: nat, pinned: seq<int>, ids: seq<int>)
    requires Distinct(candidates)
    requires Sorted(ByScore(scores), pinned) && SameElements(pinned, exactIds)
    requires ids == Take(pinned + Without(candidates, exactIds), k)
    ensures |ids| <= k && Distinct(ids)
    ensures forall x :: x in ids ==> x in exactIds || x in candidates
    ensures forall i, j :: 0 <= i < j < |ids| && ids[j] in exactIds ==> ids[i] in exactIds && Outranks(scores, ids[i], ids[j])
    ensures (exists x :: x in exactIds && x !in ids) ==> |ids| == k && forall x :: x in ids ==> x in exactIds
  {
    var rest := Without(candidates, exactIds);
    WithoutElements(candidates, exactIds);
    var all := pinned + rest;
    SortedIsDistinct(scores, pinned);
    JoinIsDistinct(pinned, rest);
    forall j | 0 <= j < |ids|
      ensures if j < |pinned| then ids[j] == pinned[j] && ids[j] in exactIds else ids[j] in rest
    {
      PartOf(pinned, rest, j);
    }
    forall i, j | 0 <= i < j < |ids| && ids[j] in exactIds
      ensures ids[i] in exactIds && Outranks(scores, ids[i], ids[j])
    {
      assert j < |pinned|;
      assert ByScore(scores)(pinned[i], pinned[j]);
    }
    hide Sorted, Without;
    forall x | x in exactIds && x !in ids
      ensures |ids| == k && forall y :: y in ids ==> y in exactIds
    {
      assert x in pinned;
      var i :| 0 <= i < |pinned| && pinned[i] == x;
      assert all[i] == x;
      assert i >= |ids|;
      assert ids == pinned[..k];
    }
  }

  lemma {:induction false} WithoutInOrder(scores: map<int, real>, s: seq<int>, exact: seq<int>)
    requires Sorted(ByScore(scores), s)
    ensures Sorted(ByScore(scores), Without(s, exact))
  {
    if s == [] {
    } else {
      var n := |s| - 1;
      WithoutInOrder(scores, s[..n], exact);
      WithoutElements(s[..n], exact);
      forall x | x in Without(s[..n], exact)
        ensures ByScore(scores)(x, s[n])
      {
        var i :| 0 <= i < n && s[i] == x;
      }
    }
  }

  /** The other candidates keep their ranking, and one is absent only when every
      place went to an exact match or to a candidate ranked before it. */
  lemma RestInOrder(exactIds: seq<int>, candidates: seq<int>, scores: map<int, real>, k: nat, pinned: seq<int>, ids: seq<int>)
    requires Sorted(ByScore(scores), candidates) && Distinct(candidates)
    requires Sorted(ByScore(scores), pinned) && SameElements(pinned, exactIds)
    requires ids == Take(pinned + Without(candidates, exactIds), k)
    ensures forall i, j :: 0 <= i < j < |ids| && (ids[i] in exactIds <==> ids[j] in exactIds) ==> Outranks(scores, ids[i], ids[j])
    ensures forall x :: (x in candidates || x in exactIds) && x !in ids ==> |ids| == k && forall i :: 0 <= i < k ==>
              (ids[i] in exactIds && x !in exactIds) || ((ids[i] in exactIds <==> x in exactIds) && Outranks(scores, ids[i], x))
  {
    var rest := Without(candidates, exactIds);
    WithoutElements(candidates, exactIds);
    WithoutInOrder(scores, candidates, exactIds);
    var all := pinned + rest;
    forall i, j | 0 <= i < j < |all|
      ensures all[i] in exactIds || all[j] !in exactIds
      ensures (all[i] in exactIds <==> all[j] in exactIds) ==> Outranks(scores, all[i], all[j])
    {
      PartOf(pinned, rest, i);
      PartOf(pinned, rest, j);
      if j < |pinned| {
        assert ByScore(scores)(pinned[i], pinned[j]);
      } else if i >= |pinned| {
        assert ByScore(scores)(rest[i - |pinned|], rest[j - |pinned|]);
      }
    }
    forall x | (x in candidates || x in exactIds) && x !in ids
      ensures |ids| == k && forall i :: 0 <= i < k ==>
              (ids[i] in exactIds && x !in exactIds) || ((ids[i] in exactIds <==> x in exactIds) && Outranks(scores, ids[i], x))
    {
      var j: nat;
      if x in pinned {
        j :| 0 <= j < |pinned| && pinned[j] == x;
      } else {
        var m :| 0 <= m < |rest| && rest[m] == x;
        j := |pinned| + m;
      }
      assert all[j] == x;
      assert j >= |ids|;
    }
  }

  lemma PartOf(a: seq<int>, b: seq<int>, i: nat)
    requires i < |a| + |b|
    ensures if i < |a| then (a + b)[i] in a else (a + b)[i] in b && (a + b)[i] == b[i - |a|]
  {
  }

  // ---- mergeServiceHits ----

  datatype Hit = Hit(key: string, path: string, startLine: int, endLine: int, exact: bool, score: real)

  datatype Candidate = Candidate(hit: Hit, score: real)

  function Scored(c: Candidate): Hit {
    c.hit.(score := c.score)
  }

  predicate LexLess(a: string, b: string) {
    if b == "" then false
    else if a == "" then true
    else if a[0] != b[0] then a[0] < b[0]
    else LexLess(a[1..], b[1..])
  }

  /** Byte order of strings: the first difference decides, and a prefix comes first. */
  lemma {:induction false} LexLessIff(a: string, b: string)
    ensures LexLess(a, b) <==>
      exists n :: 0 <= n <= |a| && n <= |b| && a[..n] == b[..n] && n < |b| && (n == |a| || a[n] < b[n])
  {
    if a == "" || b == "" || a[0] != b[0] {
      if a != "" && b != "" {
        assert a[..0] == b[..0];
        forall n | 0 < n <= |a| && n <= |b|
          ensures a[..n] != b[..n]
        {
          assert a[..n][0] != b[..n][0];
        }
      } else if b != "" {
        assert a[..0] == b[..0];
      }
    } else {
      LexLessIff(a[1..], b[1..]);
      if n :| 0 <= n <= |a[1..]| && n <= |b[1..]| && a[1..][..n] == b[1..][..n] && n < |b[1..]| && (n == |a[1..]| || a[1..][n] < b[1..][n]) {
        assert a[..n + 1] == [a[0]] + a[1..][..n] && b[..n + 1] == [b[0]] + b[1..][..n];
      }
      if n :| 0 <= n <= |a| && n <= |b| && a[..n] == b[..n] && n < |b| && (n == |a| || a[n] < b[n]) {
        assert a[1..][..n - 1] == a[..n][1..] && b[1..][..n - 1] == b[..n][1..];
      }
    }
  }

  lemma {:induction false} LexAsymmetric(a: string, b: string)
    requires LexLess(a, b)
    ensures !LexLess(b, a) && a != b
  {
    if a != "" && a[0] == b[0] {
      LexAsymmetric(a[1..], b[1..]);
    }
  }

  lemma {:induction false} LexTransitive(a: string, b: string, c: string)
    requires LexLess(a, b) && LexLess(b, c)
    ensures LexLess(a, c)
  {
    if a != "" && a[0] == b[0] && b[0] == c[0] {
      LexTransitive(a[1..], b[1..], c[1..]);
    }
  }

  lemma {:induction false} LexTotal(a: string, b: string)
    requires a != b
    ensures LexLess(a, b) || LexLess(b, a)
  {
    if a != "" && b != "" && a[0] == b[0] {
      assert a == [a[0]] + a[1..] && b == [b[0]] + b[1..];
      LexTotal(a[1..], b[1..]);
    }
  }

  predicate RanksBefore(a: Candidate, b: Candidate) {
    if a.hit.exact != b.hit.exact then a.hit.exact
    else if a.score != b.score then a.score > b.score
    else LexLess(a.hit.key, b.hit.key)
  }

  const BEFORE: Less<Candidate> := (a, b) => RanksBefore(a, b)

  ghost predicate DistinctKeys(cs: seq<Candidate>) {
    forall i, j :: 0 <= i < |cs| && 0 <= j < |cs| && i != j ==> cs[i].hit.key != cs[j].hit.key
  }

  /** The ranking is a strict total order on candidates with distinct keys. */
  lemma RankingIsStrict(cs: seq<Candidate>)
    requires DistinctKeys(cs)
    ensures Asymmetric(BEFORE) && Transitive(BEFORE) && Comparable(BEFORE, cs)
  {
    forall a, b | BEFORE(a, b)
      ensures !BEFORE(b, a)
    {
      if LexLess(a.hit.key, b.hit.key) {
        LexAsymmetric(a.hit.key, b.hit.key);
      }
    }
    forall a, b, c | BEFORE(a, b) && BEFORE(b, c)
      ensures BEFORE(a, c)
    {
      if LexLess(a.hit.key, b.hit.key) && LexLess(b.hit.key, c.hit.key) {
        LexTransitive(a.hit.key, b.hit.key, c.hit.key);
      }
    }
    forall i, j | 0 <= i < |cs| && 0 <= j < |cs| && i != j
      ensures BEFORE(cs[i], cs[j]) || BEFORE(cs[j], cs[i])
    {
      LexTotal(cs[i].hit.key, cs[j].hit.key);
    }
  }

  function Keys(list: seq<Hit>): (keys: seq<string>)
    ensures |keys| == |list| && forall i :: 0 <= i < |list| ==> keys[i] == list[i].key
  {
    seq(|list|, i requires 0 <= i < |list| => list[i].key)
  }

  function Bump(byKey: map<string, Candidate>, hit: Hit, rank: nat): map<string, Candidate> {
    var c := if hit.key in byKey then byKey[hit.key] else Candidate(hit, 0.0);
    byKey[hit.key := c.(score := c.score + 1.0 / (61 + rank) as real)]
  }

  function BumpAll(byKey: map<string, Candidate>, list: seq<Hit>): map<string, Candidate> {
    if list == [] then byKey
    else Bump(BumpAll(byKey, list[..|list| - 1]), list[|list| - 1], |list| - 1)
  }

  /** The hit kept for a key: the earliest in the list. */
  ghost predicate FirstWith(list: seq<Hit>, key: string, hit: Hit) {
    exists i :: 0 <= i < |list| && list[i] == hit && hit.key == key && key !in Keys(list[..i])
  }

  function ScoreIn(byKey: map<string, Candidate>, key: string): real {
    if key in byKey then byKey[key].score else 0.0
  }

  lemma FirstWithSnoc(list: seq<Hit>, last: Hit, key: string, hit: Hit)
    requires FirstWith(list, key, hit) || (key !in Keys(list) && last.key == key && hit == last)
    ensures FirstWith(list + [last], key, hit)
  {
    var i := if key !in Keys(list) then |list|
             else var i :| 0 <= i < |list| && list[i] == hit && hit.key == key && key !in Keys(list[..i]); i;
    assert (list + [last])[..i] == list[..i] && (list + [last])[i] == hit;
  }

  lemma {:induction false} BumpAllMeans(byKey: map<string, Candidate>, list: seq<Hit>, key: string)
    ensures var after := BumpAll(byKey, list);
      && (key in after <==> key in byKey || key in Keys(list))
      && ScoreIn(after, key) == ScoreIn(byKey, key) + Votes(Keys(list), key)
      && (key in byKey ==> after[key].hit == byKey[key].hit)
      && (key in after && key !in byKey ==> FirstWith(list, key, after[key].hit))
  {
    hide FirstWith;
    if list == [] {
    } else {
      var n := |list| - 1;
      BumpAllMeans(byKey, list[..n], key);
      assert Keys(list)[..n] == Keys(list[..n]) && list == list[..n] + [list[n]];
      assert Keys(list) == Keys(list[..n]) + [list[n].key];
      var after := BumpAll(byKey, list);
      if key in after && key !in byKey {
        FirstWithSnoc(list[..n], list[n], key, after[key].hit);
      }
    }
  }

  method AddList(before: map<string, Candidate>, list: seq<Hit>) returns (byKey: map<string, Candidate>)
    ensures byKey == BumpAll(before, list)
  {
    byKey := before;
    for rank := 0 to |list|
      invariant byKey == BumpAll(before, list[..rank])
    {
      var hit := list[rank];
      var candidate := if hit.key in byKey then byKey[hit.key] else Candidate(hit, 0.0);
      byKey := byKey[hit.key := candidate.(score := candidate.score + 1.0 / (61 + rank) as real)];
      assert list[..rank + 1][..rank] == list[..rank];
    }
    assert list[..|list|] == list;
  }

  function Merged(durable: seq<Hit>, live: seq<Hit>): map<string, Candidate> {
    BumpAll(BumpAll(map[], durable), live)
  }

  /** One candidate per key: its first hit, durable before live, scored by the
      ranks of that key in both lists. */
  lemma MergedMeans(durable: seq<Hit>, live: seq<Hit>, key: string)
    ensures key in Merged(durable, live) <==> key in Keys(durable) || key in Keys(live)
    ensures key in Merged(durable, live) ==>
      var c := Merged(durable, live)[key];
      && c.hit.key == key
      && c.score == Votes(Keys(durable), key) + Votes(Keys(live), key)
      && (if key in Keys(durable) then FirstWith(durable, key, c.hit) else FirstWith(live, key, c.hit))
  {
    BumpAllMeans(map[], durable, key);
    BumpAllMeans(BumpAll(map[], durable), live, key);
  }

  // ---- greedy selection ----

  predicate Overlapping(a: Hit, b: Hit) {
    a.path == b.path && b.startLine < a.endLine && a.startLine < b.endLine
  }

  predicate OnLine(h: Hit, line: int) { h.startLine <= line < h.endLine }

  /** Two hits that span lines overlap when some line of one file is in both, the end of
      a span not counting. */
  lemma OverlappingIff(a: Hit, b: Hit)
    requires a.startLine < a.endLine && b.startLine < b.endLine
    ensures Overlapping(a, b) <==> a.path == b.path && exists line :: OnLine(a, line) && OnLine(b, line)
  {
    var line := if a.startLine < b.startLine then b.startLine else a.startLine;
    assert Overlapping(a, b) ==> OnLine(a, line) && OnLine(b, line);
  }

  method OverlapsServiceHit(candidate: Hit, hits: seq<Hit>) returns (found: bool)
    ensures found <==> exists i :: 0 <= i < |hits| && Overlapping(candidate, hits[i])
  {
    for i := 0 to |hits|
      invariant forall j :: 0 <= j < i ==> !Overlapping(candidate, hits[j])
    {
      if hits[i].path == candidate.path && hits[i].startLine < candidate.endLine && candidate.startLine < hits[i].endLine {
        return true;
      }
    }
    found := false;
  }

  predicate IsRanking(byKey: map<string, Candidate>, ranked: seq<Candidate>) {
    && Sorted(BEFORE, ranked)
    && (forall i :: 0 <= i < |ranked| ==> ranked[i].hit.key in byKey && byKey[ranked[i].hit.key] == ranked[i])
    && (forall key :: key in byKey ==> byKey[key] in ranked)
  }

  predicate Increasing(picks: seq<nat>, bound: nat) {
    && (forall i :: 0 <= i < |picks| ==> picks[i] < bound)
    && (forall i, j :: 0 <= i < j < |picks| ==> picks[i] < picks[j])
  }

  predicate Blocked(ranked: seq<Candidate>, picks: seq<nat>, j: nat)
    requires Increasing(picks, |ranked|) && j < |ranked|
  {
    exists i :: 0 <= i < |picks| && picks[i] < j && Overlapping(ranked[j].hit, ranked[picks[i]].hit)
  }

  predicate Full(picks: seq<nat>, k: nat, j: nat) {
    k > 0 && |picks| == k && picks[k - 1] < j
  }

  /** The selection: ranked order is kept, no two chosen hits overlap, at most k are
      chosen (k = 0 sets no limit), and every candidate left out either overlaps a
      better-ranked chosen hit or comes after k were chosen. */
  ghost predicate Selection(ranked: seq<Candidate>, k: nat, picks: seq<nat>) {
    && Increasing(picks, |ranked|)
    && (k > 0 ==> |picks| <= k)
    && (forall i, j :: 0 <= i < j < |picks| ==> !Overlapping(ranked[picks[j]].hit, ranked[picks[i]].hit))
    && (forall j :: 0 <= j < |ranked| && j !in picks ==> Blocked(ranked, picks, j) || Full(picks, k, j))
  }

  function Chosen(ranked: seq<Candidate>, picks: seq<nat>): seq<Hit>
    requires Increasing(picks, |ranked|)
  {
    seq(|picks|, i requires 0 <= i < |picks| => Scored(ranked[picks[i]]))
  }

  method MergeServiceHits(durable: seq<Hit>, live: seq<Hit>, k: nat)
    returns (hits: seq<Hit>, ghost ranked: seq<Candidate>, ghost picks: seq<nat>)
    ensures IsRanking(Merged(durable, live), ranked)
    ensures Selection(ranked, k, picks) && hits == Chosen(ranked, picks)
  {
    var byKey := AddList(map[], durable);
    byKey := AddList(byKey, live);
    var order := RankAll(byKey, durable, live);
    ranked := order;
    hits, picks := Select(order, k);
  }

  method RankAll(byKey: map<string, Candidate>, ghost durable: seq<Hit>, ghost live: seq<Hit>) returns (ranked: seq<Candidate>)
    requires byKey == Merged(durable, live)
    ensures IsRanking(byKey, ranked)
  {
    forall key | key in byKey
      ensures byKey[key].hit.key == key
    {
      MergedMeans(durable, live, key);
    }
    var keys := InMapOrder(byKey.Keys);
    ranked := [];
    for i := 0 to |keys|
      invariant |ranked| == i && forall j :: 0 <= j < i ==> ranked[j] == byKey[keys[j]]
    {
      ranked := ranked + [byKey[keys[i]]];
    }
    RankingIsStrict(ranked);
    ghost var unsorted := ranked;
    ranked := SortSlice(BEFORE, ranked);
    forall i | 0 <= i < |ranked|
      ensures ranked[i].hit.key in byKey && byKey[ranked[i].hit.key] == ranked[i]
    {
      assert ranked[i] in ranked && ranked[i] in unsorted;
    }
    forall key | key in byKey
      ensures byKey[key] in ranked
    {
      assert key in keys;
      var j :| 0 <= j < |keys| && keys[j] == key;
      assert unsorted[j] == byKey[key] && unsorted[j] in unsorted;
    }
  }

  /** The selection restricted to the first n candidates, with room left. */
  ghost predicate Partway(ranked: seq<Candidate>, picks: seq<nat>, n: nat) {
    && n <= |ranked| && Increasing(picks, n)
    && (forall i, j :: 0 <= i < j < |picks| ==> !Overlapping(ranked[picks[j]].hit, ranked[picks[i]].hit))
    && (forall j :: 0 <= j < n && j !in picks ==> Blocked(ranked, picks, j))
  }

  predicate OverlapsChosen(ranked: seq<Candidate>, picks: seq<nat>, hit: Hit)
    requires Increasing(picks, |ranked|)
  {
    exists i :: 0 <= i < |picks| && Overlapping(hit, ranked[picks[i]].hit)
  }

  lemma PassOver(ranked: seq<Candidate>, picks: seq<nat>, n: nat)
    requires n < |ranked| && Partway(ranked, picks, n) && OverlapsChosen(ranked, picks, ranked[n].hit)
    ensures Partway(ranked, picks, n + 1)
  {
    assert Blocked(ranked, picks, n);
  }

  lemma Pick(ranked: seq<Candidate>, picks: seq<nat>, n: nat)
    requires n < |ranked| && Partway(ranked, picks, n) && !OverlapsChosen(ranked, picks, ranked[n].hit)
    ensures Partway(ranked, picks + [n], n + 1)
  {
    forall j | 0 <= j <= n && j !in picks + [n]
      ensures Blocked(ranked, picks + [n], j)
    {
      assert j !in picks && j != n by {
        assert (picks + [n])[|picks|] == n;
      }
      var i :| 0 <= i < |picks| && picks[i] < j && Overlapping(ranked[j].hit, ranked[picks[i]].hit);
      assert (picks + [n])[i] == picks[i];
    }
  }

  method Select(ranked: seq<Candidate>, k: nat) returns (hits: seq<Hit>, ghost picks: seq<nat>)
    ensures Selection(ranked, k, picks) && hits == Chosen(ranked, picks)
  {
    hide OverlapsChosen;
    hits, picks := [], [];
    for n := 0 to |ranked|
      invariant Partway(ranked, picks, n) && hits == Chosen(ranked, picks)
      invariant k > 0 ==> |picks| < k
    {
      hide Partway;
      var found := OverlapsServiceHit(ranked[n].hit, hits);
      ChosenOverlap(ranked, picks, n, hits);
      if found {
        PassOver(ranked, picks, n);
        continue;
      }
      Pick(ranked, picks, n);
      hits := hits + [Scored(ranked[n])];
      picks := picks + [n];
      if |hits| == k {
        break;
      }
    }
  }

  lemma ChosenOverlap(ranked: seq<Candidate>, picks: seq<nat>, n: nat, hits: seq<Hit>)
    requires n < |ranked| && Partway(ranked, picks, n) && hits == Chosen(ranked, picks)
    ensures Increasing(picks, |ranked|)
    ensures OverlapsChosen(ranked, picks, ranked[n].hit) <==> exists i :: 0 <= i < |hits| && Overlapping(ranked[n].hit, hits[i])
  {
    assert forall i :: 0 <= i < |hits| ==> (Overlapping(ranked[n].hit, hits[i]) <==> Overlapping(ranked[n].hit, ranked[picks[i]].hit));
  }

  // ---- the result is a function of the inputs ----

  lemma {:induction false} PicksAgree(ranked: seq<Candidate>, k: nat, p: seq<nat>, q: seq<nat>, n: nat)
    requires Selection(ranked, k, p) && Selection(ranked, k, q)
    requires n <= |p| && n <= |q|
    ensures p[..n] == q[..n]
  {
    if n == 0 {
    } else {
      PicksAgree(ranked, k, p, q, n - 1);
      NotSkipped(ranked, k, p, q, n - 1);
      NotSkipped(ranked, k, q, p, n - 1);
      assert p[..n] == p[..n - 1] + [p[n - 1]] && q[..n] == q[..n - 1] + [q[n - 1]];
    }
  }

  /** If two selections agree on n picks, the next pick of one is not passed over by the other. */
  lemma NotSkipped(ranked: seq<Candidate>, k: nat, p: seq<nat>, q: seq<nat>, n: nat)
    requires Selection(ranked, k, p) && Selection(ranked, k, q)
    requires n < |p| && n <= |q| && p[..n] == q[..n]
    ensures n < |q| && q[n] <= p[n]
  {
    if n == |q| || q[n] > p[n] {
      NothingAgainst(ranked, k, p, q, n);
      assert false;
    }
  }

  lemma NothingAgainst(ranked: seq<Candidate>, k: nat, p: seq<nat>, q: seq<nat>, n: nat)
    requires Selection(ranked, k, p) && Increasing(q, |ranked|)
    requires n < |p| && n <= |q| && p[..n] == q[..n]
    requires n == |q| || q[n] > p[n]
    ensures p[n] !in q && !Blocked(ranked, q, p[n]) && !Full(q, k, p[n])
  {
    forall i | 0 <= i < n
      ensures q[i] == p[i]
    {
      assert p[..n][i] == q[..n][i];
    }
  }

  /** Same durable and live lists, same hits: neither map iteration order shows. */
  lemma MergeDetermined(durable: seq<Hit>, live: seq<Hit>, k: nat, r1: seq<Candidate>, p1: seq<nat>, r2: seq<Candidate>, p2: seq<nat>)
    requires IsRanking(Merged(durable, live), r1) && Selection(r1, k, p1)
    requires IsRanking(Merged(durable, live), r2) && Selection(r2, k, p2)
    ensures Chosen(r1, p1) == Chosen(r2, p2)
  {
    RankingIsStrict([]);
    assert SameElements(r1, r2) by {
      assert forall c :: c in r1 ==> c in r2;
      assert forall c :: c in r2 ==> c in r1;
    }
    SortedUnique(BEFORE, r1, r2);
    if |p1| <= |p2| {
      PicksAgree(r1, k, p1, p2, |p1|);
      if |p1| < |p2| {
        NotSkipped(r1, k, p2, p1, |p1|);
      }
    } else {
      PicksAgree(r1, k, p1, p2, |p2|);
      NotSkipped(r1, k, p1, p2, |p2|);
    }
    assert p1 == p2;
  }

  predicate From(hit: Hit, lists: seq<Hit>) {
    exists i :: 0 <= i < |lists| && hit == lists[i].(score := hit.score)
  }

  /** What a caller reads off the result. */
  lemma HitsAreDistinct(durable: seq<Hit>, live: seq<Hit>, k: nat, ranked: seq<Candidate>, picks: seq<nat>)
    requires IsRanking(Merged(durable, live), ranked) && Selection(ranked, k, picks)
    ensures forall i :: 0 <= i < |picks| ==>
      From(Chosen(ranked, picks)[i], durable) || From(Chosen(ranked, picks)[i], live)
    ensures forall i, j :: 0 <= i < j < |picks| ==>
      var a, b := Chosen(ranked, picks)[i], Chosen(ranked, picks)[j];
      a.key != b.key && !Overlapping(a, b) && (b.exact ==> a.exact) && (a.exact == b.exact ==> a.score > b.score || (a.score == b.score && LexLess(a.key, b.key)))
  {
    hide Merged;
    forall i | 0 <= i < |picks|
      ensures From(Chosen(ranked, picks)[i], durable) || From(Chosen(ranked, picks)[i], live)
    {
      MergedMeans(durable, live, ranked[picks[i]].hit.key);
    }
    forall i, j | 0 <= i < j < |picks|
      ensures var a, b := Chosen(ranked, picks)[i], Chosen(ranked, picks)[j];
        a.key != b.key && !Overlapping(a, b) && (b.exact ==> a.exact) && (a.exact == b.exact ==> a.score > b.score || (a.score == b.score && LexLess(a.key, b.key)))
    {
      var a, b := ranked[picks[i]], ranked[picks[j]];
      assert BEFORE(a, b) && RanksBefore(a, b);
      RankingIsStrict([]);
    }
  }
}
