/** Overlap merging of ranked hits and of selected symbol bodies
    (src/internal/coderetrieval/context.go).  The result is specified without
    mentioning the algorithm: one survivor for each connected component of
    "same path and overlapping closed line range". */
module Overlaps {

  /** A value of the type parameter T together with what `get` reads from it. */
  datatype Item<T> = Item(value: T, path: string, start: int, end: int)

  predicate Overlap<T>(a: Item<T>, b: Item<T>) {
    a.path == b.path && a.start <= b.end && b.start <= a.end
  }

  predicate Forward<T>(items: seq<Item<T>>) {
    forall i | 0 <= i < |items| :: items[i].start <= items[i].end
  }

  predicate Separate<T>(out: seq<Item<T>>) {
    forall i, j | 0 <= i < j < |out| :: !Overlap(out[i], out[j])
  }

  // ---- connected components, by cuts ----

  predicate Indices<T>(items: seq<Item<T>>, g: set<nat>) {
    forall a | a in g :: a < |items|
  }

  /** Some overlap crosses the cut (s, g - s). */
  ghost predicate Crossed<T>(items: seq<Item<T>>, g: set<nat>, s: set<nat>)
    requires Indices(items, g)
  {
    exists a, b :: a in g && b in g && a in s && b !in s && Overlap(items[a], items[b])
  }

  ghost predicate Connected<T>(items: seq<Item<T>>, g: set<nat>)
    requires Indices(items, g)
  {
    forall s: set<nat> :: s != {} && s < g ==> Crossed(items, g, s)
  }

  ghost predicate Closed<T>(items: seq<Item<T>>, g: set<nat>)
    requires Indices(items, g)
  {
    forall a, b: nat :: a in g && b < |items| && b !in g ==> !Overlap(items[a], items[b])
  }

  ghost predicate Component<T>(items: seq<Item<T>>, g: set<nat>) {
    g != {} && Indices(items, g) && Connected(items, g) && Closed(items, g)
  }

  /** Two components that share an item are the same component. */
  lemma ComponentUnique<T>(items: seq<Item<T>>, g: set<nat>, h: set<nat>, i: nat)
    requires Component(items, g) && Component(items, h) && i in g && i in h
    ensures g == h
  {
    ComponentInside(items, g, h, i);
    ComponentInside(items, h, g, i);
  }

  lemma ComponentInside<T>(items: seq<Item<T>>, g: set<nat>, h: set<nat>, i: nat)
    requires Component(items, g) && Component(items, h) && i in g && i in h
    ensures g <= h
  {
    assert i in g * h;
    assert !Crossed(items, g, g * h);
    assert !(g * h < g);
  }

  ghost function Least(g: set<nat>): (m: nat)
    requires g != {}
    ensures m in g && forall a | a in g :: m <= a
  {
    var x :| x in g;
    if g == {x} then x else
      assert forall a | a in g :: a == x || a in g - {x};
      var y := Least(g - {x});
      if x < y then x else y
  }

  /** x is the first-seen item of g widened to the hull of g. */
  ghost predicate Survivor<T>(items: seq<Item<T>>, g: set<nat>, x: Item<T>)
    requires g != {} && Indices(items, g)
  {
    && x.value == items[Least(g)].value
    && (forall a | a in g :: items[a].path == x.path && x.start <= items[a].start && items[a].end <= x.end)
    && (exists a :: a in g && items[a].start == x.start)
    && (exists a :: a in g && items[a].end == x.end)
  }

  ghost predicate GroupSurvives<T>(items: seq<Item<T>>, n: nat, g: set<nat>, x: Item<T>)
    requires n <= |items|
  {
    && g != {}
    && (forall a | a in g :: a < n)
    && Connected(items, g)
    && Survivor(items, g, x)
  }

  ghost predicate InSome(groups: seq<set<nat>>, i: nat) {
    exists k :: 0 <= k < |groups| && i in groups[k]
  }

  ghost predicate Before(g: set<nat>, h: set<nat>) {
    g != {} && h != {} && g !! h && Least(g) < Least(h)
  }

  /** out[k] is the survivor of groups[k]; the groups are connected, split the
      first n indices among them, and are listed by first-seen item. */
  ghost predicate Grouped<T>(items: seq<Item<T>>, n: nat, out: seq<Item<T>>, groups: seq<set<nat>>) {
    && n <= |items|
    && |out| == |groups|
    && (forall k | 0 <= k < |groups| :: GroupSurvives(items, n, groups[k], out[k]))
    && (forall k, l | 0 <= k < l < |groups| :: Before(groups[k], groups[l]))
    && (forall i | 0 <= i < n :: InSome(groups, i))
  }

  /** The specification of mergeOverlapping. */
  ghost predicate Merged<T>(items: seq<Item<T>>, out: seq<Item<T>>, groups: seq<set<nat>>) {
    && Grouped(items, |items|, out, groups)
    && (forall k | 0 <= k < |groups| :: Component(items, groups[k]))
  }

  // ---- the geometry of connected groups ----

  /** A range that meets the hull of a connected group meets one of its members. */
  lemma HullMeetsMember<T>(items: seq<Item<T>>, g: set<nat>, x: Item<T>, c: Item<T>) returns (a: nat)
    requires Forward(items) && g != {} && Indices(items, g) && Connected(items, g) && Survivor(items, g, x)
    requires c.start <= c.end && Overlap(x, c)
    ensures a in g && Overlap(items[a], c)
  {
    var left := set b | b in g && items[b].end < c.start;
    var s :| s in g && items[s].start == x.start;
    a := s;
    if s in left {
      var e :| e in g && items[e].end == x.end;
      assert left < g by { assert e !in left; }
      assert Crossed(items, g, left);
      var p, q :| p in g && q in g && p in left && q !in left && Overlap(items[p], items[q]);
      a := q;
    }
  }

  lemma UnionConnected<T>(items: seq<Item<T>>, g: set<nat>, h: set<nat>, a: nat, b: nat)
    requires Indices(items, g) && Indices(items, h) && Connected(items, g) && Connected(items, h)
    requires a in g && b in h && Overlap(items[a], items[b])
    ensures Connected(items, g + h)
  {
    forall s: set<nat> | s != {} && s < g + h
      ensures Crossed(items, g + h, s)
    {
      CutOfUnion(items, g, h, a, b, s);
    }
  }

  lemma CutOfUnion<T>(items: seq<Item<T>>, g: set<nat>, h: set<nat>, a: nat, b: nat, s: set<nat>)
    requires Indices(items, g) && Indices(items, h) && Connected(items, g) && Connected(items, h)
    requires a in g && b in h && Overlap(items[a], items[b])
    requires s != {} && s < g + h
    ensures Crossed(items, g + h, s)
  {
    if a in s && b !in s {
    } else if b in s && a !in s {
      assert Overlap(items[b], items[a]);
    } else if a in s {
      var out :| out in g + h && out !in s;
      if out in g {
        assert Crossed(items, g, s * g) by { assert a in s * g && out !in s * g; }
      } else {
        assert Crossed(items, h, s * h) by { assert b in s * h && out !in s * h; }
      }
    } else {
      var c :| c in s;
      if c in g {
        assert Crossed(items, g, s * g) by { assert c in s * g && a !in s * g; }
      } else {
        assert Crossed(items, h, s * h) by { assert c in s * h && b !in s * h; }
      }
    }
  }

  /** Non-overlapping hulls mean that no overlap leaves a group. */
  lemma SeparateIsClosed<T>(items: seq<Item<T>>, out: seq<Item<T>>, groups: seq<set<nat>>)
    requires Grouped(items, |items|, out, groups) && Separate(out)
    ensures Merged(items, out, groups)
  {
    forall k | 0 <= k < |groups|
      ensures Component(items, groups[k])
    {
      forall a, b: nat | a in groups[k] && b < |items| && b !in groups[k]
        ensures !Overlap(items[a], items[b])
      {
        assert InSome(groups, b);
        var l :| 0 <= l < |groups| && b in groups[l];
        assert GroupSurvives(items, |items|, groups[k], out[k]) && GroupSurvives(items, |items|, groups[l], out[l]);
        assert Overlap(items[a], items[b]) ==> Overlap(out[k], out[l]) && Overlap(out[l], out[k]);
      }
    }
  }

  /** The union of two ranges under the first one's value and path. */
  function Widen<T>(a: Item<T>, b: Item<T>): Item<T> {
    a.(start := if b.start < a.start then b.start else a.start, end := if b.end > a.end then b.end else a.end)
  }

  lemma JoinSurvives<T>(items: seq<Item<T>>, n: nat, g: set<nat>, h: set<nat>, x: Item<T>, y: Item<T>)
    requires Forward(items) && n <= |items| && GroupSurvives(items, n, g, x) && GroupSurvives(items, n, h, y)
    requires Before(g, h) && Overlap(x, y)
    ensures GroupSurvives(items, n, g + h, Widen(x, y))
  {
    var b := HullMeetsMember(items, h, y, x);
    var a := HullMeetsMember(items, g, x, items[b]);
    UnionConnected(items, g, h, a, b);
    assert Least(g + h) == Least(g);
    var s1 :| s1 in g && items[s1].start == x.start;
    var s2 :| s2 in h && items[s2].start == y.start;
    var e1 :| e1 in g && items[e1].end == x.end;
    var e2 :| e2 in h && items[e2].end == y.end;
    assert {s1, s2, e1, e2} <= g + h;
  }

  function Drop<X>(s: seq<X>, i: nat, x: X, j: nat): (r: seq<X>)
    requires i < j < |s|
    ensures |r| == |s| - 1
    ensures forall k | 0 <= k < |r| :: r[k] == if k == i then x else if k < j then s[k] else s[k + 1]
  {
    s[i := x][..j] + s[j + 1..]
  }

  lemma JoinKeepsOrder(groups: seq<set<nat>>, i: nat, j: nat, k: nat, l: nat)
    requires i < j < |groups| && k < l < |groups| - 1
    requires forall k, l | 0 <= k < l < |groups| :: Before(groups[k], groups[l])
    ensures var groups' := Drop(groups, i, groups[i] + groups[j], j); Before(groups'[k], groups'[l])
  {
    var k0, l0 := if k < j then k else k + 1, if l < j then l else l + 1;
    assert Before(groups[k0], groups[l0]) && Before(groups[i], groups[j]);
    assert Least(groups[i] + groups[j]) == Least(groups[i]);
    if k0 == i {
      assert j != l0 && (Before(groups[j], groups[l0]) || Before(groups[l0], groups[j]));
    } else if l0 == i {
      assert Before(groups[k0], groups[j]);
    }
  }

  /** Widening out[i] over out[j] and dropping out[j] keeps the grouping. */
  lemma FoldKeepsGrouped<T>(items: seq<Item<T>>, n: nat, out: seq<Item<T>>, groups: seq<set<nat>>, i: nat, j: nat)
    requires Forward(items) && Grouped(items, n, out, groups)
    requires i < j < |out| && Overlap(out[i], out[j])
    ensures Grouped(items, n, Drop(out, i, Widen(out[i], out[j]), j), Drop(groups, i, groups[i] + groups[j], j))
  {
    JoinSurvives(items, n, groups[i], groups[j], out[i], out[j]);
    var groups' := Drop(groups, i, groups[i] + groups[j], j);
    forall a | 0 <= a < n
      ensures InSome(groups', a)
    {
      assert InSome(groups, a);
      var l :| 0 <= l < |groups| && a in groups[l];
      assert a in groups'[if l == j then i else if l > j then l - 1 else l];
    }
    forall k, l | 0 <= k < l < |groups'|
      ensures Before(groups'[k], groups'[l])
    {
      JoinKeepsOrder(groups, i, j, k, l);
    }
  }

  // ---- the two loops ----

  /** The grouping, which only ranges that run forward are sure to have. */
  ghost predicate GroupedIfForward<T>(items: seq<Item<T>>, n: nat, out: seq<Item<T>>, groups: seq<set<nat>>) {
    |out| == |groups| && (Forward(items) ==> Grouped(items, n, out, groups))
  }

  lemma FoldKeeps<T>(items: seq<Item<T>>, n: nat, out: seq<Item<T>>, groups: seq<set<nat>>, i: nat, j: nat)
    requires GroupedIfForward(items, n, out, groups) && i < j < |out| && Overlap(out[i], out[j])
    ensures GroupedIfForward(items, n, Drop(out, i, Widen(out[i], out[j]), j), Drop(groups, i, groups[i] + groups[j], j))
  {
    if Forward(items) {
      FoldKeepsGrouped(items, n, out, groups, i, j);
    }
  }

  /** collapseOverlaps: re-scan all pairs after every fold until none overlaps. */
  method CollapseOverlaps<T>(input: seq<Item<T>>, ghost items: seq<Item<T>>, ghost n: nat, ghost inputGroups: seq<set<nat>>)
      returns (out: seq<Item<T>>, ghost groups: seq<set<nat>>)
    requires GroupedIfForward(items, n, input, inputGroups)
    ensures GroupedIfForward(items, n, out, groups) && Separate(out)
  {
    hide Grouped, Forward;
    out, groups := input, inputGroups;
    while true
      invariant GroupedIfForward(items, n, out, groups)
      decreases |out|
    {
      var mergedAny := false;
      ghost var before := |out|;
      var i := 0;
      while i < |out| && !mergedAny
        invariant 0 <= i <= |out| + 1
        invariant GroupedIfForward(items, n, out, groups)
        invariant mergedAny ==> |out| < before
        invariant !mergedAny ==> |out| == before && i <= |out|
        invariant !mergedAny ==> forall a, b | 0 <= a < i && a < b < |out| :: !Overlap(out[a], out[b])
        decreases |out| - i, !mergedAny
      {
        var j := i + 1;
        while j < |out|
          invariant i < j <= |out| == before && !mergedAny
          invariant GroupedIfForward(items, n, out, groups)
          invariant forall a, b | 0 <= a < i && a < b < |out| :: !Overlap(out[a], out[b])
          invariant forall b | i < b < j :: !Overlap(out[i], out[b])
        {
          if out[i].path != out[j].path || out[i].start > out[j].end || out[j].start > out[i].end {
            j := j + 1;
            continue;
          }
          var start, end := out[i].start, out[i].end;
          if out[j].start < start {
            start := out[j].start;
          }
          if out[j].end > end {
            end := out[j].end;
          }
          FoldKeeps(items, n, out, groups, i, j);
          groups := Drop(groups, i, groups[i] + groups[j], j);
          out := out[i := out[i].(start := start, end := end)];
          out := out[..j] + out[j + 1..];
          mergedAny := true;
          break;
        }
        i := i + 1;
      }
      if !mergedAny {
        return;
      }
    }
  }

  /** mergeOverlapping: fold the items in one by one, collapsing after each.  The
      survivors never overlap; when the ranges run forward, as extraction makes
      them, they are the connected components. */
  method MergeOverlapping<T>(items: seq<Item<T>>) returns (out: seq<Item<T>>, ghost groups: seq<set<nat>>)
    ensures Separate(out)
    ensures Forward(items) ==> Merged(items, out, groups)
  {
    out, groups := [], [];
    for n := 0 to |items|
      invariant GroupedIfForward(items, n, out, groups) && Separate(out)
    {
      if Forward(items) {
        AppendKeepsGrouped(items, n, out, groups);
      }
      out, groups := CollapseOverlaps(out + [items[n]], items, n + 1, groups + [{n}]);
    }
    if Forward(items) {
      SeparateIsClosed(items, out, groups);
    }
  }

  lemma AppendKeepsGrouped<T>(items: seq<Item<T>>, n: nat, out: seq<Item<T>>, groups: seq<set<nat>>)
    requires n < |items| && Grouped(items, n, out, groups)
    ensures Grouped(items, n + 1, out + [items[n]], groups + [{n}])
  {
    var groups' := groups + [{n}];
    forall i | 0 <= i < n + 1
      ensures InSome(groups', i)
    {
      if i < n {
        assert InSome(groups, i);
        var k :| 0 <= k < |groups| && i in groups[k];
        assert i in groups'[k];
      } else {
        assert i in groups'[|groups|];
      }
    }
  }

  // ---- what the specification says ----

  /** The specification leaves no freedom: it determines the output. */
  lemma MergedDetermined<T>(items: seq<Item<T>>, out: seq<Item<T>>, groups: seq<set<nat>>,
                            out': seq<Item<T>>, groups': seq<set<nat>>)
    requires Merged(items, out, groups) && Merged(items, out', groups')
    ensures out == out' && groups == groups'
  {
    forall g
      ensures g in groups <==> g in groups'
    {
      if g in groups {
        SameComponent(items, out', groups', g);
      }
      if g in groups' {
        SameComponent(items, out, groups, g);
      }
    }
    OrderedEqual(groups, groups');
    forall k | 0 <= k < |out|
      ensures out[k] == out'[k]
    {
      assert GroupSurvives(items, |items|, groups[k], out[k]) && GroupSurvives(items, |items|, groups[k], out'[k]);
      var a := Least(groups[k]);
      assert items[a].path == out[k].path == out'[k].path;
    }
  }

  lemma SameComponent<T>(items: seq<Item<T>>, out: seq<Item<T>>, groups: seq<set<nat>>, g: set<nat>)
    requires Merged(items, out, groups) && Component(items, g)
    ensures g in groups
  {
    var i := Least(g);
    assert InSome(groups, i);
    var k :| 0 <= k < |groups| && i in groups[k];
    ComponentUnique(items, g, groups[k], i);
  }

  /** Two lists of disjoint sets in order of their least elements are equal as soon as they hold the same sets. */
  lemma {:induction false} OrderedEqual(gs: seq<set<nat>>, hs: seq<set<nat>>)
    requires forall k, l | 0 <= k < l < |gs| :: Before(gs[k], gs[l])
    requires forall k, l | 0 <= k < l < |hs| :: Before(hs[k], hs[l])
    requires forall g :: g in gs <==> g in hs
    ensures gs == hs
  {
    if gs == [] {
      HeadIsMember(hs);
    } else {
      assert gs[0] in gs && hs != [];
      var l :| 0 <= l < |hs| && hs[l] == gs[0];
      assert hs[0] in hs;
      var m :| 0 <= m < |gs| && gs[m] == hs[0];
      assert l == 0;
      forall g
        ensures g in gs[1..] <==> g in hs[1..]
      {
        TailMembers(gs, g);
        TailMembers(hs, g);
      }
      OrderedEqual(gs[1..], hs[1..]);
      assert gs == [gs[0]] + gs[1..] && hs == [hs[0]] + hs[1..];
    }
  }

  lemma HeadIsMember<X>(s: seq<X>)
    ensures s == [] || s[0] in s
  {
  }

  lemma TailMembers(gs: seq<set<nat>>, g: set<nat>)
    requires gs != [] && forall k, l | 0 <= k < l < |gs| :: Before(gs[k], gs[l])
    ensures g in gs[1..] <==> g in gs && g != gs[0]
  {
    if g in gs && g != gs[0] {
      var k :| 0 <= k < |gs| && gs[k] == g;
      assert gs[1..][k - 1] == g;
    }
    if g in gs[1..] {
      var k :| 0 <= k < |gs| - 1 && gs[1..][k] == g;
      assert Before(gs[0], gs[k + 1]);
    }
  }

  ghost predicate Covers<T>(items: seq<Item<T>>, path: string, line: int) {
    exists i :: 0 <= i < |items| && items[i].path == path && items[i].start <= line <= items[i].end
  }

  /** Merging neither adds nor loses a covered line of any path. */
  lemma CoverageKept<T>(items: seq<Item<T>>, out: seq<Item<T>>, groups: seq<set<nat>>, path: string, line: int)
    requires Forward(items) && Merged(items, out, groups)
    ensures Covers(items, path, line) <==> Covers(out, path, line)
  {
    if Covers(items, path, line) {
      var i: nat :| i < |items| && items[i].path == path && items[i].start <= line <= items[i].end;
      assert InSome(groups, i);
      var k :| 0 <= k < |groups| && i in groups[k];
      assert GroupSurvives(items, |items|, groups[k], out[k]);
      assert out[k].path == path && out[k].start <= line <= out[k].end;
    }
    if Covers(out, path, line) {
      var k :| 0 <= k < |out| && out[k].path == path && out[k].start <= line <= out[k].end;
      var a := HullMeetsMember(items, groups[k], out[k], Item(out[k].value, path, line, line));
    }
  }

  const BACKWARD: seq<Item<int>> := [Item(0, "p", 0, 5), Item(1, "p", 5, 10), Item(2, "p", 7, 3)]

  lemma BackwardComponents()
    ensures Component(BACKWARD, {0, 1}) && Component(BACKWARD, {2})
  {
    assert !Overlap(BACKWARD[0], BACKWARD[2]) && !Overlap(BACKWARD[1], BACKWARD[2]);
    hide Connected;
  }

  /** The component claim needs ranges that run forward: a backwards item can meet
      a hull without meeting any item under it, and then no list of survivors is
      both free of overlaps and the components. */
  lemma BackwardItemBreaksComponents(out: seq<Item<int>>, groups: seq<set<nat>>)
    ensures !(Merged(BACKWARD, out, groups) && Separate(out))
  {
    if Merged(BACKWARD, out, groups) {
      BackwardComponents();
      SameComponent(BACKWARD, out, groups, {0, 1});
      SameComponent(BACKWARD, out, groups, {2});
      var k :| 0 <= k < |groups| && groups[k] == {0, 1};
      var l :| 0 <= l < |groups| && groups[l] == {2};
      assert GroupSurvives(BACKWARD, 3, groups[k], out[k]) && GroupSurvives(BACKWARD, 3, groups[l], out[l]);
      assert 0 in groups[k] && 1 in groups[k] && 2 in groups[l];
      assert Overlap(out[k], out[l]);
    }
  }
}
