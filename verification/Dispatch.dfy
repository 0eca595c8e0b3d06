/** The order in which an evaluation hands out its runs
    (tools/unity_eval/measure_cases.py:73-102), and the run keys it names them by. */
module Dispatch {
  import opened LiveKeys
  import opened Ledger
  import opened Sequences

  datatype Question = Question(id: string, query: string, split: string)

  datatype Item = Item(condition: nat, repetition: nat, order: nat, question: Question)

  const CONDITIONS: seq<string> := ["c0_no_skill_no_ragrep", "c1_ragrep_no_skill", "c2_skill_ragrep"]

  function RunKey(item: Item): string
    requires item.condition < 3
  {
    CONDITIONS[item.condition] + "/" + ("r" + Decimal(item.repetition)) + "/" + item.question.id
  }

  /** random.Random(seed).shuffle: some rearrangement for each condition and repetition. */
  type Shuffle = (nat, nat) -> seq<Question>

  ghost predicate Rearranges(shuffle: Shuffle, questions: seq<Question>) {
    forall c, r :: SameQuestions(shuffle(c, r), questions)
  }

  /** Same questions, each as often. */
  predicate SameQuestions(a: seq<Question>, b: seq<Question>) {
    |a| == |b| && multiset(a) == multiset(b)
  }

  function ItemAt(shuffle: Shuffle, c: nat, r: nat, i: nat): Item
    requires i < |shuffle(c, r)|
  {
    Item(c, r, i + 1, shuffle(c, r)[i])
  }

  /** Where the item of a condition, repetition and position stands. */
  function PlaceOf(repetitions: nat, c: nat, r: nat, i: nat): int {
    (i * repetitions + (r - 1)) * 3 + c
  }

  /** build_dispatch: position by position, every repetition of every condition, each
      condition and repetition following its own shuffle. */
  method BuildDispatch(questions: seq<Question>, repetitions: nat, shuffle: Shuffle) returns (dispatch: seq<Item>)
    requires repetitions >= 1 && Rearranges(shuffle, questions)
    ensures |dispatch| == |questions| * repetitions * 3
    ensures forall n :: 0 <= n < |dispatch| ==> InPlace(dispatch[n], n, shuffle, questions, repetitions)
  {
    dispatch := [];
    for index := 0 to |questions|
      invariant |dispatch| == index * repetitions * 3
      invariant forall n :: 0 <= n < |dispatch| ==> InPlace(dispatch[n], n, shuffle, questions, repetitions)
    {
      for repetition := 1 to repetitions + 1
        invariant |dispatch| == (index * repetitions + (repetition - 1)) * 3
        invariant forall n :: 0 <= n < |dispatch| ==> InPlace(dispatch[n], n, shuffle, questions, repetitions)
      {
        for condition := 0 to 3
          invariant |dispatch| == PlaceOf(repetitions, condition, repetition, index)
          invariant forall n :: 0 <= n < |dispatch| ==> InPlace(dispatch[n], n, shuffle, questions, repetitions)
        {
          var item := ItemAt(shuffle, condition, repetition, index);
          assert InPlace(item, |dispatch|, shuffle, questions, repetitions);
          dispatch := dispatch + [item];
        }
      }
    }
  }

  /** The item standing at place n is the one that belongs there. */
  ghost predicate InPlace(item: Item, n: int, shuffle: Shuffle, questions: seq<Question>, repetitions: nat)
    requires Rearranges(shuffle, questions)
  {
    && item.condition < 3 && 1 <= item.repetition <= repetitions && 1 <= item.order <= |questions|
    && item.question == shuffle(item.condition, item.repetition)[item.order - 1]
    && n == PlaceOf(repetitions, item.condition, item.repetition, item.order - 1)
  }

  lemma RowsApart(repetitions: nat, i: nat, i': nat)
    requires i < i'
    ensures i * repetitions + repetitions <= i' * repetitions
  {
    var d := i' - i - 1;
    assert i' == i + 1 + d;
    assert i' * repetitions == i * repetitions + repetitions + d * repetitions;
  }

  lemma RowOnce(repetitions: nat, r: nat, i: nat, r': nat, i': nat)
    requires 1 <= r <= repetitions && 1 <= r' <= repetitions
    requires i * repetitions + (r - 1) == i' * repetitions + (r' - 1)
    ensures r == r' && i == i'
  {
    if i < i' {
      RowsApart(repetitions, i, i');
    } else if i' < i {
      RowsApart(repetitions, i', i);
    }
  }

  lemma PlaceInside(questions: nat, repetitions: nat, c: nat, r: nat, i: nat)
    requires c < 3 && 1 <= r <= repetitions && i < questions
    ensures 0 <= PlaceOf(repetitions, c, r, i) < questions * repetitions * 3
  {
    assert i * repetitions + repetitions == (i + 1) * repetitions <= questions * repetitions;
  }

  /** Every condition runs every repetition of every question: the item is where its
      place says. */
  lemma EveryRunDispatched(dispatch: seq<Item>, shuffle: Shuffle, questions: seq<Question>, repetitions: nat, c: nat, r: nat, i: nat)
    requires Rearranges(shuffle, questions) && |dispatch| == |questions| * repetitions * 3
    requires forall n :: 0 <= n < |dispatch| ==> InPlace(dispatch[n], n, shuffle, questions, repetitions)
    requires c < 3 && 1 <= r <= repetitions && i < |questions|
    ensures SameQuestions(shuffle(c, r), questions) && 0 <= PlaceOf(repetitions, c, r, i) < |dispatch|
    ensures dispatch[(i * repetitions + (r - 1)) * 3 + c] == Item(c, r, i + 1, shuffle(c, r)[i])
  {
    PlaceInside(|questions|, repetitions, c, r, i);
    var n := PlaceOf(repetitions, c, r, i);
    var item := dispatch[n];
    assert InPlace(item, n, shuffle, questions, repetitions);
    assert item.condition == c;
    RowOnce(repetitions, item.repetition, item.order - 1, r, i);
  }

  // ---- run keys ----

  lemma ConditionsTellApart(a: nat, b: nat)
    requires a < 3 && b < 3
    ensures '/' !in CONDITIONS[a]
    ensures CONDITIONS[a] == CONDITIONS[b] ==> a == b
  {
    assert CONDITIONS[0][1] == '0' && CONDITIONS[1][1] == '1' && CONDITIONS[2][1] == '2';
  }

  lemma FirstSlash(a: string, x: string, b: string, y: string)
    requires '/' !in a && '/' !in b && a + "/" + x == b + "/" + y
    ensures a == b && x == y
  {
    var s := a + "/" + x;
    assert s[..|a|] == a && s[|a|] == '/' && s[|a| + 1..] == x;
    assert (b + "/" + y)[..|b|] == b && (b + "/" + y)[|b|] == '/' && (b + "/" + y)[|b| + 1..] == y;
    IndexOfIs(s, '/', |a|);
    IndexOfIs(s, '/', |b|);
  }

  /** A run key names its condition, its repetition and its question. */
  lemma RunKeyInjective(a: Item, b: Item)
    requires a.condition < 3 && b.condition < 3 && RunKey(a) == RunKey(b)
    ensures a.condition == b.condition && a.repetition == b.repetition && a.question.id == b.question.id
  {
    hide Decimal;
    ConditionsTellApart(a.condition, b.condition);
    ConditionsTellApart(b.condition, a.condition);
    hide CONDITIONS;
    var ca, cb := CONDITIONS[a.condition], CONDITIONS[b.condition];
    var ra, rb := "r" + Decimal(a.repetition), "r" + Decimal(b.repetition);
    DecimalParses(a.repetition);
    DecimalParses(b.repetition);
    assert RunKey(a) == ca + "/" + (ra + "/" + a.question.id);
    assert RunKey(b) == cb + "/" + (rb + "/" + b.question.id);
    FirstSlash(ca, ra + "/" + a.question.id, cb, rb + "/" + b.question.id);
    FirstSlash(ra, a.question.id, rb, b.question.id);
    assert Decimal(a.repetition) == ra[1..] && Decimal(b.repetition) == rb[1..];
  }

  function Keys(dispatch: seq<Item>): (keys: seq<string>)
    requires forall n :: 0 <= n < |dispatch| ==> dispatch[n].condition < 3
    ensures |keys| == |dispatch| && forall n :: 0 <= n < |dispatch| ==> keys[n] == RunKey(dispatch[n])
  {
    seq(|dispatch|, n requires 0 <= n < |dispatch| => RunKey(dispatch[n]))
  }

  predicate DistinctIds(questions: seq<Question>) {
    forall i, j :: 0 <= i < j < |questions| ==> questions[i].id != questions[j].id
  }

  lemma TwiceIn(s: seq<Question>, i: nat, j: nat)
    requires i < j < |s| && s[i] == s[j]
    ensures multiset(s)[s[i]] >= 2
  {
    assert s == s[..j] + s[j..] && s[i] in s[..j] && s[j] in s[j..];
  }

  lemma {:induction false} OnceIn(s: seq<Question>, q: Question)
    requires DistinctIds(s)
    ensures multiset(s)[q] <= 1
  {
    if s == [] {
    } else {
      var n := |s| - 1;
      assert s == s[..n] + [s[n]];
      OnceIn(s[..n], q);
      assert s[n] !in s[..n];
    }
  }

  /** Rearranging questions keeps their ids distinct. */
  lemma ShuffleKeepsIds(a: seq<Question>, b: seq<Question>, i: nat, j: nat)
    requires SameQuestions(a, b) && DistinctIds(b) && i < |a| && j < |a| && a[i].id == a[j].id
    ensures i == j
  {
    assert a[i] in multiset(b) && a[j] in multiset(b);
    var k :| 0 <= k < |b| && b[k] == a[i];
    var l :| 0 <= l < |b| && b[l] == a[j];
    assert k == l;
    OnceIn(b, a[i]);
    if i < j {
      TwiceIn(a, i, j);
    } else if j < i {
      TwiceIn(a, j, i);
    }
  }

  lemma SameKeySamePlace(a: Item, m: int, b: Item, n: int, shuffle: Shuffle, questions: seq<Question>, repetitions: nat)
    requires Rearranges(shuffle, questions) && DistinctIds(questions)
    requires InPlace(a, m, shuffle, questions, repetitions) && InPlace(b, n, shuffle, questions, repetitions)
    requires RunKey(a) == RunKey(b)
    ensures m == n
  {
    RunKeyInjective(a, b);
    hide RunKey;
    var qs := shuffle(a.condition, a.repetition);
    assert SameQuestions(qs, questions);
    ShuffleKeepsIds(qs, questions, a.order - 1, b.order - 1);
  }

  /** The ledgers start from distinct run keys, given distinct question ids. */
  lemma DispatchKeysDistinct(dispatch: seq<Item>, shuffle: Shuffle, questions: seq<Question>, repetitions: nat)
    requires Rearranges(shuffle, questions) && DistinctIds(questions)
    requires forall n :: 0 <= n < |dispatch| ==> InPlace(dispatch[n], n, shuffle, questions, repetitions)
    ensures forall n :: 0 <= n < |dispatch| ==> dispatch[n].condition < 3
    ensures Distinct(Keys(dispatch))
  {
    hide RunKey;
    assert forall n :: 0 <= n < |dispatch| ==> dispatch[n].condition < 3 by {
      assert forall n :: 0 <= n < |dispatch| ==> InPlace(dispatch[n], n, shuffle, questions, repetitions);
    }
    forall m, n | 0 <= m < n < |dispatch|
      ensures RunKey(dispatch[m]) != RunKey(dispatch[n])
    {
      if RunKey(dispatch[m]) == RunKey(dispatch[n]) {
        SameKeySamePlace(dispatch[m], m, dispatch[n], n, shuffle, questions, repetitions);
      }
    }
  }
}
