/** Finding a declaration's name and naming its position
    (src/cmd/ragrep/code.go:645-699), against the line index that reads positions. */
module Declaration {
  import opened Options
  import opened LineIndex

  predicate IdentByte(b: byte) {
    b == 95 || 97 <= b <= 122 || 65 <= b <= 90 || 48 <= b <= 57
  }

  /** Letters, digits and the underscore of ASCII. */
  lemma IdentBytes(b: byte)
    ensures var c := b as char;
      IdentByte(b) <==> 'a' <= c <= 'z' || 'A' <= c <= 'Z' || '0' <= c <= '9' || c == '_'
  {
  }

  predicate MatchAt(line: seq<byte>, word: seq<byte>, i: nat) {
    i + |word| <= |line| && line[i..i + |word|] == word
  }

  /** word stands at i and is not part of a longer identifier. */
  predicate WholeWordAt(line: seq<byte>, word: seq<byte>, i: nat) {
    && MatchAt(line, word, i)
    && !(i > 0 && IdentByte(line[i - 1]))
    && !(i + |word| < |line| && IdentByte(line[i + |word|]))
  }

  /** strings.Index(line[start:], word) + start, or None. */
  method Index(line: seq<byte>, word: seq<byte>, start: nat) returns (r: Option<nat>)
    ensures r.Some? ==> r.value >= start && MatchAt(line, word, r.value)
    ensures forall i :: start <= i && (r.Some? ==> i < r.value) ==> !MatchAt(line, word, i)
  {
    var i := start;
    while i + |word| <= |line|
      invariant i >= start
      invariant forall j :: start <= j < i ==> !MatchAt(line, word, j)
    {
      if line[i..i + |word|] == word {
        return Some(i);
      }
      i := i + 1;
    }
    r := None;
  }

  method IndexWholeWord(line: seq<byte>, word: seq<byte>) returns (r: Option<nat>)
    requires word != []
    ensures r.Some? ==> WholeWordAt(line, word, r.value)
    ensures forall i :: 0 <= i && (r.Some? ==> i < r.value) ==> !WholeWordAt(line, word, i)
  {
    var start := 0;
    while start + |word| <= |line|
      invariant forall i :: 0 <= i < start ==> !WholeWordAt(line, word, i)
      decreases |line| - start
    {
      var found := Index(line, word, start);
      if found.None? {
        return None;
      }
      var idx := found.value;
      var before := idx > 0 && IdentByte(line[idx - 1]);
      var after := idx + |word| < |line| && IdentByte(line[idx + |word|]);
      if !before && !after {
        return Some(idx);
      }
      start := idx + 1;
    }
    r := None;
  }

  // ---- strings.Split(content, "\n") ----

  function FirstLF(c: seq<byte>, from: nat): (i: nat)
    requires from <= |c|
    ensures from <= i <= |c| && (i < |c| ==> c[i] == LF)
    ensures forall j :: from <= j < i ==> c[j] != LF
    decreases |c| - from
  {
    if from == |c| || c[from] == LF then from else FirstLF(c, from + 1)
  }

  function SplitFrom(c: seq<byte>, from: nat): (lines: seq<seq<byte>>)
    requires from <= |c|
    ensures |lines| > 0
    decreases |c| - from
  {
    var i := FirstLF(c, from);
    [c[from..i]] + (if i == |c| then [] else SplitFrom(c, i + 1))
  }

  /** Where the k-th of those lines starts. */
  function SplitStart(c: seq<byte>, from: nat, k: nat): (s: nat)
    requires from <= |c| && k < |SplitFrom(c, from)|
    ensures from <= s <= |c| && SplitFrom(c, from)[k] == c[s..FirstLF(c, s)]
    ensures k == 0 <==> s == from
    ensures k > 0 ==> c[s - 1] == LF
    decreases k
  {
    if k == 0 then from else SplitStart(c, FirstLF(c, from) + 1, k - 1)
  }

  lemma {:induction false} SplitStartNext(c: seq<byte>, from: nat, k: nat)
    requires from <= |c| && k + 1 < |SplitFrom(c, from)|
    ensures SplitStart(c, from, k + 1) == FirstLF(c, SplitStart(c, from, k)) + 1
    decreases k
  {
    if k == 0 {
    } else {
      SplitStartNext(c, FirstLF(c, from) + 1, k - 1);
    }
  }

  function TrimCR(line: seq<byte>): seq<byte> {
    if line != [] && line[|line| - 1] == CR then line[..|line| - 1] else line
  }

  function LastSegment(name: seq<byte>): (segment: seq<byte>)
    ensures 46 !in segment && |segment| <= |name| && name[|name| - |segment|..] == segment
    ensures segment == name || name[|name| - |segment| - 1] == 46
  {
    if name == [] || name[|name| - 1] == 46 then []
    else LastSegment(name[..|name| - 1]) + [name[|name| - 1]]
  }

  /** A carriage return at the end of a line, one at most, is not part of it. */
  lemma TrimCRIs(line: seq<byte>)
    ensures line == TrimCR(line) + [CR] || (line == TrimCR(line) && (line == [] || line[|line| - 1] != CR))
  {
  }

  predicate OnLine(c: seq<byte>, word: seq<byte>, k: nat, idx: nat) {
    k < |SplitFrom(c, 0)| && WholeWordAt(TrimCR(SplitFrom(c, 0)[k]), word, idx)
  }

  /** The first whole-word occurrence on the declaration's lines. */
  ghost predicate FirstOccurrence(c: seq<byte>, word: seq<byte>, first: nat, last: int, k: nat, idx: nat) {
    && first <= k <= last && OnLine(c, word, k, idx)
    && (forall j :: 0 <= j < idx ==> !OnLine(c, word, k, j))
    && (forall l, j :: first <= l < k && 0 <= j ==> !OnLine(c, word, l, j))
  }

  ghost predicate NoOccurrence(c: seq<byte>, word: seq<byte>, first: nat, last: int) {
    forall l, j :: first <= l <= last && 0 <= j ==> !OnLine(c, word, l, j)
  }

  method DeclarationPosition(c: seq<byte>, name: seq<byte>, first: nat, last: int, fallback: Position)
    returns (pos: Position, ghost k: nat, ghost idx: nat)
    ensures LastSegment(name) == [] || NoOccurrence(c, LastSegment(name), first, last) ==> pos == fallback
    ensures var word := LastSegment(name);
      if word == [] || NoOccurrence(c, word, first, last) then pos == fallback
      else FirstOccurrence(c, word, first, last, k, idx) && pos == Position(k, Units(TrimCR(SplitFrom(c, 0)[k])[..idx]))
  {
    hide SplitFrom, Units, LastSegment, WholeWordAt, TrimCR;
    k, idx := 0, 0;
    var word := LastSegment(name);
    if word == [] {
      return fallback, 0, 0;
    }
    var lines := SplitFrom(c, 0);
    var lineNo := first;
    while lineNo <= last && lineNo < |lines|
      invariant lineNo >= first
      invariant forall l, j :: first <= l < lineNo && 0 <= j ==> !OnLine(c, word, l, j)
      decreases last - lineNo
    {
      var line := TrimCR(lines[lineNo]);
      var found := IndexWholeWord(line, word);
      if found.Some? {
        k, idx := lineNo, found.value;
        assert FirstOccurrence(c, word, first, last, k, idx);
        BeforeWord(line, word, idx);
        return Position(lineNo, Units(line[..found.value])), k, idx;
      }
      lineNo := lineNo + 1;
    }
    pos := fallback;
  }

  lemma BeforeWord(line: seq<byte>, word: seq<byte>, i: nat)
    requires WholeWordAt(line, word, i)
    ensures i <= |line|
  {
  }

  // ---- the position read back ----

  predicate NoLoneCR(c: seq<byte>, m: nat)
    requires m <= |c|
  {
    forall q :: 0 <= q < m && c[q] == CR ==> q + 1 < |c| && c[q + 1] == LF
  }

  lemma {:induction false} NonContinuationIsBoundary(s: seq<byte>, i: nat)
    requires i < |s| && !Continues(s[i])
    ensures Boundary(s, i)
  {
    if i == 0 {
    } else {
      var d := DecodeRune(s).size;
      assert d <= i;
      assert s[d..][i - d] == s[i];
      NonContinuationIsBoundary(s[d..], i - d);
    }
  }

  lemma SplitStartListed(c: seq<byte>, starts: seq<nat>, k: nat) returns (i: nat)
    requires Indexes(c, starts) && k < |SplitFrom(c, 0)|
    ensures i < |starts| && starts[i] == SplitStart(c, 0, k)
  {
    var s := SplitStart(c, 0, k);
    assert LineStart(c, s);
    assert s in starts;
    i :| 0 <= i < |starts| && starts[i] == s;
  }

  lemma SplitStartsIncrease(c: seq<byte>, k: nat)
    requires k + 1 < |SplitFrom(c, 0)|
    ensures SplitStart(c, 0, k) < SplitStart(c, 0, k + 1)
    ensures forall j :: SplitStart(c, 0, k) <= j < SplitStart(c, 0, k + 1) - 1 ==> c[j] != LF
  {
    SplitStartNext(c, 0, k);
  }

  /** Lines split at "\n" are among the index's lines, so their numbers never run ahead. */
  lemma {:induction false} NumberAtLeast(c: seq<byte>, starts: seq<nat>, k: nat, i: nat)
    requires Indexes(c, starts) && k < |SplitFrom(c, 0)| && i < |starts| && starts[i] == SplitStart(c, 0, k)
    ensures i >= k
  {
    hide SplitFrom, SplitStart;
    if k == 0 {
    } else {
      var j := SplitStartListed(c, starts, k - 1);
      NumberAtLeast(c, starts, k - 1, j);
      SplitStartsIncrease(c, k - 1);
      assert starts[j] < starts[i];
      assert j < i;
    }
  }

  lemma {:induction false} NumbersAgree(c: seq<byte>, starts: seq<nat>, k: nat)
    requires Indexes(c, starts) && k < |SplitFrom(c, 0)| && NoLoneCR(c, SplitStart(c, 0, k))
    ensures k < |starts| && starts[k] == SplitStart(c, 0, k)
  {
    hide SplitFrom, SplitStart;
    if k > 0 {
      var s, p := SplitStart(c, 0, k), SplitStart(c, 0, k - 1);
      SplitStartsIncrease(c, k - 1);
      NumbersAgree(c, starts, k - 1);
      var i := SplitStartListed(c, starts, k);
      NumberAtLeast(c, starts, k, i);
      NextStart(c, starts, k, p, s);
    } else {
      assert SplitStart(c, 0, 0) == 0;
    }
  }

  /** With no lone "\r" about, the index's next start is where the next "\n" puts it. */
  lemma NextStart(c: seq<byte>, starts: seq<nat>, k: nat, p: nat, s: nat)
    requires Indexes(c, starts) && 0 < k < |starts| && starts[k - 1] == p < s && s in starts && NoLoneCR(c, s)
    requires forall j :: p <= j < s - 1 ==> c[j] != LF
    ensures starts[k] == s
  {
    var i :| 0 <= i < |starts| && starts[i] == s;
    assert i >= k;
    forall x | p < x < s
      ensures !LineStart(c, x)
    {
      assert c[x - 1] != LF;
    }
    var q := starts[k];
    assert q in starts && LineStart(c, q) && p < q <= s;
  }

  lemma {:induction false} NumbersCoincide(c: seq<byte>, starts: seq<nat>, k: nat, j: nat)
    requires Indexes(c, starts) && j <= k < |SplitFrom(c, 0)| && k < |starts|
    requires k + 1 < |starts| ==> SplitStart(c, 0, k) < starts[k + 1]
    ensures starts[j] == SplitStart(c, 0, j)
    decreases k - j
  {
    hide SplitFrom, SplitStart;
    var i := SplitStartListed(c, starts, j);
    NumberAtLeast(c, starts, j, i);
    if j < k {
      NumbersCoincide(c, starts, k, j + 1);
      SplitStartsIncrease(c, j);
      assert starts[i] < starts[j + 1];
    }
  }

  /** If the index's line k reaches m, no line break but "\n" or "\r\n" precedes m. */
  lemma NoLoneCRBefore(c: seq<byte>, starts: seq<nat>, k: nat, m: nat)
    requires Indexes(c, starts) && k < |SplitFrom(c, 0)| && k < |starts| && SplitStart(c, 0, k) <= m < |c|
    requires k + 1 < |starts| ==> m < starts[k + 1]
    ensures NoLoneCR(c, m)
  {
    hide SplitFrom, SplitStart;
    assert forall i :: 0 < i <= k ==> starts[i] <= |c| && starts[i] > 0 && c[starts[i] - 1] == LF by {
      forall i | 0 < i <= k
        ensures starts[i] <= |c| && starts[i] > 0 && c[starts[i] - 1] == LF
      {
        NumbersCoincide(c, starts, k, i);
      }
    }
    forall q | 0 <= q < m && c[q] == CR
      ensures q + 1 < |c| && c[q + 1] == LF
    {
      assert forall i :: 0 <= i < |starts| ==> starts[i] != q + 1;
      assert q + 1 !in starts && !LineStart(c, q + 1);
    }
  }

  lemma WordInside(c: seq<byte>, s: nat, e: nat, line: seq<byte>, word: seq<byte>, idx: nat)
    requires s <= e <= |c| && line <= c[s..e] && word != [] && MatchAt(line, word, idx)
    ensures s + idx < e && c[s + idx] == word[0] && line[..idx] == c[s..s + idx]
  {
    assert line[idx] == line[idx..idx + |word|][0];
    assert forall j :: 0 <= j < |line| ==> line[j] == c[s + j] by {
      assert forall j :: 0 <= j < |line| ==> line[j] == c[s..e][j];
    }
  }

  /** The word's bytes on its line, and before it no line break at all. */
  lemma WordSpot(c: seq<byte>, word: seq<byte>, k: nat, idx: nat)
    requires word != [] && OnLine(c, word, k, idx)
    ensures var s := SplitStart(c, 0, k);
      && s + idx < |c| && c[s + idx] == word[0] && c[s + idx] != LF
      && idx <= |TrimCR(SplitFrom(c, 0)[k])| && TrimCR(SplitFrom(c, 0)[k])[..idx] == c[s..s + idx]
      && forall j :: s <= j < s + idx ==> c[j] != LF
  {
    hide SplitFrom, SplitStart;
    var s := SplitStart(c, 0, k);
    var e := FirstLF(c, s);
    hide FirstLF;
    WordInside(c, s, e, TrimCR(SplitFrom(c, 0)[k]), word, idx);
  }

  lemma PrefixOnIndexedLine(c: seq<byte>, starts: seq<nat>, k: nat, m: nat)
    requires Indexes(c, starts) && k < |starts| && starts[k] <= m < |c|
    requires NoLoneCR(c, m) && c[m] != LF && forall j :: starts[k] <= j < m ==> c[j] != LF
    ensures m - starts[k] <= |LineBytes(c, starts, k)| && LineBytes(c, starts, k)[..m - starts[k]] == c[starts[k]..m]
    ensures m - starts[k] < |LineBytes(c, starts, k)| ==> LineBytes(c, starts, k)[m - starts[k]] == c[m]
  {
    LineShape(c, starts, k);
    var s, line := starts[k], LineBytes(c, starts, k);
    assert forall j :: s <= j < m ==> c[j] != CR by {
      forall j | s <= j < m
        ensures c[j] != CR
      {
        assert c[j + 1] != LF;
      }
    }
    if k + 1 < |starts| {
      var t := c[s + |line|..LineEnd(c, starts, k)];
      assert t[0] == c[s + |line|];
    }
  }

  /** The position a declaration gets leads back to its name exactly when no lone
      "\r" comes before it: the index ends a line there, strings.Split does not. */
  lemma PositionMapsBackIff(c: seq<byte>, starts: seq<nat>, word: seq<byte>, k: nat, idx: nat, o: nat)
    requires Indexes(c, starts) && word != [] && !Continues(word[0]) && OnLine(c, word, k, idx)
    requires OffsetAt(c, starts, Position(k, Units(TrimCR(SplitFrom(c, 0)[k])[..idx])), o)
    ensures SplitStart(c, 0, k) + idx < |c|
    ensures o == SplitStart(c, 0, k) + idx <==> NoLoneCR(c, SplitStart(c, 0, k) + idx)
  {
    hide SplitFrom, SplitStart, Units, LineBytes, TrimCR, WholeWordAt, DecodeRune;
    var s := SplitStart(c, 0, k);
    var m := s + idx;
    WordSpot(c, word, k, idx);
    if NoLoneCR(c, m) {
      NumbersAgree(c, starts, k);
      PrefixOnIndexedLine(c, starts, k, m);
      var line := LineBytes(c, starts, k);
      if idx < |line| {
        NonContinuationIsBoundary(line, idx);
      } else {
        EndIsBoundary(line);
      }
      OffsetInvertsUnits(c, starts, k, idx, o);
    }
    if o == m {
      LineShape(c, starts, k);
      LineBounds(c, starts, k);
      assert k + 1 < |starts| ==> o < starts[k + 1];
      NoLoneCRBefore(c, starts, k, m);
    }
  }

  lemma TwoUnits()
    ensures Units([97]) == 1 && Units([97, CR]) == 2
  {
    assert [97, CR][1..] == [CR] && [97][1..] == [] && [CR][1..] == [];
  }

  /** Such an input: in "a\rb" the name b is the byte 2, and its position leads to 1. */
  lemma LoneCRMisplacesName(starts: seq<nat>, o: nat)
    requires Indexes([97, CR, 98], starts)
    requires OffsetAt([97, CR, 98], starts, Position(0, Units(TrimCR(SplitFrom([97, CR, 98], 0)[0])[..2])), o)
    ensures OnLine([97, CR, 98], [98], 0, 2) && SplitStart([97, CR, 98], 0, 0) + 2 == 2
    ensures !NoLoneCR([97, CR, 98], 2) && o == 1
  {
    var c: seq<byte> := [97, CR, 98];
    assert c[0] == 97 && c[1] == CR && c[2] == 98 && c[0..3] == c;
    assert FirstLF(c, 0) == 3;
    assert SplitFrom(c, 0) == [c];
    assert TrimCR(c) == c;
    assert c[2..3] == [98];
    assert !NoLoneCR(c, 2) by { assert c[1] == CR; }
    PositionMapsBackIff(c, starts, [98], 0, 2, o);
    assert 2 in starts by { assert LineStart(c, 2); }
    assert starts[1] in starts && !LineStart(c, 1);
    assert c[..2] == [97, CR] && LineBytes(c, starts, 0) == [97];
    assert Units([97]) == 1 && [97][..0] == [];
    TwoUnits();
  }

  /** The position is always one the index can resolve. */
  lemma PositionResolves(c: seq<byte>, starts: seq<nat>, k: nat)
    requires Indexes(c, starts) && k < |SplitFrom(c, 0)|
    ensures k < |starts|
  {
    var i := SplitStartListed(c, starts, k);
    NumberAtLeast(c, starts, k, i);
  }
}
