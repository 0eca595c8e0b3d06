/** Splitting documents into paragraphs (src/internal/store/split.go,
    frontmatter.go:8-42, store.go:171-180) and reading lines back
    (src/cmd/ragrep/main.go:686-698).  Strings are sequences of runes. */
module Paragraphs {
  import opened Options

  // ---- strings ----

  /** strings.ReplaceAll(s, "\r\n", "\n"). */
  function Normalise(s: string): string {
    if |s| < 2 then s
    else if s[0] == '\r' && s[1] == '\n' then "\n" + Normalise(s[2..])
    else [s[0]] + Normalise(s[1..])
  }

  /** strings.Split(s, "\n"). */
  function Split(s: string): (lines: seq<string>)
    ensures |lines| > 0
  {
    if s == "" then [""]
    else if s[0] == '\n' then [""] + Split(s[1..])
    else
      var rest := Split(s[1..]);
      [[s[0]] + rest[0]] + rest[1..]
  }

  function Join(lines: seq<string>, sep: string): string {
    if lines == [] then "" else if |lines| == 1 then lines[0] else lines[0] + sep + Join(lines[1..], sep)
  }

  /** How every reader of a document sees its lines. */
  function Lines(content: string): (lines: seq<string>)
    ensures |lines| > 0
  {
    Split(Normalise(content))
  }

  /** unicode.IsSpace. */
  predicate IsSpace(c: char) {
    c in "\t\n\U{0B}\U{0C}\r \U{85}\U{A0}\U{1680}\U{2028}\U{2029}\U{202F}\U{205F}\U{3000}" || '\U{2000}' <= c <= '\U{200A}'
  }

  function TrimLeft(s: string): string {
    if s != "" && IsSpace(s[0]) then TrimLeft(s[1..]) else s
  }

  function TrimRight(s: string): string {
    if s != "" && IsSpace(s[|s| - 1]) then TrimRight(s[..|s| - 1]) else s
  }

  function TrimSpace(s: string): string {
    TrimRight(TrimLeft(s))
  }

  predicate Blank(line: string) {
    TrimSpace(line) == ""
  }

  predicate OneLine(line: string) {
    '\n' !in line
  }

  function StripCR(line: string): string {
    if line != "" && line[|line| - 1] == '\r' then line[..|line| - 1] else line
  }

  // ---- headings ----

  function Hashes(line: string): nat {
    if line != "" && line[0] == '#' then 1 + Hashes(line[1..]) else 0
  }

  /** headingUpdate. */
  function HeadingUpdate(crumbs: seq<string>, line: string): seq<string> {
    var level := Hashes(line);
    var rest := line[Min(level, |line|)..];
    var text := TrimSpace(rest);
    if level == 0 || level > 6 || !(" " <= rest) || text == "" then crumbs
    else crumbs[..Min(level - 1, |crumbs|)] + [text]
  }

  function Min(a: nat, b: nat): nat {
    if a < b then a else b
  }

  /** The crumbs after the first n lines. */
  function Crumbs(lines: seq<string>, n: nat): seq<string>
    requires n <= |lines|
  {
    if n == 0 then []
    else if Blank(lines[n - 1]) then Crumbs(lines, n - 1)
    else HeadingUpdate(Crumbs(lines, n - 1), lines[n - 1])
  }

  /** The line is level hashes, a blank and a text that is not blank. */
  predicate HeadingLine(line: string, level: nat, text: string) {
    && 1 <= level <= 6 && |line| > level && line[level] == ' ' && !Blank(text) && text == line[level + 1..]
    && forall i :: 0 <= i < level ==> line[i] == '#'
  }

  lemma {:induction false} HashesCount(line: string)
    ensures Hashes(line) <= |line| && (forall i :: 0 <= i < Hashes(line) ==> line[i] == '#')
    ensures Hashes(line) < |line| ==> line[Hashes(line)] != '#'
  {
    if line == "" || line[0] != '#' {
    } else {
      HashesCount(line[1..]);
    }
  }

  /** A heading of level n cuts the trail to n - 1 headings and adds its own text; any
      other line leaves the trail alone. */
  lemma HeadingUpdateIs(crumbs: seq<string>, line: string)
    ensures forall level: nat, text :: HeadingLine(line, level, text) ==>
      HeadingUpdate(crumbs, line) == (if level - 1 < |crumbs| then crumbs[..level - 1] else crumbs) + [TrimSpace(text)]
    ensures (forall level: nat, text :: !HeadingLine(line, level, text)) ==> HeadingUpdate(crumbs, line) == crumbs
  {
    hide TrimSpace;
    HashesCount(line);
    var n := Hashes(line);
    if n < |line| && line[n] == ' ' {
      assert line[n..] == " " + line[n + 1..];
      TrimBlank(line[n + 1..]);
      assert 1 <= n <= 6 && !Blank(line[n + 1..]) ==> HeadingLine(line, n, line[n + 1..]);
    }
    forall level: nat, text | HeadingLine(line, level, text)
      ensures level == n
    {
      assert level >= n;
      assert level <= n;
    }
  }

  lemma TrimBlank(s: string)
    ensures TrimSpace(" " + s) == TrimSpace(s)
  {
    assert (" " + s)[1..] == s;
  }

  /** Trimming cuts the spaces at both ends and nothing else. */
  lemma TrimSpaceIs(s: string) returns (i: nat, j: nat)
    ensures i <= j <= |s| && TrimSpace(s) == s[i..j]
    ensures (forall k :: 0 <= k < i || j <= k < |s| ==> IsSpace(s[k])) && (i < j ==> !IsSpace(s[i]) && !IsSpace(s[j - 1]))
  {
    hide IsSpace;
    i := LeftEnd(s);
    j := RightEnd(s[i..]);
    assert s[i..][..j] == s[i..i + j];
    assert forall k :: j <= k < |s[i..]| ==> s[i..][k] == s[i + k];
    assert forall k :: i + j <= k < |s| ==> s[k] == s[i..][k - i];
    j := i + j;
  }

  lemma {:induction false} LeftEnd(s: string) returns (i: nat)
    ensures i <= |s| && TrimLeft(s) == s[i..] && (forall k :: 0 <= k < i ==> IsSpace(s[k])) && (i < |s| ==> !IsSpace(s[i]))
  {
    hide IsSpace;
    if s == "" || !IsSpace(s[0]) {
      i := 0;
    } else {
      i := LeftEnd(s[1..]);
      i := i + 1;
    }
  }

  lemma {:induction false} RightEnd(s: string) returns (j: nat)
    ensures j <= |s| && TrimRight(s) == s[..j] && (forall k :: j <= k < |s| ==> IsSpace(s[k])) && (j > 0 ==> !IsSpace(s[j - 1]))
  {
    hide IsSpace;
    if s == "" || !IsSpace(s[|s| - 1]) {
      j := |s|;
    } else {
      j := RightEnd(s[..|s| - 1]);
      assert s[..|s| - 1][..j] == s[..j];
    }
  }

  lemma UpdateBounded(crumbs: seq<string>, line: string)
    requires |crumbs| <= 6
    ensures |HeadingUpdate(crumbs, line)| <= 6
    ensures HeadingUpdate(crumbs, line) != crumbs ==> |HeadingUpdate(crumbs, line)| <= Hashes(line) <= 6
  {
  }

  /** The heading stack is never deeper than six, nor than its last heading's level. */
  lemma {:induction false} CrumbsBounded(lines: seq<string>, n: nat)
    requires n <= |lines|
    ensures |Crumbs(lines, n)| <= 6
    ensures n > 0 && Crumbs(lines, n) != Crumbs(lines, n - 1) ==> |Crumbs(lines, n)| <= Hashes(lines[n - 1]) <= 6
  {
    hide HeadingUpdate, Blank, Hashes;
    if n == 0 {
    } else {
      CrumbsBounded(lines, n - 1);
      UpdateBounded(Crumbs(lines, n - 1), lines[n - 1]);
    }
  }

  // ---- paragraphs ----

  datatype Para = Para(seq_: nat, startLine: nat, endLine: nat, text: string, heading: string)

  /** A maximal run of non-blank lines, [start, end) counting from 0. */
  predicate MaximalRun(lines: seq<string>, start: nat, end: nat) {
    && start < end <= |lines|
    && (forall i :: start <= i < end ==> !Blank(lines[i]))
    && (start > 0 ==> Blank(lines[start - 1]))
    && (end < |lines| ==> Blank(lines[end]))
  }

  predicate ParaAt(lines: seq<string>, p: Para, k: nat) {
    && p.seq_ == k && p.startLine > 0
    && MaximalRun(lines, p.startLine - 1, p.endLine)
    && p.text == Join(lines[p.startLine - 1..p.endLine], "\n")
    && p.heading == Join(Crumbs(lines, p.endLine), " > ")
  }

  predicate Inside(p: Para, i: nat) {
    p.startLine <= i + 1 <= p.endLine
  }

  /** The first n lines have been split. */
  predicate SplitTo(lines: seq<string>, n: nat, paras: seq<Para>) {
    && n <= |lines|
    && (forall k :: 0 <= k < |paras| ==> ParaAt(lines, paras[k], k) && paras[k].endLine <= n)
    && (forall j, k :: 0 <= j < k < |paras| ==> paras[j].endLine < paras[k].startLine)
    && (forall i :: 0 <= i < n && !Blank(lines[i]) ==> exists k :: 0 <= k < |paras| && Inside(paras[k], i))
  }

  /** splitParas: the maximal runs of non-blank lines, in order. */
  method SplitParas(lines: seq<string>) returns (paras: seq<Para>)
    ensures SplitTo(lines, |lines|, paras)
  {
    hide Blank, Join, Crumbs, HeadingUpdate, TrimSpace;
    EmptyCrumbs(lines);
    paras := [];
    var crumbs: seq<string> := [];
    var start := -1;
    var buf: seq<string> := [];
    for i := 0 to |lines|
      invariant -1 <= start < i
      invariant SplitTo(lines, if start >= 0 then start else i, paras)
      invariant start >= 0 ==> (start > 0 ==> Blank(lines[start - 1])) && forall j :: start <= j < i ==> !Blank(lines[j])
      invariant start < 0 && i > 0 ==> Blank(lines[i - 1])
      invariant buf == if start >= 0 then lines[start..i] else []
      invariant crumbs == Crumbs(lines, i)
    {
      var ln := lines[i];
      CrumbsStep(lines, i);
      if TrimSpace(ln) == "" {
        if start >= 0 {
          paras := Flush(lines, paras, start, i, buf, crumbs);
          start, buf := -1, [];
        }
      } else {
        if start < 0 {
          start := i;
        }
        buf := buf + [ln];
        crumbs := HeadingUpdate(crumbs, ln);
      }
    }
    if start >= 0 {
      paras := Flush(lines, paras, start, |lines|, buf, crumbs);
    }
  }

  lemma EmptyCrumbs(lines: seq<string>)
    ensures Crumbs(lines, 0) == []
  {
  }

  lemma CrumbsStep(lines: seq<string>, i: nat)
    requires i < |lines|
    ensures Crumbs(lines, i + 1) == if Blank(lines[i]) then Crumbs(lines, i) else HeadingUpdate(Crumbs(lines, i), lines[i])
    ensures Blank(lines[i]) <==> TrimSpace(lines[i]) == ""
  {
  }

  method Flush(lines: seq<string>, paras: seq<Para>, start: nat, end: nat, buf: seq<string>, crumbs: seq<string>) returns (grown: seq<Para>)
    requires SplitTo(lines, start, paras) && MaximalRun(lines, start, end)
    requires buf == lines[start..end] && crumbs == Crumbs(lines, end)
    ensures SplitTo(lines, end, grown)
  {
    hide Blank, Join, Crumbs, HeadingUpdate, TrimSpace;
    var p := Para(|paras|, start + 1, end, Join(buf, "\n"), Join(crumbs, " > "));
    grown := paras + [p];
    FlushSplits(lines, paras, start, end, p);
  }

  lemma FlushSplits(lines: seq<string>, paras: seq<Para>, start: nat, end: nat, p: Para)
    requires SplitTo(lines, start, paras) && ParaAt(lines, p, |paras|) && p.startLine == start + 1 && p.endLine == end
    requires forall k :: 0 <= k < |paras| ==> paras[k].endLine < start || start == 0
    ensures SplitTo(lines, end, paras + [p])
  {
    hide Blank, Join, Crumbs, HeadingUpdate, TrimSpace;
    var grown := paras + [p];
    forall i | 0 <= i < end && !Blank(lines[i])
      ensures exists k :: 0 <= k < |grown| && Inside(grown[k], i)
    {
      if i < start {
        var k :| 0 <= k < |paras| && Inside(paras[k], i);
        assert Inside(grown[k], i);
      } else {
        assert Inside(grown[|paras|], i);
      }
    }
    forall k | 0 <= k < |grown|
      ensures ParaAt(lines, grown[k], k) && grown[k].endLine <= end
    {
      if k < |paras| {
        assert ParaAt(lines, paras[k], k);
      }
    }
  }

  /** Every non-blank line is in exactly one paragraph, and a blank line in none. */
  lemma EachLineOnce(lines: seq<string>, paras: seq<Para>, i: nat)
    requires SplitTo(lines, |lines|, paras) && i < |lines|
    ensures !Blank(lines[i]) <==> exists k :: 0 <= k < |paras| && Inside(paras[k], i)
    ensures forall j, k :: 0 <= j < |paras| && 0 <= k < |paras| && Inside(paras[j], i) && Inside(paras[k], i) ==> j == k
  {
    hide Blank, Join, Crumbs, HeadingUpdate, TrimSpace;
    forall k | 0 <= k < |paras| && Inside(paras[k], i)
      ensures !Blank(lines[i])
    {
      assert ParaAt(lines, paras[k], k);
    }
  }

  /** Of two runs sharing a line, neither starts or ends inside the other. */
  lemma RunsNest(lines: seq<string>, s1: nat, e1: nat, s2: nat, e2: nat, i: nat)
    requires MaximalRun(lines, s1, e1) && MaximalRun(lines, s2, e2) && s1 <= i < e1 && s2 <= i < e2
    ensures s2 <= s1 && e1 <= e2
  {
    hide Blank;
    assert s2 > 0 ==> !(s1 <= s2 - 1 < e1);
    assert e2 < |lines| ==> !(s1 <= e2 < e1);
  }

  /** Two paragraphs that share a line are the same run. */
  lemma SameRun(lines: seq<string>, a: Para, j: nat, b: Para, k: nat, i: nat)
    requires ParaAt(lines, a, j) && ParaAt(lines, b, k) && Inside(a, i) && Inside(b, i)
    ensures a.startLine == b.startLine && a.endLine == b.endLine && a.text == b.text && a.heading == b.heading
  {
    hide Blank, Join, Crumbs, MaximalRun;
    RunsNest(lines, a.startLine - 1, a.endLine, b.startLine - 1, b.endLine, i);
    RunsNest(lines, b.startLine - 1, b.endLine, a.startLine - 1, a.endLine, i);
  }

  function EndOf(p: seq<Para>, m: nat): nat
    requires m <= |p|
  {
    if m == 0 then 0 else p[m - 1].endLine
  }

  /** After m paragraphs, only blank lines come before the next one, or the end. */
  lemma BlankUntilNext(lines: seq<string>, p: seq<Para>, m: nat)
    requires SplitTo(lines, |lines|, p) && m <= |p|
    ensures m < |p| ==> EndOf(p, m) <= p[m].startLine - 1 < p[m].endLine <= |lines| && !Blank(lines[p[m].startLine - 1])
    ensures forall i :: EndOf(p, m) <= i < |lines| && (m < |p| ==> i + 1 < p[m].startLine) ==> Blank(lines[i])
  {
    hide Blank, Join, Crumbs;
    if m < |p| {
      assert ParaAt(lines, p[m], m);
    }
    if m > 0 {
      assert ParaAt(lines, p[m - 1], m - 1);
    }
    forall i | EndOf(p, m) <= i < |lines| && (m < |p| ==> i + 1 < p[m].startLine)
      ensures Blank(lines[i])
    {
      forall k | 0 <= k < |p|
        ensures !Inside(p[k], i)
      {
        assert k < m ==> p[k].endLine <= EndOf(p, m);
        assert k >= m ==> p[k].startLine >= p[m].startLine;
      }
    }
  }

  /** The specification leaves no choice: a document has one split. */
  lemma {:induction false} SplitIsUnique(lines: seq<string>, p: seq<Para>, q: seq<Para>, n: nat)
    requires SplitTo(lines, |lines|, p) && SplitTo(lines, |lines|, q) && n <= |p|
    ensures n <= |q| && p[..n] == q[..n]
    ensures n == |p| ==> p == q
  {
    hide Blank, Join, Crumbs;
    var m := if n > 0 then n - 1 else 0;
    if n == 0 {
    } else {
      SplitIsUnique(lines, p, q, m);
      BlankUntilNext(lines, p, m);
      SameEnds(p, q, m);
      BlankUntilNext(lines, q, m);
      NextSame(lines, p, q, m);
      assert p[..n] == p[..m] + [p[m]] && q[..n] == q[..m] + [q[m]];
    }
    if n == |p| {
      BlankUntilNext(lines, p, n);
      SameEnds(p, q, n);
      BlankUntilNext(lines, q, n);
      assert p == p[..n] && (n == |q| ==> q == q[..n]);
    }
  }

  lemma SameEnds(p: seq<Para>, q: seq<Para>, m: nat)
    requires m <= |p| && m <= |q| && p[..m] == q[..m]
    ensures EndOf(p, m) == EndOf(q, m)
  {
    if m > 0 {
      assert p[m - 1] == p[..m][m - 1] && q[m - 1] == q[..m][m - 1];
    }
  }

  lemma NextSame(lines: seq<string>, p: seq<Para>, q: seq<Para>, m: nat)
    requires SplitTo(lines, |lines|, p) && SplitTo(lines, |lines|, q)
    requires m < |p| && m <= |q| && EndOf(p, m) == EndOf(q, m)
    ensures m < |q| && p[m] == q[m]
  {
    hide Blank, Join, Crumbs;
    BlankUntilNext(lines, p, m);
    BlankUntilNext(lines, q, m);
    assert ParaAt(lines, p[m], m) && ParaAt(lines, q[m], m);
    SameRun(lines, p[m], m, q[m], m, p[m].startLine - 1);
  }

  // ---- frontmatter ----

  predicate Rule(line: string) {
    TrimSpace(line) == "---"
  }

  /** The closing delimiter of a leading block, if there is one. */
  predicate ClosesAt(lines: seq<string>, end: Option<nat>) {
    match end
    case None => lines == [] || !Rule(lines[0]) || forall i :: 1 <= i < |lines| ==> !Rule(lines[i])
    case Some(e) => 1 <= e < |lines| && Rule(lines[0]) && Rule(lines[e]) && forall i :: 1 <= i < e ==> !Rule(lines[i])
  }

  method FrontmatterEnd(lines: seq<string>) returns (end: Option<nat>)
    ensures ClosesAt(lines, end)
  {
    hide TrimSpace;
    if |lines| == 0 || TrimSpace(lines[0]) != "---" {
      return None;
    }
    for i := 1 to |lines|
      invariant forall j :: 1 <= j < i ==> !Rule(lines[j])
    {
      if TrimSpace(lines[i]) == "---" {
        return Some(i);
      }
    }
    end := None;
  }

  /** How many lines a closed block takes. */
  function LineCount(end: Option<nat>): nat {
    match end case None => 0 case Some(e) => e + 1
  }

  function Blanked(lines: seq<string>, n: nat): (r: seq<string>)
    ensures |r| == |lines|
    ensures forall i :: 0 <= i < |lines| ==> r[i] == if i < n then "" else lines[i]
  {
    seq(|lines|, i requires 0 <= i < |lines| => if i < n then "" else lines[i])
  }

  /** blankLines' loop, on the slice it overwrites. */
  method BlankLines(lines: array<string>, n: nat)
    modifies lines
    ensures lines[..] == Blanked(old(lines[..]), n)
  {
    var i := 0;
    while i < n && i < lines.Length
      invariant 0 <= i <= lines.Length && i <= n
      invariant forall j :: 0 <= j < lines.Length ==> lines[j] == if j < i then "" else old(lines[j])
    {
      lines[i] := "";
      i := i + 1;
    }
    assert forall j :: 0 <= j < lines.Length ==> lines[..][j] == Blanked(old(lines[..]), n)[j];
  }

  /** What the store splits: the document, its frontmatter blanked out. */
  function ParaSource(content: string, end: Option<nat>): string {
    if end.None? then content else Join(Blanked(Lines(content), LineCount(end)), "\n")
  }

  /** What a reader gets for a line range. */
  function Fetch(content: string, a: nat, b: nat): string
    requires 1 <= a <= b && a <= |Lines(content)|
  {
    Join(Lines(content)[a - 1..Min(b, |Lines(content)|)], "\n")
  }

  // ---- normalising twice ----

  function Stripped(lines: seq<string>): (r: seq<string>)
    ensures |r| == |lines|
    ensures forall i :: 0 <= i < |lines| ==> r[i] == if i < |lines| - 1 then StripCR(lines[i]) else lines[i]
  {
    seq(|lines|, i requires 0 <= i < |lines| => if i < |lines| - 1 then StripCR(lines[i]) else lines[i])
  }

  lemma {:induction false} NormaliseLine(l: string, r: string)
    requires OneLine(l)
    ensures Normalise(l + "\n" + r) == StripCR(l) + "\n" + Normalise(r)
    ensures Normalise(l) == l
  {
    var s := l + "\n" + r;
    if l == "" {
      assert s == "\n" + r && s[1..] == r;
    } else if l == "\r" {
      assert s[0] == '\r' && s[1] == '\n' && s[2..] == r;
      assert StripCR(l) == "";
    } else {
      assert s == [l[0]] + (l[1..] + "\n" + r);
      assert l[0] != '\n' && (forall i :: 0 <= i < |l[1..]| ==> l[1..][i] == l[i + 1]);
      assert OneLine(l[1..]);
      NormaliseLine(l[1..], r);
      assert !(s[0] == '\r' && s[1] == '\n') by {
        if |l| > 1 {
          assert s[1] == l[1];
        }
      }
      assert StripCR(l) == [l[0]] + StripCR(l[1..]);
      assert |l| >= 2 ==> Normalise(l) == [l[0]] + Normalise(l[1..]) by {
        if |l| >= 2 {
          assert l[1] in l;
        }
      }
    }
  }

  lemma {:induction false} SplitLine(l: string, r: string)
    requires OneLine(l)
    ensures Split(l + "\n" + r) == [l] + Split(r)
    ensures Split(l) == [l]
  {
    var s := l + "\n" + r;
    if l == "" {
      assert s[0] == '\n' && s[1..] == r;
    } else {
      assert s[0] == l[0] && s[1..] == l[1..] + "\n" + r;
      assert l[0] in l && OneLine(l[1..]) && l == [l[0]] + l[1..];
      SplitLine(l[1..], r);
      assert ([l[1..]] + Split(r))[1..] == Split(r);
    }
  }

  /** Lines joined and read again have lost a "\r" each, all but the last. */
  lemma {:induction false} RejoinedLines(ls: seq<string>)
    requires ls != [] && forall i :: 0 <= i < |ls| ==> OneLine(ls[i])
    ensures Lines(Join(ls, "\n")) == Stripped(ls)
  {
    hide Normalise, Split;
    if |ls| == 1 {
      NormaliseLine(ls[0], "");
      SplitLine(ls[0], "");
      assert Stripped(ls) == [ls[0]];
    } else {
      var r := Join(ls[1..], "\n");
      NormaliseLine(ls[0], r);
      assert OneLine(StripCR(ls[0]));
      SplitLine(StripCR(ls[0]), Normalise(r));
      RejoinedLines(ls[1..]);
      assert Stripped(ls) == [StripCR(ls[0])] + Stripped(ls[1..]);
    }
  }

  lemma {:induction false} SplitOneLine(s: string)
    ensures forall i :: 0 <= i < |Split(s)| ==> OneLine(Split(s)[i])
  {
    if s == "" {
    } else {
      SplitOneLine(s[1..]);
    }
  }

  lemma {:induction false} TrimLeftBlank(s: string)
    ensures TrimLeft(s) == "" <==> forall i :: 0 <= i < |s| ==> IsSpace(s[i])
    ensures TrimLeft(s) != "" ==> !IsSpace(TrimLeft(s)[0])
  {
    hide IsSpace;
    if s != "" && IsSpace(s[0]) {
      TrimLeftBlank(s[1..]);
      assert forall i :: 1 <= i < |s| ==> s[i] == s[1..][i - 1];
    }
  }

  lemma {:induction false} TrimRightKeeps(s: string)
    requires s != "" && !IsSpace(s[0])
    ensures TrimRight(s) != ""
  {
    hide IsSpace;
    if IsSpace(s[|s| - 1]) {
      TrimRightKeeps(s[..|s| - 1]);
    }
  }

  lemma BlankIffSpaces(s: string)
    ensures Blank(s) <==> forall i :: 0 <= i < |s| ==> IsSpace(s[i])
  {
    TrimLeftBlank(s);
    if TrimLeft(s) != "" {
      TrimRightKeeps(TrimLeft(s));
    }
    hide IsSpace, TrimLeft;
  }

  /** Losing its "\r" does not change whether a line is blank. */
  lemma StripKeepsBlank(line: string)
    ensures Blank(StripCR(line)) <==> Blank(line)
  {
    BlankIffSpaces(line);
    BlankIffSpaces(StripCR(line));
    assert IsSpace('\r');
    hide IsSpace, Blank;
    var t := StripCR(line);
    assert forall i :: 0 <= i < |t| ==> t[i] == line[i];
    assert |t| < |line| ==> line[|t|] == '\r';
  }

  // ---- line numbers and text ----

  /** Blanking the frontmatter keeps the number of lines, and which later lines are blank. */
  lemma SourceLines(content: string, end: Option<nat>, i: nat)
    requires ClosesAt(Lines(content), end) && i < |Lines(content)|
    ensures var src := Lines(ParaSource(content, end));
      && |src| == |Lines(content)|
      && (i < LineCount(end) ==> Blank(src[i]))
      && (i >= LineCount(end) ==> (Blank(src[i]) <==> Blank(Lines(content)[i])))
      && (end.None? ==> src == Lines(content))
      && (end.Some? && i >= LineCount(end) ==> src[i] == if i < |src| - 1 then StripCR(Lines(content)[i]) else Lines(content)[i])
  {
    hide Normalise, Split, Rule;
    if end.Some? {
      var ls := Lines(content);
      SplitOneLine(Normalise(content));
      var blanked := Blanked(ls, LineCount(end));
      assert forall j :: 0 <= j < |ls| ==> OneLine(blanked[j]);
      RejoinedLines(blanked);
      StripKeepsBlank(ls[i]);
      assert Blank("");
    }
  }

  function Total(lines: seq<string>): nat {
    if lines == [] then 0 else |lines[0]| + Total(lines[1..])
  }

  lemma {:induction false} JoinLength(lines: seq<string>)
    ensures |Join(lines, "\n")| == Total(lines) + (if lines == [] then 0 else |lines| - 1)
  {
    if |lines| > 1 {
      JoinLength(lines[1..]);
    } else if |lines| == 1 {
      assert Total(lines[1..]) == 0;
    }
  }

  lemma {:induction false} TotalShrinks(a: seq<string>, b: seq<string>)
    requires |a| == |b| && forall i :: 0 <= i < |a| ==> |a[i]| <= |b[i]|
    ensures Total(a) <= Total(b)
    ensures (exists i :: 0 <= i < |a| && |a[i]| < |b[i]|) ==> Total(a) < Total(b)
  {
    if a == [] {
    } else {
      TotalShrinks(a[1..], b[1..]);
      if i :| 0 <= i < |a| && |a[i]| < |b[i]| {
        if i > 0 {
          assert |a[1..][i - 1]| < |b[1..][i - 1]|;
        }
      }
    }
  }

  predicate EndsInCR(line: string) {
    line != "" && line[|line| - 1] == '\r'
  }

  /** A line of the paragraph that still ends in "\r" after one normalisation, and
      is not the document's last. */
  predicate HasStrayCR(content: string, p: Para) {
    p.startLine > 0 && StrayIn(Lines(content), p.startLine - 1, p.endLine)
  }

  predicate StrayIn(ls: seq<string>, a: nat, b: nat) {
    exists i :: a <= i < b && i < |ls| - 1 && EndsInCR(ls[i])
  }

  /** A paragraph's text is what its line range fetches, exactly unless the document
      has frontmatter and a line of the paragraph is ended by "\r\r\n": such a
      document is normalised twice, but only once for the reader. */
  lemma TextIsFetchedIff(content: string, end: Option<nat>, paras: seq<Para>, k: nat)
    requires ClosesAt(Lines(content), end)
    requires SplitTo(Lines(ParaSource(content, end)), |Lines(ParaSource(content, end))|, paras) && k < |paras|
    ensures 1 <= paras[k].startLine <= paras[k].endLine <= |Lines(content)| && paras[k].startLine > LineCount(end)
    ensures paras[k].text == Fetch(content, paras[k].startLine, paras[k].endLine)
      <==> end.None? || !HasStrayCR(content, paras[k])
  {
    hide Lines, Blank, Rule, Join, ParaSource, Crumbs, StrayIn;
    var src, p, ls := Lines(ParaSource(content, end)), paras[k], Lines(content);
    SourceLines(content, end, 0);
    assert ParaAt(src, p, k);
    SourceLines(content, end, p.startLine - 1);
    assert !Blank(src[p.startLine - 1]);
    forall i | p.startLine - 1 <= i < p.endLine
      ensures i >= LineCount(end) && (end.Some? ==> src[i] == if i < |src| - 1 then StripCR(ls[i]) else ls[i])
    {
      SourceLines(content, end, i);
    }
    if end.Some? {
      StrippedJoin(ls, src, p.startLine - 1, p.endLine);
    }
  }

  lemma StrippedJoin(ls: seq<string>, src: seq<string>, a: nat, b: nat)
    requires a < b <= |ls| && |src| == |ls|
    requires forall i :: a <= i < b ==> src[i] == if i < |src| - 1 then StripCR(ls[i]) else ls[i]
    ensures Join(src[a..b], "\n") == Join(ls[a..b], "\n")
      <==> !StrayIn(ls, a, b)
  {
    hide Join, Total, StripCR, EndsInCR;
    var x, y := src[a..b], ls[a..b];
    forall i | 0 <= i < |x|
      ensures x[i] == if a + i < |ls| - 1 then StripCR(y[i]) else y[i]
      ensures |x[i]| <= |y[i]|
      ensures |x[i]| < |y[i]| <==> a + i < |ls| - 1 && EndsInCR(ls[a + i])
      ensures |x[i]| == |y[i]| ==> x[i] == y[i]
    {
      assert x[i] == src[a + i] && y[i] == ls[a + i];
      StripShrinks(y[i]);
    }
    TotalShrinks(x, y);
    JoinLength(x);
    JoinLength(y);
    if StrayIn(ls, a, b) {
      var i :| a <= i < b && i < |ls| - 1 && EndsInCR(ls[i]);
      assert |x[i - a]| < |y[i - a]|;
    } else {
      assert x == y;
    }
  }

  lemma StripShrinks(line: string)
    ensures |StripCR(line)| <= |line| && (|StripCR(line)| < |line| <==> EndsInCR(line))
    ensures |StripCR(line)| == |line| ==> StripCR(line) == line
  {
  }

  const MANGLED: seq<string> := ["---", "---", "a\r\r", "b"]

  /** Such documents exist: after "---\n---\n", the two lines "a\r\r\n" and "b". */
  lemma MangledParagraph(end: Option<nat>, paras: seq<Para>)
    requires end == Some(1)
    requires paras == [Para(0, 3, 4, "a\nb", "")]
    ensures ClosesAt(Lines(Join(MANGLED, "\n")), end)
    ensures SplitTo(Lines(ParaSource(Join(MANGLED, "\n"), end)), |Lines(ParaSource(Join(MANGLED, "\n"), end))|, paras)
    ensures HasStrayCR(Join(MANGLED, "\n"), paras[0])
  {
    var content := Join(MANGLED, "\n");
    MangledLines();
    assert Rule("---") by {
      RuleRead();
    }
    hide Normalise, Split, Rule, IsSpace, TrimSpace, Join, Lines, ParaSource;
    var src := Lines(ParaSource(content, end));
    assert EndsInCR(Lines(content)[2]);
    MangledSplit(paras);
  }

  lemma RuleRead()
    ensures Rule("---")
  {
    assert !IsSpace('-');
    hide IsSpace;
    assert TrimLeft("---") == "---" && TrimRight("---") == "---";
  }

  lemma MangledLines()
    ensures Lines(Join(MANGLED, "\n")) == ["---", "---", "a\r", "b"]
    ensures Lines(ParaSource(Join(MANGLED, "\n"), Some(1))) == ["", "", "a", "b"]
  {
    hide Normalise, Split;
    assert StripCR("---") == "---" && StripCR("a\r\r") == "a\r" && StripCR("a\r") == "a" && StripCR("") == "" by {
      assert "a\r\r"[..2] == "a\r" && "a\r"[..1] == "a";
    }
    hide StripCR;
    RejoinedLines(MANGLED);
    assert Stripped(MANGLED) == ["---", "---", "a\r", "b"];
    var blanked := ["", "", "a\r", "b"];
    assert Blanked(["---", "---", "a\r", "b"], 2) == blanked;
    RejoinedLines(blanked);
    assert Stripped(blanked) == ["", "", "a", "b"];
  }

  lemma MangledBlanks()
    ensures Blank("") && !Blank("a") && !Blank("b")
  {
    BlankIffSpaces("");
    BlankIffSpaces("a");
    BlankIffSpaces("b");
    hide Blank;
    assert !IsSpace('a') && !IsSpace('b');
    assert "a"[0] == 'a' && "b"[0] == 'b';
  }

  lemma MangledSplit(paras: seq<Para>)
    requires paras == [Para(0, 3, 4, "a\nb", "")]
    ensures SplitTo(["", "", "a", "b"], 4, paras)
  {
    var src := ["", "", "a", "b"];
    hide IsSpace, Blank, TrimSpace, HeadingUpdate, Hashes;
    MangledBlanks();
    NoHeadings(src);
    hide Crumbs;
    assert src[2..4] == ["a", "b"] && Join(src[2..4], "\n") == "a\nb";
    assert ParaAt(src, paras[0], 0);
    assert Inside(paras[0], 2) && Inside(paras[0], 3);
  }

  lemma NoHeadings(src: seq<string>)
    requires src == ["", "", "a", "b"]
    ensures Join(Crumbs(src, 4), " > ") == ""
  {
    hide Blank, TrimSpace;
    assert Crumbs(src, 0) == [] && Crumbs(src, 1) == [] && Crumbs(src, 2) == [];
    assert Crumbs(src, 3) == [];
  }
}
