/** LSP positions and byte offsets (src/internal/codeindex/extract.go:108-121,
    187-261).  Text is UTF-8 (section 3 of RFC 3629), positions count UTF-16 code
    units (section 2.1 of RFC 2781; "Text Documents" and "Position" of LSP 3.17). */
module LineIndex {
  import opened Options

  type byte = x: int | 0 <= x < 256

  const LF: byte := 10
  const CR: byte := 13
  const RUNE_ERROR := 0xFFFD

  // ---- decoding, as utf8.DecodeRune does it ----

  datatype Rune = Rune(code: int, size: nat)

  predicate Continues(b: byte) {
    0x80 <= b < 0xC0
  }

  /** The six payload bits of a continuation byte. */
  function Low(b: byte): int {
    b as int - 0x80
  }

  function Bad(): Rune {
    Rune(RUNE_ERROR, 1)
  }

  /** The first rune of s; anything malformed is one byte of U+FFFD. */
  function DecodeRune(s: seq<byte>): (r: Rune)
    requires s != []
    ensures 1 <= r.size <= |s| && 0 <= r.code < 0x110000 && !(0xD800 <= r.code < 0xE000)
  {
    var b0: int := s[0];
    if b0 < 0x80 then Rune(b0, 1)
    else if b0 < 0xC2 || b0 > 0xF4 then Bad()
    else if b0 < 0xE0 then
      if |s| < 2 || !Continues(s[1]) then Bad()
      else Rune((b0 - 0xC0) * 0x40 + Low(s[1]), 2)
    else if b0 < 0xF0 then
      if |s| < 3 || !Continues(s[1]) || !Continues(s[2]) || (b0 == 0xE0 && s[1] < 0xA0) || (b0 == 0xED && s[1] > 0x9F) then Bad()
      else Rune((b0 - 0xE0) * 0x1000 + Low(s[1]) * 0x40 + Low(s[2]), 3)
    else
      if |s| < 4 || !Continues(s[1]) || !Continues(s[2]) || !Continues(s[3]) || (b0 == 0xF0 && s[1] < 0x90) || (b0 == 0xF4 && s[1] > 0x8F) then Bad()
      else Rune((b0 - 0xF0) * 0x40000 + Low(s[1]) * 0x1000 + Low(s[2]) * 0x40 + Low(s[3]), 4)
  }

  function RuneLen(code: int): int {
    if 0 <= code < 0xD800 || 0xE000 <= code < 0x10000 then 1
    else if 0x10000 <= code < 0x110000 then 2
    else -1
  }

  /** The UTF-16 length of a byte string: len(utf16.Encode([]rune(s))). */
  function Units(s: seq<byte>): nat {
    if s == [] then 0 else RuneLen(DecodeRune(s).code) + Units(s[DecodeRune(s).size..])
  }

  /** b is where a rune of s starts, or the end of s. */
  predicate Boundary(s: seq<byte>, b: nat) {
    b == 0 || (s != [] && b >= DecodeRune(s).size && Boundary(s[DecodeRune(s).size..], b - DecodeRune(s).size))
  }

  lemma {:induction false} BoundaryInside(s: seq<byte>, b: nat)
    requires Boundary(s, b)
    ensures b <= |s|
  {
    if b == 0 {
    } else {
      BoundaryInside(s[DecodeRune(s).size..], b - DecodeRune(s).size);
    }
  }

  lemma {:induction false} EndIsBoundary(s: seq<byte>)
    ensures Boundary(s, |s|)
  {
    if s == [] {
    } else {
      EndIsBoundary(s[DecodeRune(s).size..]);
    }
  }

  /** Cutting s at or past its first rune does not change that rune. */
  lemma DecodePrefix(s: seq<byte>, b: nat)
    requires s != [] && DecodeRune(s).size <= b <= |s|
    ensures DecodeRune(s[..b]) == DecodeRune(s)
  {
  }

  lemma UnitsStep(s: seq<byte>, b: nat)
    requires s != [] && DecodeRune(s).size <= b <= |s|
    ensures Units(s[..b]) == RuneLen(DecodeRune(s).code) + Units(s[DecodeRune(s).size..][..b - DecodeRune(s).size])
  {
    DecodePrefix(s, b);
    var k := DecodeRune(s).size;
    assert s[..b][k..] == s[k..][..b - k];
  }

  /** Each rune counts at least one unit, so units grow strictly along boundaries. */
  lemma {:induction false} UnitsIncrease(s: seq<byte>, a: nat, b: nat)
    requires Boundary(s, a) && Boundary(s, b) && a < b
    ensures b <= |s| && Units(s[..a]) < Units(s[..b])
  {
    BoundaryInside(s, b);
    var k := DecodeRune(s).size;
    UnitsStep(s, b);
    if a == 0 {
      assert s[..0] == [];
    } else {
      UnitsStep(s, a);
      UnitsIncrease(s[k..], a - k, b - k);
    }
  }

  // ---- encoding, per section 3 of RFC 3629 ----

  predicate Scalar(c: int) {
    0 <= c < 0xD800 || 0xE000 <= c < 0x110000
  }

  function Encode(c: int): (s: seq<byte>)
    requires Scalar(c)
    ensures 1 <= |s| <= 4
  {
    if c < 0x80 then [c]
    else if c < 0x800 then [0xC0 + c / 0x40, 0x80 + c % 0x40]
    else if c < 0x10000 then [0xE0 + c / 0x1000, 0x80 + c / 0x40 % 0x40, 0x80 + c % 0x40]
    else [0xF0 + c / 0x40000, 0x80 + c / 0x1000 % 0x40, 0x80 + c / 0x40 % 0x40, 0x80 + c % 0x40]
  }

  predicate Scalars(t: seq<int>) {
    forall i :: 0 <= i < |t| ==> Scalar(t[i])
  }

  function EncodeAll(t: seq<int>): seq<byte>
    requires Scalars(t)
  {
    if t == [] then [] else Encode(t[0]) + EncodeAll(t[1..])
  }

  /** The number of UTF-16 code units of a text, per section 2.1 of RFC 2781. */
  function Utf16Length(t: seq<int>): nat {
    if t == [] then 0 else (if t[0] < 0x10000 then 1 else 2) + Utf16Length(t[1..])
  }

  lemma Sextets(c: int)
    requires Scalar(c)
    ensures c == c / 0x40 * 0x40 + c % 0x40
    ensures c == c / 0x1000 * 0x1000 + c / 0x40 % 0x40 * 0x40 + c % 0x40
    ensures c == c / 0x40000 * 0x40000 + c / 0x1000 % 0x40 * 0x1000 + c / 0x40 % 0x40 * 0x40 + c % 0x40
  {
    assert c / 0x40 / 0x40 == c / 0x1000 && c / 0x1000 / 0x40 == c / 0x40000;
  }

  lemma DecodeInvertsEncode(c: int, rest: seq<byte>)
    requires Scalar(c)
    ensures DecodeRune(Encode(c) + rest) == Rune(c, |Encode(c)|)
  {
    Sextets(c);
    var e, s := Encode(c), Encode(c) + rest;
    assert forall i :: 0 <= i < |e| ==> s[i] == e[i];
    if 0x800 <= c < 0x10000 {
      assert Continues(e[1]) && Continues(e[2]);
    } else if 0x10000 <= c {
      assert Continues(e[1]) && Continues(e[2]) && Continues(e[3]);
    }
  }

  lemma {:induction false} UnitsOfText(t: seq<int>)
    requires Scalars(t)
    ensures Units(EncodeAll(t)) == Utf16Length(t)
  {
    if t == [] {
    } else {
      DecodeInvertsEncode(t[0], EncodeAll(t[1..]));
      assert EncodeAll(t)[|Encode(t[0])|..] == EncodeAll(t[1..]);
      UnitsOfText(t[1..]);
    }
  }

  lemma {:induction false} TextPrefix(t: seq<int>, k: nat)
    requires Scalars(t) && k <= |t|
    ensures |EncodeAll(t[..k])| <= |EncodeAll(t)| && EncodeAll(t)[..|EncodeAll(t[..k])|] == EncodeAll(t[..k])
    ensures Boundary(EncodeAll(t), |EncodeAll(t[..k])|)
  {
    if k == 0 {
    } else {
      DecodeInvertsEncode(t[0], EncodeAll(t[1..]));
      assert t[..k][1..] == t[1..][..k - 1];
      TextPrefix(t[1..], k - 1);
      var n := |Encode(t[0])|;
      assert EncodeAll(t)[n..] == EncodeAll(t[1..]);
    }
  }

  // ---- lines ----

  /** Where a line starts: at 0, after "\n", and after a "\r" that no "\n" follows. */
  predicate LineStart(c: seq<byte>, p: nat) {
    p == 0 || (p <= |c| && (c[p - 1] == LF || (c[p - 1] == CR && !(p < |c| && c[p] == LF))))
  }

  predicate Increasing(starts: seq<nat>) {
    forall i, j :: 0 <= i < j < |starts| ==> starts[i] < starts[j]
  }

  /** The line index: every line start, in order. */
  ghost predicate Indexes(c: seq<byte>, starts: seq<nat>) {
    && |starts| > 0 && starts[0] == 0 && Increasing(starts)
    && forall p: nat :: p in starts <==> LineStart(c, p)
  }

  method NewLineIndex(content: seq<byte>) returns (starts: seq<nat>)
    ensures Indexes(content, starts)
  {
    starts := [0];
    var i := 0;
    while i < |content|
      invariant 0 <= i <= |content|
      invariant |starts| > 0 && starts[0] == 0 && Increasing(starts)
      invariant forall k :: 0 <= k < |starts| ==> starts[k] <= i
      invariant forall p: nat :: p in starts <==> p <= i && LineStart(content, p)
      invariant i > 0 && content[i - 1] == CR ==> !(i < |content| && content[i] == LF)
    {
      ghost var was := starts;
      if content[i] == CR {
        if i + 1 < |content| && content[i + 1] == LF {
          i := i + 1;
        }
        starts := starts + [i + 1];
      } else if content[i] == LF {
        starts := starts + [i + 1];
      }
      i := i + 1;
    }
  }

  function LineEnd(c: seq<byte>, starts: seq<nat>, n: nat): nat
    requires n < |starts|
  {
    if n + 1 < |starts| then starts[n + 1] else |c|
  }

  function TrimLineTerminator(line: seq<byte>): seq<byte> {
    var line1 := if line != [] && line[|line| - 1] == LF then line[..|line| - 1] else line;
    if line1 != [] && line1[|line1| - 1] == CR then line1[..|line1| - 1] else line1
  }

  function LineBytes(c: seq<byte>, starts: seq<nat>, n: nat): seq<byte>
    requires Indexes(c, starts) && n < |starts|
  {
    LineBounds(c, starts, n);
    TrimLineTerminator(c[starts[n]..LineEnd(c, starts, n)])
  }

  lemma LineBounds(c: seq<byte>, starts: seq<nat>, n: nat)
    requires Indexes(c, starts) && n < |starts|
    ensures starts[n] <= LineEnd(c, starts, n) <= |c|
    ensures n + 1 < |starts| ==> starts[n] < LineEnd(c, starts, n)
    ensures n + 1 < |starts| ==> LineStart(c, starts[n + 1])
  {
    assert starts[n] in starts;
    if n + 1 < |starts| {
      assert starts[n + 1] in starts;
    }
  }

  predicate Plain(line: seq<byte>) {
    forall i :: 0 <= i < |line| ==> line[i] != LF && line[i] != CR
  }

  /** Between two consecutive starts there is no other. */
  lemma NoStartInside(c: seq<byte>, starts: seq<nat>, n: nat, p: nat)
    requires Indexes(c, starts) && n < |starts| && starts[n] < p && (n + 1 < |starts| ==> p < starts[n + 1])
    ensures !LineStart(c, p)
  {
    assert forall k :: 0 <= k < |starts| ==> starts[k] != p by {
      forall k | 0 <= k < |starts|
        ensures starts[k] != p
      {
        assert k <= n ==> starts[k] <= starts[n];
        assert k > n ==> starts[k] >= starts[n + 1];
      }
    }
  }

  /** What ends a line: one terminator, or nothing on the last line. */
  predicate IsTerminator(t: seq<byte>, last: bool) {
    if last then t == [] else t == [LF] || t == [CR] || t == [CR, LF]
  }

  /** A byte that does not end its line, except for the "\r" of a closing "\r\n". */
  predicate InnerByte(c: seq<byte>, i: nat, end: nat)
    requires i + 1 < end <= |c|
  {
    c[i] != LF && (c[i] == CR ==> i + 2 == end && c[i + 1] == LF)
  }

  /** A line is its bytes, free of line breaks, and then its terminator. */
  lemma LineShape(c: seq<byte>, starts: seq<nat>, n: nat)
    requires Indexes(c, starts) && n < |starts|
    ensures var line := LineBytes(c, starts, n);
      var start, end := starts[n], LineEnd(c, starts, n);
      && start + |line| <= end <= |c| && line == c[start..start + |line|] && Plain(line)
      && IsTerminator(c[start + |line|..end], n + 1 == |starts|)
  {
    LineBounds(c, starts, n);
    var start, end := starts[n], LineEnd(c, starts, n);
    var whole := c[start..end];
    forall i: nat | start <= i && i + 1 < end
      ensures InnerByte(c, i, end)
    {
      NoStartInside(c, starts, n, i + 1);
      if i + 2 < end {
        NoStartInside(c, starts, n, i + 2);
      }
    }
    if n + 1 == |starts| && start < end {
      NoStartInside(c, starts, n, end);
    }
    LineTail(c, start, end, n + 1 == |starts|);
  }

  lemma LineTail(c: seq<byte>, start: nat, end: nat, last: bool)
    requires start <= end <= |c| && (last || start < end)
    requires forall i: nat :: start <= i && i + 1 < end ==> InnerByte(c, i, end)
    requires if last then start < end ==> c[end - 1] != LF && c[end - 1] != CR else c[end - 1] == LF || c[end - 1] == CR
    ensures var line := TrimLineTerminator(c[start..end]);
      && start + |line| <= end && line == c[start..start + |line|] && Plain(line)
      && IsTerminator(c[start + |line|..end], last)
  {
    var whole := c[start..end];
    assert forall i :: 0 <= i < |whole| ==> whole[i] == c[start + i];
    var line := TrimLineTerminator(whole);
    if last {
      assert line == whole;
    } else if c[end - 1] == LF && end - start >= 2 && c[end - 2] == CR {
      assert line == whole[..|whole| - 2];
      assert c[end - 2..end] == [CR, LF];
    } else {
      assert line == whole[..|whole| - 1];
      assert c[end - 1..end] == [c[end - 1]];
    }
    forall i | 0 <= i < |line|
      ensures line[i] != LF && line[i] != CR
    {
      assert line[i] == c[start + i];
      if start + i + 1 < end {
        assert InnerByte(c, start + i, end);
      }
    }
  }

  function Terminator(c: seq<byte>, starts: seq<nat>, n: nat): seq<byte>
    requires Indexes(c, starts) && n < |starts|
  {
    LineShape(c, starts, n);
    c[starts[n] + |LineBytes(c, starts, n)|..LineEnd(c, starts, n)]
  }

  /** The lines and their terminators, in order, are the content. */
  function Reassembled(c: seq<byte>, starts: seq<nat>, n: nat): seq<byte>
    requires Indexes(c, starts) && n <= |starts|
  {
    if n == 0 then []
    else Reassembled(c, starts, n - 1) + (LineBytes(c, starts, n - 1) + Terminator(c, starts, n - 1))
  }

  lemma LineWhole(c: seq<byte>, starts: seq<nat>, n: nat)
    requires Indexes(c, starts) && n < |starts|
    ensures starts[n] <= LineEnd(c, starts, n) <= |c|
    ensures LineBytes(c, starts, n) + Terminator(c, starts, n) == c[starts[n]..LineEnd(c, starts, n)]
    ensures IsTerminator(Terminator(c, starts, n), n + 1 == |starts|)
  {
    LineShape(c, starts, n);
    hide Indexes, LineBytes, Plain;
  }

  lemma Adjacent(c: seq<byte>, start: nat, end: nat)
    requires start <= end <= |c|
    ensures c[..start] + c[start..end] == c[..end] && c[..|c|] == c && c[..0] == []
  {
  }

  lemma {:induction false} LinesPartitionContent(c: seq<byte>, starts: seq<nat>, n: nat)
    requires Indexes(c, starts) && 0 < n <= |starts|
    ensures LineEnd(c, starts, n - 1) <= |c|
    ensures Reassembled(c, starts, n) == c[..LineEnd(c, starts, n - 1)]
    ensures n == |starts| ==> Reassembled(c, starts, n) == c
  {
    assert starts[0] == 0;
    hide Indexes, LineBytes, Terminator;
    LineWhole(c, starts, n - 1);
    Adjacent(c, starts[n - 1], LineEnd(c, starts, n - 1));
    var before := Reassembled(c, starts, n - 1);
    assert Reassembled(c, starts, n) == before + c[starts[n - 1]..LineEnd(c, starts, n - 1)];
    if n <= 1 {
    } else {
      LinesPartitionContent(c, starts, n - 1);
    }
    hide Reassembled;
    assert before == c[..starts[n - 1]];
  }

  // ---- positions to offsets ----

  datatype Position = Position(line: int, character: int)

  function Before(a: Position, b: Position): bool {
    a.line < b.line || (a.line == b.line && a.character <= b.character)
  }

  /** Where a column falls in a line: the first boundary with that many units before
      it, or the line's end when the line is shorter. */
  predicate ColumnAt(line: seq<byte>, character: int, b: nat) {
    && Boundary(line, b) && b <= |line|
    && (Units(line[..b]) >= character || b == |line|)
    && forall a :: 0 <= a < b && Boundary(line, a) ==> Units(line[..a]) < character
  }

  /** lineIndex.offset's loop. */
  method Column(line: seq<byte>, character: int) returns (b: nat)
    ensures ColumnAt(line, character, b)
  {
    var units := 0;
    b := 0;
    assert line[..0] == [];
    while b < |line|
      invariant Boundary(line, b) && b <= |line| && units == Units(line[..b])
      invariant forall a :: 0 <= a < b && Boundary(line, a) ==> Units(line[..a]) < character
    {
      if units >= character {
        break;
      }
      var rune := DecodeRune(line[b..]);
      var n := RuneLen(rune.code);
      if n < 0 {
        n := 1;
      }
      NextBoundary(line, b);
      units := units + n;
      b := b + rune.size;
    }
    if units < character {
      b := |line|;
    }
  }

  /** The boundary after b is one rune on, with that rune's units more. */
  lemma {:induction false} NextBoundary(s: seq<byte>, b: nat)
    requires b < |s| && Boundary(s, b)
    ensures var k := DecodeRune(s[b..]).size;
      && Boundary(s, b + k) && b + k <= |s|
      && Units(s[..b + k]) == Units(s[..b]) + RuneLen(DecodeRune(s[b..]).code)
      && forall a :: b < a < b + k ==> !Boundary(s, a)
  {
    hide DecodeRune, RuneLen;
    var k := DecodeRune(s[b..]).size;
    if b == 0 {
      assert s[0..] == s && s[..0] == [];
      UnitsStep(s, k);
      assert s[k..][..0] == [];
    } else {
      var d := DecodeRune(s).size;
      assert s[d..][b - d..] == s[b..];
      NextBoundary(s[d..], b - d);
      UnitsStep(s, b);
      UnitsStep(s, b + k);
      assert b + k - d == b - d + k;
      forall a | b < a < b + k
        ensures !Boundary(s, a)
      {
        assert !Boundary(s[d..], a - d);
      }
    }
  }

  lemma ColumnUnique(line: seq<byte>, character: int, a: nat, b: nat)
    requires ColumnAt(line, character, a) && ColumnAt(line, character, b)
    ensures a == b
  {
  }

  ghost predicate OffsetAt(c: seq<byte>, starts: seq<nat>, pos: Position, o: nat)
    requires Indexes(c, starts)
  {
    && 0 <= pos.line < |starts| && pos.character >= 0 && o >= starts[pos.line]
    && ColumnAt(LineBytes(c, starts, pos.line), pos.character, o - starts[pos.line])
  }

  predicate InRange(starts: seq<nat>, pos: Position) {
    0 <= pos.line < |starts| && pos.character >= 0
  }

  method Offset(c: seq<byte>, starts: seq<nat>, pos: Position) returns (r: Option<nat>)
    requires Indexes(c, starts)
    ensures r.None? <==> !InRange(starts, pos)
    ensures r.Some? ==> OffsetAt(c, starts, pos, r.value)
  {
    if pos.line < 0 || pos.line >= |starts| {
      return None;
    }
    if pos.character < 0 {
      return None;
    }
    var b := Column(LineBytes(c, starts, pos.line), pos.character);
    r := Some(starts[pos.line] + b);
  }

  /** Counting the units before a rune boundary and asking for that column gives
      the boundary back. */
  lemma OffsetInvertsUnits(c: seq<byte>, starts: seq<nat>, n: nat, b: nat, o: nat)
    requires Indexes(c, starts) && n < |starts| && Boundary(LineBytes(c, starts, n), b)
    requires b <= |LineBytes(c, starts, n)| && OffsetAt(c, starts, Position(n, Units(LineBytes(c, starts, n)[..b])), o)
    ensures o == starts[n] + b
  {
    var line := LineBytes(c, starts, n);
    UnitColumn(line, b);
    ColumnUnique(line, Units(line[..b]), b, o - starts[n]);
  }

  lemma UnitColumn(line: seq<byte>, b: nat)
    requires Boundary(line, b) && b <= |line|
    ensures ColumnAt(line, Units(line[..b]), b)
  {
    forall a | 0 <= a < b && Boundary(line, a)
      ensures Units(line[..a]) < Units(line[..b])
    {
      UnitsIncrease(line, a, b);
    }
  }

  /** On well-formed text: the offset of a UTF-16 column is the UTF-8 length of
      the characters before it. */
  lemma OffsetOfText(c: seq<byte>, starts: seq<nat>, n: nat, text: seq<int>, k: nat, o: nat)
    requires Indexes(c, starts) && n < |starts| && Scalars(text) && LineBytes(c, starts, n) == EncodeAll(text) && k <= |text|
    requires OffsetAt(c, starts, Position(n, Utf16Length(text[..k])), o)
    ensures o == starts[n] + |EncodeAll(text[..k])|
  {
    TextPrefix(text, k);
    UnitsOfText(text[..k]);
    OffsetInvertsUnits(c, starts, n, |EncodeAll(text[..k])|, o);
  }

  lemma ColumnMonotone(line: seq<byte>, x: int, y: int, a: nat, b: nat)
    requires ColumnAt(line, x, a) && ColumnAt(line, y, b) && x <= y
    ensures a <= b
  {
  }

  lemma LaterLineLater(c: seq<byte>, starts: seq<nat>, a: Position, b: Position, oa: nat, ob: nat)
    requires Indexes(c, starts) && OffsetAt(c, starts, a, oa) && OffsetAt(c, starts, b, ob) && a.line < b.line
    ensures oa < ob
  {
    LineShape(c, starts, a.line);
    LineBounds(c, starts, a.line);
    assert oa < starts[a.line + 1] <= starts[b.line] <= ob;
  }

  /** Offsets follow the order of positions. */
  lemma OffsetMonotone(c: seq<byte>, starts: seq<nat>, a: Position, b: Position, oa: nat, ob: nat)
    requires Indexes(c, starts) && OffsetAt(c, starts, a, oa) && OffsetAt(c, starts, b, ob) && Before(a, b)
    ensures oa <= ob
  {
    if a.line < b.line {
      LaterLineLater(c, starts, a, b, oa, ob);
    } else {
      ColumnMonotone(LineBytes(c, starts, a.line), a.character, b.character, oa - starts[a.line], ob - starts[a.line]);
    }
  }

  // ---- extractBody ----

  datatype Extracted = Body(text: seq<byte>) | OutOfRange | Backwards

  method ExtractBody(c: seq<byte>, starts: seq<nat>, start: Position, end: Position) returns (r: Extracted)
    requires Indexes(c, starts)
    ensures Before(start, end) ==> !r.Backwards?
    ensures r.Body? ==> start.line <= end.line
    ensures r.OutOfRange? <==> !InRange(starts, start) || !InRange(starts, end)
    ensures r.Backwards? ==> exists a: nat, b: nat :: b < a && OffsetAt(c, starts, start, a) && OffsetAt(c, starts, end, b)
    ensures r.Body? ==> exists a: nat, b: nat :: a <= b <= |c| && r.text == c[a..b] && OffsetAt(c, starts, start, a) && OffsetAt(c, starts, end, b)
  {
    var from := Offset(c, starts, start);
    if from.None? {
      return OutOfRange;
    }
    var to := Offset(c, starts, end);
    if to.None? {
      return OutOfRange;
    }
    if Before(start, end) {
      OffsetMonotone(c, starts, start, end, from.value, to.value);
    }
    if end.line < start.line {
      LaterLineLater(c, starts, end, start, to.value, from.value);
    }
    if to.value < from.value {
      return Backwards;
    }
    LineShape(c, starts, end.line);
    r := Body(c[from.value..to.value]);
  }
}
