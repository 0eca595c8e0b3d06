/** Splitting a file at its line feeds (src/cmd/ragrep/code.go:655). */
module SplitLines {
  import opened LineIndex
  import opened Declaration

  /** strings.Join with "\n". */
  function JoinLF(lines: seq<seq<byte>>): seq<byte> {
    if lines == [] then [] else if |lines| == 1 then lines[0] else lines[0] + [LF] + JoinLF(lines[1..])
  }

  lemma JoinHead(head: seq<byte>, rest: seq<seq<byte>>)
    requires rest != []
    ensures JoinLF([head] + rest) == head + [LF] + JoinLF(rest)
  {
    assert ([head] + rest)[1..] == rest;
  }

  /** The lines of the split hold no line feed, and joined by line feeds they are the
      content. */
  lemma {:induction false} SplitJoins(c: seq<byte>, from: nat)
    requires from <= |c|
    ensures JoinLF(SplitFrom(c, from)) == c[from..]
    ensures forall line :: line in SplitFrom(c, from) ==> LF !in line
    decreases |c| - from
  {
    var i := FirstLF(c, from);
    if i == |c| {
      assert SplitFrom(c, from) == [c[from..i]];
    } else {
      SplitJoins(c, i + 1);
      var rest := SplitFrom(c, i + 1);
      assert SplitFrom(c, from) == [c[from..i]] + rest;
      hide SplitFrom, FirstLF, JoinLF;
      JoinHead(c[from..i], rest);
      assert c[from..] == c[from..i] + [LF] + c[i + 1..];
    }
  }
}
