/** Text files as Python's `open` iterates over them, after newlines have been translated. */
module TextFiles {
  import Strings

  type Line = string

  /** Iterating an open file: each line with its newline, the last one perhaps without. */
  function Lines(t: string): (r: seq<Line>)
    ensures t != "" ==> r != []
  {
    if t == "" then []
    else
      var r := Lines(t[1..]);
      if t[0] == '\n' then ["\n"] + r
      else if r == [] then [[t[0]]]
      else [[t[0]] + r[0]] + r[1..]
  }

  /** Ends in its only newline. */
  predicate Terminated(l: Line) {
    l != "" && l[|l| - 1] == '\n' && '\n' !in l[..|l| - 1]
  }

  predicate AllTerminated(lines: seq<Line>) {
    forall i :: 0 <= i < |lines| ==> Terminated(lines[i])
  }

  lemma {:induction false} LinesOfLine(l: Line, t: string)
    requires Terminated(l)
    ensures Lines(l + t) == [l] + Lines(t)
    decreases |l|
  {
    assert (l + t)[1..] == l[1..] + t;
    if |l| == 1 {
      assert l == "\n" && l[1..] + t == t;
    } else {
      assert l[0] == l[..|l| - 1][0];
      assert l[1..][..|l| - 2] == l[..|l| - 1][1..];
      LinesOfLine(l[1..], t);
      assert [l[0]] + l[1..] == l;
    }
  }

  /** Lines that are written are read back. */
  lemma {:induction false} LinesOfText(lines: seq<Line>)
    requires AllTerminated(lines)
    ensures Lines(Strings.Concat(lines)) == lines
  {
    if lines != [] {
      LinesOfText(lines[1..]);
      LinesOfLine(lines[0], Strings.Concat(lines[1..]));
    }
  }
}
