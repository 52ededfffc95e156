/**
 * Text files as `codecs.open` iterates over them: lines end where
 * `str.splitlines` ends them, and keep their ends.
 */
module CodecLines {
  import opened Strings

  type Line = string

  predicate IsBreak(c: char) {
    c in {'\n', '\U{0b}', '\U{0c}', '\r', '\U{1c}', '\U{1d}', '\U{1e}', '\U{85}', '\U{2028}', '\U{2029}'}
  }

  /** Does a line end between `c` and `t`? "\r\n" is one end. */
  predicate EndsBefore(c: char, t: string) {
    t == "" || (IsBreak(c) && !(c == '\r' && t[0] == '\n'))
  }

  /** The lines of a file. */
  function Lines(t: string): (r: seq<Line>)
    ensures t != "" ==> r != []
  {
    if t == "" then []
    else
      var r := Lines(t[1..]);
      if EndsBefore(t[0], t[1..]) then [[t[0]]] + r else [[t[0]] + r[0]] + r[1..]
  }

  /** Ends nowhere but behind its last character. */
  predicate IsLine(l: Line) {
    l != "" && forall i :: 0 <= i < |l| - 1 ==> !EndsBefore(l[i], l[i + 1..])
  }

  /** Ends in a line break, so that another line can follow. */
  predicate Terminated(l: Line) {
    l != "" && IsBreak(l[|l| - 1])
  }

  predicate AllTerminated(lines: seq<Line>) {
    forall i :: 0 <= i < |lines| ==> Terminated(lines[i])
  }

  /** Between `l` and the line `m` there is no end if they make "\r\n". */
  predicate Fuse(l: Line, m: Line) {
    l != "" && l[|l| - 1] == '\r' && m != "" && m[0] == '\n'
  }

  predicate NoneFuse(lines: seq<Line>) {
    forall i :: 0 <= i < |lines| - 1 ==> !Fuse(lines[i], lines[i + 1])
  }

  predicate AllLines(lines: seq<Line>) {
    forall i :: 0 <= i < |lines| ==> IsLine(lines[i])
  }

  /** What iterating over a file can give. */
  predicate IsFile(lines: seq<Line>) {
    && AllLines(lines)
    && (forall i :: 0 <= i < |lines| - 1 ==> Terminated(lines[i]))
    && NoneFuse(lines)
  }

  lemma LineInFront(c: char, l: Line)
    requires IsLine(l) && !EndsBefore(c, l)
    ensures IsLine([c] + l)
  {
    var q := [c] + l;
    forall i | 0 <= i < |q| - 1 ensures !EndsBefore(q[i], q[i + 1..]) {
      if i == 0 {
        assert q[i + 1..] == l;
      } else {
        assert q[i + 1..] == l[i - 1 + 1..];
      }
    }
  }

  /** `l` followed by `t`: the line ends behind `l`, or goes on with the first line of `t`. */
  lemma {:induction false} LinesBehind(l: Line, t: string)
    requires IsLine(l)
    ensures EndsBefore(l[|l| - 1], t) ==> Lines(l + t) == [l] + Lines(t)
    ensures !EndsBefore(l[|l| - 1], t) ==> Lines(l + t) == [l + Lines(t)[0]] + Lines(t)[1..]
    decreases |l|
  {
    assert (l + t)[1..] == l[1..] + t;
    if |l| == 1 {
      assert l[1..] + t == t && l == [l[0]];
    } else {
      var rest := l[1..];
      forall i | 0 <= i < |rest| - 1 ensures !EndsBefore(rest[i], rest[i + 1..]) {
        assert rest[i] == l[i + 1] && rest[i + 1..] == l[i + 1 + 1..];
      }
      assert !EndsBefore(l[0], l[0 + 1..]);
      LinesBehind(rest, t);
      assert [l[0]] + rest == l;
      assert !EndsBefore(l[0], rest + t);
      if !EndsBefore(l[|l| - 1], t) {
        Assoc([l[0]], rest, Lines(t)[0]);
      }
    }
  }

  lemma TextInFront(c: char, r: seq<Line>)
    requires r != []
    ensures Concat([[c] + r[0]] + r[1..]) == [c] + Concat(r)
  {
    var q := [[c] + r[0]] + r[1..];
    assert q[1..] == r[1..];
    Assoc([c], r[0], Concat(r[1..]));
  }

  /** Between the first line of a file and what follows it a line ends. */
  lemma FirstOf(r: seq<Line>)
    requires r != [] && AllLines(r)
    ensures Concat(r) != "" && Concat(r)[0] == r[0][0]
  {
  }

  lemma CharLine(c: char, r: seq<Line>)
    requires IsFile(r) && EndsBefore(c, Concat(r))
    ensures IsFile([[c]] + r)
  {
    var q := [[c]] + r;
    assert forall i :: 0 < i < |q| ==> q[i] == r[i - 1];
    if r != [] {
      FirstOf(r);
    }
  }

  lemma CharInFront(c: char, r: seq<Line>)
    requires IsFile(r) && r != [] && !EndsBefore(c, Concat(r))
    ensures IsFile([[c] + r[0]] + r[1..])
  {
    var q := [[c] + r[0]] + r[1..];
    FirstOf(r);
    LineInFront(c, r[0]);
    assert forall i :: 0 < i < |q| ==> q[i] == r[i];
    assert q[0][|q[0]| - 1] == r[0][|r[0]| - 1];
  }

  /** A file's lines are proper lines, and together they are the file. */
  lemma {:induction false} LinesIsFile(t: string)
    ensures IsFile(Lines(t)) && Concat(Lines(t)) == t
  {
    if t != "" {
      var r := Lines(t[1..]);
      LinesIsFile(t[1..]);
      assert t == [t[0]] + t[1..];
      if EndsBefore(t[0], t[1..]) {
        CharLine(t[0], r);
        assert ([[t[0]]] + r)[1..] == r;
      } else {
        CharInFront(t[0], r);
        TextInFront(t[0], r);
      }
    }
  }

  /** How `lines` begin a file: does the first line end? */
  lemma FirstEnds(lines: seq<Line>)
    requires lines != [] && AllLines(lines)
    ensures EndsBefore(lines[0][|lines[0]| - 1], Concat(lines[1..]))
       <==> |lines| == 1 || (Terminated(lines[0]) && !Fuse(lines[0], lines[1]))
  {
    if |lines| > 1 {
      FirstOf(lines[1..]);
    }
  }

  lemma FileIff(lines: seq<Line>)
    requires lines != [] && AllLines(lines)
    ensures IsFile(lines) <==>
      (|lines| == 1 || (Terminated(lines[0]) && !Fuse(lines[0], lines[1]))) && IsFile(lines[1..])
  {
    var rest := lines[1..];
    assert forall i :: 0 <= i < |rest| ==> rest[i] == lines[i + 1];
    if IsFile(rest) && |lines| > 1 && Terminated(lines[0]) && !Fuse(lines[0], lines[1]) {
      forall i | 0 <= i < |lines| - 1 ensures Terminated(lines[i]) && !Fuse(lines[i], lines[i + 1]) {
        if i > 0 {
          assert Terminated(rest[i - 1]) && !Fuse(rest[i - 1], rest[i - 1 + 1]);
        }
      }
    }
  }

  /** Lines that are written are read back if they can be a file; otherwise fewer are read. */
  lemma {:induction false} LinesOfText(lines: seq<Line>)
    requires AllLines(lines)
    ensures IsFile(lines) ==> Lines(Concat(lines)) == lines
    ensures !IsFile(lines) ==> |Lines(Concat(lines))| < |lines|
  {
    if lines != [] {
      var l, rest := lines[0], lines[1..];
      LinesOfText(rest);
      LinesBehind(l, Concat(rest));
      FirstEnds(lines);
      FileIff(lines);
    }
  }

  /** Which single characters end a line, by their code points. */
  lemma EndsAre(c: char)
    ensures Lines([c, 'x']) ==
      if c as int in {0x0A, 0x0B, 0x0C, 0x0D, 0x1C, 0x1D, 0x1E, 0x85, 0x2028, 0x2029} then [[c], ['x']] else [[c, 'x']]
  {
    var t: string := [c, 'x'];
    assert t[1..] == "x" && "x"[1..] == "" && Lines("x") == ["x"];
    assert [c] + "x" == t;
  }

  /** "\r\n" ends one line. */
  lemma ReturnNewline()
    ensures Lines("\r\nx") == ["\r\n", "x"]
  {
    var t: string := "\r\nx";
    var u: string := "\nx";
    assert t[1..] == u && u[1..] == "x" && "x"[1..] == "" && Lines("x") == ["x"];
    assert Lines(u) == ["\n", "x"];
    assert ['\r'] + "\n" == "\r\n";
  }
}
