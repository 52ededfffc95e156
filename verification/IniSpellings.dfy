/** What the INI reader makes of a file, however its headings and entries are spelled. */
module IniSpellings {
  import opened Dicts
  import opened IniFiles
  import opened IniRoundTrip
  import opened Strings
  import opened TextFiles
  import opened Wrappers

  // ---------------------------------------------------------------------
  // Spellings
  // ---------------------------------------------------------------------

  /** A line of a section: blank, a comment or a line without '=', or an entry with spaces anywhere around its parts. */
  datatype BodyLine =
    | Gap(space: string)
    | Note(text: string)
    | Pair(left: string, key: string, before: string, after: string, value: string, right: string)

  /** A heading, with spaces in and around the brackets, and perhaps colons. */
  datatype Heading = Heading(left: string, before: string, name: string, after: string, colons: string, right: string)

  datatype Part = Part(head: Heading, body: seq<BodyLine>)

  function KeyText(b: BodyLine): string
    requires b.Pair?
  {
    b.left + b.key + b.before
  }

  function ValueText(b: BodyLine): string
    requires b.Pair?
  {
    b.after + b.value + b.right
  }

  function BodyText(b: BodyLine): string {
    match b
    case Gap(w) => w
    case Note(t) => t
    case Pair(_, _, _, _, _, _) => KeyText(b) + ['='] + ValueText(b)
  }

  function Bracketed(h: Heading): string {
    "[" + (h.before + h.name + h.after) + "]"
  }

  function HeadText(h: Heading): string {
    h.left + (Bracketed(h) + h.colons) + h.right
  }

  function BodyTexts(body: seq<BodyLine>): (r: seq<string>)
    ensures |r| == |body| && forall i :: 0 <= i < |body| ==> r[i] == BodyText(body[i])
  {
    if body == [] then [] else [BodyText(body[0])] + BodyTexts(body[1..])
  }

  function PartLines(p: Part): seq<Line> {
    [HeadText(p.head) + "\n"] + Ended(BodyTexts(p.body))
  }

  function PartsLines(ps: seq<Part>): seq<Line> {
    if ps == [] then [] else PartLines(ps[0]) + PartsLines(ps[1..])
  }

  predicate Blank(w: string) {
    forall i :: 0 <= i < |w| ==> IsSpace(w[i])
  }

  predicate ProperBody(b: BodyLine) {
    && OneLine(BodyText(b))
    && match b
       case Gap(w) => Blank(w)
       case Note(t) =>
         Strip(t) != "" && (StartsWith(t, "#") || (Strip(t)[0] != '[' && (Strip(t)[0] == '#' || '=' !in t)))
       case Pair(l, k, x, y, v, r) =>
         && Blank(l) && Blank(x) && Blank(y) && Blank(r) && Stripped(k) && Stripped(v)
         && '=' !in k && (k != "" ==> k[0] != '#' && k[0] != '[')
  }

  predicate AllProper(body: seq<BodyLine>) {
    forall i :: 0 <= i < |body| ==> ProperBody(body[i])
  }

  predicate ProperHead(h: Heading) {
    && OneLine(HeadText(h))
    && Blank(h.left) && Blank(h.before) && Blank(h.after) && Blank(h.right)
    && Stripped(h.name) && '#' !in h.name && !Quoted(h.name)
    && forall i :: 0 <= i < |h.colons| ==> h.colons[i] == ':'
  }

  predicate ProperParts(ps: seq<Part>) {
    forall i :: 0 <= i < |ps| ==> ProperHead(ps[i].head) && AllProper(ps[i].body)
  }

  /** In front of the first heading there are blank lines and comments only. */
  predicate ProperPreamble(body: seq<BodyLine>) {
    AllProper(body) && forall i :: 0 <= i < |body| ==> body[i].Gap? || (body[i].Note? && StartsWith(body[i].text, "#"))
  }

  /** The entries of a section; of equal keys the last counts. */
  function Told(m: map<string, string>, body: seq<BodyLine>): map<string, string>
    decreases |body|
  {
    if body == [] then m
    else Told(if body[0].Pair? then m[body[0].key := body[0].value] else m, body[1..])
  }

  /** The sections; one that comes again takes the place of the first. */
  function ToldAll(done: Parsed, ps: seq<Part>): Parsed
    decreases |ps|
  {
    if ps == [] then done else ToldAll(Set(done, ps[0].head.name, Told(map[], ps[0].body)), ps[1..])
  }

  // ---------------------------------------------------------------------
  // Stripping
  // ---------------------------------------------------------------------

  lemma {:induction false} TrimLeftPad(a: string, y: string, p: char -> bool)
    requires forall i :: 0 <= i < |a| ==> p(a[i])
    ensures TrimLeft(a + y, p) == TrimLeft(y, p)
  {
    if a == "" {
      assert a + y == y;
    } else {
      assert (a + y)[1..] == a[1..] + y;
      TrimLeftPad(a[1..], y, p);
    }
  }

  lemma {:induction false} TrimRightPad(y: string, b: string, p: char -> bool)
    requires forall i :: 0 <= i < |b| ==> p(b[i])
    ensures TrimRight(y + b, p) == TrimRight(y, p)
  {
    if b == "" {
      assert y + b == y;
    } else {
      var init := b[..|b| - 1];
      assert y + b == y + init + [b[|b| - 1]];
      TrimRightPush(y + init, b[|b| - 1], p);
      TrimRightPad(y, init, p);
    }
  }

  lemma {:induction false} TrimLeftStop(h: string, v: string, p: char -> bool)
    requires v != "" && !p(v[0])
    ensures TrimLeft(h + v, p) == TrimLeft(h, p) + v
  {
    if h == "" {
      assert h + v == v;
    } else {
      assert (h + v)[1..] == h[1..] + v;
      TrimLeftStop(h[1..], v, p);
    }
  }

  lemma {:induction false} TrimRightStop(h: string, v: string, p: char -> bool)
    requires h != "" && !p(h[|h| - 1])
    ensures TrimRight(h + v, p) == h + TrimRight(v, p)
  {
    if v == "" {
      assert h + v == h;
    } else {
      var init, c := v[..|v| - 1], v[|v| - 1];
      assert h + v == h + init + [c] && init + [c] == v;
      TrimRightPush(h + init, c, p);
      TrimRightPush(init, c, p);
      TrimRightStop(h, init, p);
      assert h + (init + [c]) == h + init + [c];
    }
  }

  /** Spaces around a stripped text go. */
  lemma StripPad(a: string, x: string, b: string)
    requires Blank(a) && Stripped(x) && Blank(b)
    ensures Strip(a + x + b) == x
  {
    assert a + x + b == a + (x + b);
    TrimLeftPad(a, x + b, IsSpace);
    if x == "" {
      assert x + b == b && b + "" == b;
      TrimLeftPad(b, "", IsSpace);
    } else {
      TrimRightPad(x, b, IsSpace);
    }
  }

  /** Around a '=' a line is stripped on either side by itself. */
  lemma StripAroundEquals(h: string, v: string)
    ensures Strip(h + ['='] + v) == TrimLeft(h, IsSpace) + ['='] + TrimRight(v, IsSpace)
  {
    var l := TrimLeft(h, IsSpace);
    assert h + ['='] + v == h + (['='] + v);
    TrimLeftStop(h, ['='] + v, IsSpace);
    assert l + (['='] + v) == (l + ['=']) + v;
    TrimRightStop(l + ['='], v, IsSpace);
  }

  lemma {:induction false} TrimsGo(s: string)
    ensures Strip(TrimLeft(s, IsSpace)) == Strip(s)
    ensures Strip(TrimRight(s, IsSpace)) == Strip(s)
  {
    var b := s[|TrimRight(s, IsSpace)|..];
    TrimmedTail(s);
    TrimmedTwice(s);
    assert TrimRight(s, IsSpace) + b == s;
    StripTail(TrimRight(s, IsSpace), b);
  }

  lemma {:induction false} TrimmedTwice(s: string)
    ensures TrimLeft(TrimLeft(s, IsSpace), IsSpace) == TrimLeft(s, IsSpace)
  {
    if s != "" && IsSpace(s[0]) {
      TrimmedTwice(s[1..]);
    }
  }

  lemma {:induction false} TrimmedTail(s: string)
    ensures Blank(s[|TrimRight(s, IsSpace)|..])
  {
    if s != "" && IsSpace(s[|s| - 1]) {
      TrimmedTail(s[..|s| - 1]);
      var n := |TrimRight(s, IsSpace)|;
      assert s[n..] == s[..|s| - 1][n..] + [s[|s| - 1]];
    }
  }

  lemma {:induction false} StripTail(y: string, b: string)
    requires Blank(b)
    ensures Strip(y + b) == Strip(y)
  {
    if y == "" {
      StripPad("", "", b);
      assert "" + "" + b == y + b;
      assert Strip("") == "";
    } else if IsSpace(y[0]) {
      assert (y + b)[1..] == y[1..] + b;
      StripTail(y[1..], b);
    } else {
      TrimRightPad(y, b, IsSpace);
    }
  }

  // ---------------------------------------------------------------------
  // One line
  // ---------------------------------------------------------------------

  lemma BlankHas(w: string, c: char)
    requires Blank(w) && !IsSpace(c)
    ensures c !in w
  {
  }

  lemma KeyBegins(b: BodyLine)
    requires b.Pair? && ProperBody(b)
    ensures var l := TrimLeft(KeyText(b), IsSpace); l != "" ==> l[0] != '#' && l[0] != '['
  {
    var y := b.key + b.before;
    assert KeyText(b) == b.left + y;
    TrimLeftPad(b.left, y, IsSpace);
    if b.key == "" {
      TrimLeftPad(b.before, "", IsSpace);
      assert y == b.before + "";
    } else {
      assert y[0] == b.key[0];
    }
  }

  /** An entry is read as its key and value, and is neither comment nor heading. */
  lemma PairIs(b: BodyLine)
    requires b.Pair? && ProperBody(b)
    ensures
      var t := Strip(BodyText(b));
      t != "" && '=' in t && !StartsWith(t, "#") && !StartsWith(t, "[") && Key(t) == b.key && Value(t) == b.value
  {
    var k, v := KeyText(b), ValueText(b);
    var l, r := TrimLeft(k, IsSpace), TrimRight(v, IsSpace);
    StripAroundEquals(k, v);
    KeyBegins(b);
    BlankHas(b.left, '=');
    BlankHas(b.before, '=');
    TrimLeftHas(k, '=');
    SplitPrefix(l, r, '=');
    JoinSplit(r, '=');
    TrimsGo(k);
    TrimsGo(v);
    StripPad(b.left, b.key, b.before);
    StripPad(b.after, b.value, b.right);
    assert (l + ['='] + r)[|l|] == '=';
  }

  lemma {:induction false} TrimLeftHas(s: string, c: char)
    requires c !in s
    ensures c !in TrimLeft(s, IsSpace)
  {
    if s != "" && IsSpace(s[0]) {
      TrimLeftHas(s[1..], c);
    }
  }

  lemma StripEnd(t: string)
    ensures Strip(t + "\n") == Strip(t)
  {
    StripTail(t, "\n");
  }

  /** The line becomes part of the section's data. */
  predicate Collected(b: BodyLine) {
    b.Pair? || (b.Note? && !StartsWith(b.text, "#"))
  }

  lemma RawBegins(b: BodyLine)
    requires ProperBody(b) && b.Pair?
    ensures !StartsWith(BodyText(b) + "\n", "#")
  {
    var l := BodyText(b) + "\n";
    if b.left != "" {
      assert l[0] == b.left[0];
    } else if b.key != "" {
      assert l[0] == b.key[0];
    } else if b.before != "" {
      assert l[0] == b.before[0];
    } else {
      assert l[0] == '=';
    }
  }

  lemma BlankStrips(w: string)
    requires Blank(w)
    ensures Strip(w) == ""
  {
    StripPad("", "", w);
    assert "" + "" + w == w;
  }

  lemma BodyRead(r: Reader, b: BodyLine)
    requires ProperBody(b) && !r.mode && r.data.Some?
    ensures ReadLine(r, BodyText(b) + "\n")
         == Success(if Collected(b) then r.(data := Some(r.data.value + [BodyText(b) + "\n"])) else r)
  {
    var t := BodyText(b);
    StripEnd(t);
    match b
    case Gap(w) => BlankStrips(w);
    case Note(_) =>
      assert t != "" && (t + "\n")[0] == t[0] by {
        assert t == "" ==> Strip(t) == "";
      }
    case Pair(_, _, _, _, _, _) =>
      PairIs(b);
      RawBegins(b);
  }

  function DataTexts(body: seq<BodyLine>): seq<string> {
    if body == [] then []
    else (if Collected(body[0]) then [BodyText(body[0])] else []) + DataTexts(body[1..])
  }

  lemma {:induction false} EndedAppend(a: seq<string>, b: seq<string>)
    ensures Ended(a + b) == Ended(a) + Ended(b)
  {
  }

  lemma {:induction false} BodyFeeds(r: Reader, body: seq<BodyLine>)
    requires AllProper(body) && !r.mode && r.data.Some?
    ensures Feed(r, Ended(BodyTexts(body))) == Success(r.(data := Some(r.data.value + Ended(DataTexts(body)))))
    decreases |body|
  {
    var data := r.data.value;
    if body == [] {
      assert data + [] == data;
    } else {
      var b, rest := body[0], body[1..];
      var l := BodyText(b) + "\n";
      var here := if Collected(b) then [l] else [];
      assert ProperBody(b);
      BodyRead(r, b);
      var r' := r.(data := Some(data + here));
      assert data + [] == data;
      BodyFeeds(r', rest);
      assert Ended(DataTexts(body)) == here + Ended(DataTexts(rest)) by {
        EndedAppend(if Collected(b) then [BodyText(b)] else [], DataTexts(rest));
        assert Ended([BodyText(b)]) == [l] + Ended([]);
      }
      Assoc(data, here, Ended(DataTexts(rest)));
      assert Ended(BodyTexts(body)) == [l] + Ended(BodyTexts(rest));
    }
  }

  lemma {:induction false} BodyCollects(m: map<string, string>, body: seq<BodyLine>)
    requires AllProper(body)
    ensures Collect(m, DataTexts(body) + [""]) == Told(m, body)
    decreases |body|
  {
    if body == [] {
      assert [] + [""] == [""] && [""][1..] == [] && Strip("") == "";
    } else {
      var b, rest := body[0], body[1..];
      assert ProperBody(b);
      if Collected(b) {
        var pieces := DataTexts(body) + [""];
        assert pieces == [BodyText(b)] + (DataTexts(rest) + [""]);
        assert pieces[1..] == DataTexts(rest) + [""];
        CollectOne(m, b);
      } else {
        assert DataTexts(body) == DataTexts(rest);
      }
      BodyCollects(if b.Pair? then m[b.key := b.value] else m, rest);
    }
  }

  lemma CollectOne(m: map<string, string>, b: BodyLine)
    requires ProperBody(b) && Collected(b)
    ensures
      var t := Strip(BodyText(b));
      (if StartsWith(t, "#") || '=' !in t then m else m[Key(t) := Value(t)])
      == if b.Pair? then m[b.key := b.value] else m
  {
    if b.Pair? {
      PairIs(b);
    } else if '=' !in b.text {
      StripHas(b.text, '=');
    }
  }

  lemma StripHas(s: string, c: char)
    requires c !in s
    ensures c !in Strip(s)
  {
    TrimLeftHas(s, c);
  }

  lemma {:induction false} DataUnbroken(body: seq<BodyLine>)
    requires AllProper(body)
    ensures forall i :: 0 <= i < |DataTexts(body)| ==> '\n' !in DataTexts(body)[i]
  {
    if body != [] {
      DataUnbroken(body[1..]);
      assert ProperBody(body[0]);
    }
  }

  /** The data of a section are its entries. */
  lemma DataTells(body: seq<BodyLine>)
    requires AllProper(body)
    ensures Entries(Concat(Ended(DataTexts(body)))) == Told(map[], body)
  {
    DataUnbroken(body);
    SplitEnded(DataTexts(body));
    BodyCollects(map[], body);
  }

  // ---------------------------------------------------------------------
  // Headings
  // ---------------------------------------------------------------------

  lemma HeadStrips(h: Heading)
    requires ProperHead(h)
    ensures Strip(HeadText(h) + "\n") == Bracketed(h) + h.colons
  {
    var core := Bracketed(h) + h.colons;
    assert core[0] == '[' && (core[|core| - 1] == ']' || core[|core| - 1] == ':');
    StripEnd(HeadText(h));
    StripPad(h.left, core, h.right);
  }

  lemma ColonsGo(h: Heading)
    requires ProperHead(h)
    ensures TrimRight(Bracketed(h) + h.colons, IsColon) == Bracketed(h)
    ensures TrimLeft(Bracketed(h) + h.colons, IsColon) == Bracketed(h) + h.colons
  {
    var t := Bracketed(h);
    TrimRightPad(t, h.colons, IsColon);
    assert t[|t| - 1] == ']';
  }

  /** A heading is recognised, and gives its name. */
  lemma HeadIs(h: Heading)
    requires ProperHead(h)
    ensures
      var l, t := HeadText(h) + "\n", Bracketed(h) + h.colons;
      && Strip(l) == t && !StartsWith(l, "#") && IsHeader(t) && EndOfHeader(t)
      && SectionName(l) == h.name && !Quoted(l)
  {
    var l, t := HeadText(h) + "\n", Bracketed(h) + h.colons;
    HeadStrips(h);
    ColonsGo(h);
    HeadHasNo(h);
    SplitAbsent(t, '#');
    assert Stripped(t);
    StripIsStripped(t);
    assert t[0] == '[';
    var b := Bracketed(h);
    assert b[1..|b| - 1] == h.before + h.name + h.after;
    StripPad(h.before, h.name, h.after);
    assert l[0] == if h.left == "" then '[' else h.left[0];
  }

  lemma HeadHasNo(h: Heading)
    requires ProperHead(h)
    ensures '#' !in Bracketed(h) + h.colons && !Quoted(HeadText(h) + "\n")
  {
    BlankHas(h.before, '#');
    BlankHas(h.after, '#');
    NoQuotes(h.left);
    NoQuotes(h.before);
    NoQuotes(h.after);
    NoQuotes(h.right);
  }

  lemma NoQuotes(w: string)
    requires Blank(w)
    ensures !Quoted(w)
  {
    BlankHas(w, '"');
    BlankHas(w, '\'');
  }

  /**
   * A comment behind a heading, here with all of the line up to its '#' as
   * `h`, does not keep the heading from being recognised, but becomes part of
   * the name: the section is never found under its own.
   */
  lemma CommentSpoilsHeading(n: string, h: string, rest: string)
    requires Stripped(n) && "[" + n + "]" <= h && |h| > |n| + 2 && h[|h| - 1] == '#'
    ensures SectionName(h + rest) != n
  {
    var t := UpToHash(h, rest);
    NameInside(n, h, t);
    InsideSpoiled(n, t[1..|t| - 1]);
  }

  lemma UpToHash(h: string, v: string) returns (t: string)
    requires h != "" && h[0] == '[' && h[|h| - 1] == '#'
    ensures t == TrimRight(TrimLeft(Strip(h + v), IsColon), IsColon) && h <= t
  {
    TrimRightStop(h, v, IsSpace);
    var u := TrimRight(v, IsSpace);
    assert Strip(h + v) == h + u;
    TrimRightStop(h, u, IsColon);
    t := h + TrimRight(u, IsColon);
  }

  lemma NameInside(n: string, h: string, t: string)
    requires "[" + n + "]" <= h <= t && |h| > |n| + 2
    ensures n + "]" <= t[1..|t| - 1]
  {
    var m := "[" + n + "]";
    assert m[1..] == n + "]";
    forall i | 0 <= i <= |n| ensures t[1..|t| - 1][i] == m[1..][i] {
      assert t[i + 1] == h[i + 1] == m[i + 1];
    }
  }

  lemma InsideSpoiled(n: string, x: string)
    requires Stripped(n) && n + "]" <= x
    ensures Strip(x) != n
  {
    var m, rest := n + "]", x[|n| + 1..];
    assert x == m + rest && x[0] == m[0];
    TrimRightStop(m, rest, IsSpace);
  }

  lemma HeadRead(r: Reader, h: Heading, done: Parsed)
    requires ProperHead(h) && Flush(r) == Success(done)
    ensures ReadLine(r, HeadText(h) + "\n") == Success(Reader(done, [HeadText(h) + "\n"], Some([]), false))
  {
    HeadIs(h);
  }

  lemma HeadFlush(r: Reader, h: Heading)
    requires ProperHead(h) && r.heads == [HeadText(h) + "\n"] && r.data.Some?
    ensures Flush(r) == Success(Set(r.done, h.name, Entries(Concat(r.data.value))))
  {
    var l := HeadText(h) + "\n";
    HeadIs(h);
    assert [l][1..] == [] && l + "" == l;
    assert Concat([l]) == l;
  }

  // ---------------------------------------------------------------------
  // A whole file
  // ---------------------------------------------------------------------

  lemma PartFeeds(r: Reader, p: Part, done: Parsed) returns (r': Reader)
    requires ProperHead(p.head) && AllProper(p.body) && Flush(r) == Success(done)
    ensures Feed(r, PartLines(p)) == Success(r')
    ensures Flush(r') == Success(Set(done, p.head.name, Told(map[], p.body)))
  {
    var l := HeadText(p.head) + "\n";
    var r1 := Reader(done, [l], Some([]), false);
    HeadRead(r, p.head, done);
    FeedOne(r, l);
    BodyFeeds(r1, p.body);
    FeedAppend(r, [l], Ended(BodyTexts(p.body)));
    assert [] + Ended(DataTexts(p.body)) == Ended(DataTexts(p.body));
    r' := r1.(data := Some(Ended(DataTexts(p.body))));
    HeadFlush(r', p.head);
    DataTells(p.body);
  }

  lemma {:induction false} PartsFeed(r: Reader, ps: seq<Part>, done: Parsed)
    requires ProperParts(ps) && Flush(r) == Success(done)
    ensures Finish(Feed(r, PartsLines(ps))) == Success(ToldAll(done, ps))
    decreases |ps|
  {
    if ps != [] {
      var p, rest := ps[0], ps[1..];
      assert ProperHead(p.head) && AllProper(p.body);
      var r' := PartFeeds(r, p, done);
      FeedAppend(r, PartLines(p), PartsLines(rest));
      PartsFeed(r', rest, Set(done, p.head.name, Told(map[], p.body)));
    }
  }

  lemma {:induction false} PreambleFeeds(body: seq<BodyLine>)
    requires ProperPreamble(body)
    ensures Feed(START, Ended(BodyTexts(body))) == Success(START)
    decreases |body|
  {
    if body != [] {
      var b := body[0];
      var l := BodyText(b) + "\n";
      assert ProperBody(b) && (b.Gap? || StartsWith(b.text, "#"));
      StripEnd(BodyText(b));
      if b.Gap? {
        BlankStrips(b.space);
      } else {
        assert l[0] == b.text[0];
      }
      PreambleFeeds(body[1..]);
      assert Ended(BodyTexts(body)) == [l] + Ended(BodyTexts(body[1..]));
    }
  }

  /** The lines of a file in any spelling. */
  function FileText(preamble: seq<BodyLine>, ps: seq<Part>): string {
    Concat(Ended(BodyTexts(preamble)) + PartsLines(ps))
  }

  lemma {:induction false} EndedLines(ls: seq<string>)
    requires forall i :: 0 <= i < |ls| ==> OneLine(ls[i])
    ensures AllTerminated(Ended(ls)) && forall i :: 0 <= i < |ls| ==> '\r' !in Ended(ls)[i]
  {
    forall i | 0 <= i < |ls| ensures Terminated(Ended(ls)[i]) && '\r' !in Ended(ls)[i] {
      assert (ls[i] + "\n")[..|ls[i]|] == ls[i];
    }
  }

  predicate GoodLines(ls: seq<Line>) {
    AllTerminated(ls) && forall i :: 0 <= i < |ls| ==> '\r' !in ls[i]
  }

  lemma BodyLines(body: seq<BodyLine>)
    requires AllProper(body)
    ensures GoodLines(Ended(BodyTexts(body)))
  {
    forall i | 0 <= i < |body| ensures OneLine(BodyTexts(body)[i]) {
      assert ProperBody(body[i]);
    }
    EndedLines(BodyTexts(body));
  }

  lemma {:induction false} PartsLinesGood(ps: seq<Part>)
    requires ProperParts(ps)
    ensures GoodLines(PartsLines(ps))
  {
    if ps != [] {
      var p := ps[0];
      assert ProperHead(p.head) && AllProper(p.body);
      BodyLines(p.body);
      EndedLines([HeadText(p.head)]);
      assert Ended([HeadText(p.head)]) == [HeadText(p.head) + "\n"];
      PartsLinesGood(ps[1..]);
    }
  }

  /**
   * Reading a file gives its sections in order with their keys and values,
   * whatever spaces, blank lines and comments there are: a section that comes
   * again replaces the first, and a key that comes again its first value.
   */
  lemma SpelledIsRead(preamble: seq<BodyLine>, ps: seq<Part>)
    requires ProperPreamble(preamble) && ProperParts(ps)
    ensures ReadText(FileText(preamble, ps)) == Success(ToldAll([], ps))
  {
    var a, b := Ended(BodyTexts(preamble)), PartsLines(ps);
    BodyLines(preamble);
    PartsLinesGood(ps);
    NoReturns(a + b);
    UniversalIdentity(Concat(a + b));
    LinesOfText(a + b);
    PreambleFeeds(preamble);
    FeedAppend(START, a, b);
    PartsFeed(START, ps, []);
  }

  /** However a line ends, reading sees a newline; "\r" and a newline behind it are one end. */
  lemma {:induction false} AnyLineEnd(l: string, rest: string)
    requires OneLine(l)
    ensures UniversalNewlines(l + "\n" + rest) == l + "\n" + UniversalNewlines(rest)
    ensures UniversalNewlines(l + "\r\n" + rest) == l + "\n" + UniversalNewlines(rest)
    ensures rest == "" || rest[0] != '\n' ==>
      UniversalNewlines(l + "\r" + rest) == l + "\n" + UniversalNewlines(rest)
  {
    if l == "" {
      assert ("\n" + rest)[1..] == rest && ("\r" + rest)[1..] == rest && ("\r\n" + rest)[2..] == rest;
      assert l + "\n" + rest == "\n" + rest && l + "\r\n" + rest == "\r\n" + rest && l + "\r" + rest == "\r" + rest;
      assert l + "\n" + UniversalNewlines(rest) == "\n" + UniversalNewlines(rest);
    } else {
      AnyLineEnd(l[1..], rest);
      BehindFirst(l, "\n", rest);
      BehindFirst(l, "\r\n", rest);
      BehindFirst(l, "\r", rest);
      assert [l[0]] + (l[1..] + "\n" + UniversalNewlines(rest)) == l + "\n" + UniversalNewlines(rest);
    }
  }

  lemma BehindFirst(l: string, end: string, rest: string)
    requires l != "" && l[0] != '\r'
    ensures UniversalNewlines(l + end + rest) == [l[0]] + UniversalNewlines(l[1..] + end + rest)
  {
    assert (l + end + rest)[1..] == l[1..] + end + rest;
  }
}
