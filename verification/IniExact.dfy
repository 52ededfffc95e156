/** Reading an INI file gives back what was written only if nothing is taken for something else. */
module IniExact {
  import Dicts
  import opened IniFiles
  import opened IniRoundTrip
  import opened Strings
  import opened TextFiles
  import opened Wrappers

  // ---------------------------------------------------------------------
  // Where keys, values and names that are read come from
  // ---------------------------------------------------------------------

  predicate IsData(l: Line) {
    !StartsWith(l, "#") && !IsHeader(Strip(l))
  }

  predicate GivesPair(l: Line, k: string, v: string) {
    '=' in Strip(l) && k == Key(Strip(l)) && v == Value(Strip(l))
  }

  ghost predicate MapFrom(lines: seq<Line>, m: map<string, string>) {
    forall k :: k in m ==> exists l :: l in lines && IsData(l) && GivesPair(l, k, m[k])
  }

  predicate GivesName(l: Line, n: string, m: map<string, string>) {
    IsHeader(Strip(l)) && !Quoted(l) && SectionName(l) == n && (EndOfHeader(Strip(l)) || m == map[])
  }

  ghost predicate NameFrom(lines: seq<Line>, n: string, m: map<string, string>) {
    exists l :: l in lines && GivesName(l, n, m)
  }

  ghost predicate DoneFrom(lines: seq<Line>, done: Parsed) {
    forall i :: 0 <= i < |done| ==> NameFrom(lines, done[i].0, done[i].1) && MapFrom(lines, done[i].1)
  }

  ghost predicate DataFrom(lines: seq<Line>, data: seq<Line>) {
    forall i :: 0 <= i < |data| ==> data[i] in lines && IsData(data[i])
  }

  ghost predicate ReaderFrom(lines: seq<Line>, r: Reader) {
    && DoneFrom(lines, r.done)
    && (r.data.Some? ==>
          && DataFrom(lines, r.data.value)
          && r.heads != [] && r.heads[0] in lines && IsHeader(Strip(r.heads[0]))
          && (r.mode ==> r.data.value == [])
          && (|r.heads| == 1 && !r.mode ==> EndOfHeader(Strip(r.heads[0]))))
  }

  lemma {:induction false} SpaceTail(l: string)
    ensures TrimLeft(l + "\n", IsSpace) == if TrimLeft(l, IsSpace) == "" then "" else TrimLeft(l, IsSpace) + "\n"
  {
    var s := l + "\n";
    if l == "" {
      assert s[1..] == "" && IsSpace(s[0]);
      assert TrimLeft(s, IsSpace) == TrimLeft(s[1..], IsSpace);
    } else {
      SpaceTail(l[1..]);
      assert s[1..] == l[1..] + "\n" && s[0] == l[0];
    }
  }

  lemma StripEnded(l: string)
    ensures Strip(l + "\n") == Strip(l)
  {
    SpaceTail(l);
    var t := TrimLeft(l, IsSpace);
    if t != "" {
      TrimRightPush(t, '\n', IsSpace);
    }
  }

  function Chopped(lines: seq<Line>): (r: seq<string>)
    ensures |r| == |lines|
  {
    if lines == [] then []
    else [if lines[0] == "" then "" else lines[0][..|lines[0]| - 1]] + Chopped(lines[1..])
  }

  lemma {:induction false} EndedChopped(lines: seq<Line>)
    requires AllTerminated(lines)
    ensures Ended(Chopped(lines)) == lines
    ensures forall i :: 0 <= i < |lines| ==> '\n' !in Chopped(lines)[i]
  {
    if lines != [] {
      assert Terminated(lines[0]);
      EndedChopped(lines[1..]);
      var l := lines[0];
      assert l == l[..|l| - 1] + "\n";
      assert Ended(Chopped(lines)) == [l] + Ended(Chopped(lines[1..]));
    }
  }

  /** Some line of `ls` gives this pair. */
  ghost predicate PairIn(ls: seq<string>, k: string, v: string) {
    exists i :: 0 <= i < |ls| && GivesPair(ls[i] + "\n", k, v)
  }

  lemma PairInRest(ls: seq<string>, k: string, v: string)
    requires ls != [] && PairIn(ls[1..], k, v)
    ensures PairIn(ls, k, v)
  {
    var i :| 0 <= i < |ls| - 1 && GivesPair(ls[1..][i] + "\n", k, v);
    assert ls[i + 1] == ls[1..][i];
  }

  lemma {:induction false} CollectFrom(m: map<string, string>, ls: seq<string>, k: string)
    requires k in Collect(m, ls + [""])
    ensures var v := Collect(m, ls + [""])[k]; (k in m && m[k] == v) || PairIn(ls, k, v)
    decreases |ls|
  {
    if ls == [] {
      assert [""][1..] == [];
      assert Strip("") == "";
    } else {
      assert (ls + [""])[1..] == ls[1..] + [""];
      var t := Strip(ls[0]);
      var m' := if StartsWith(t, "#") || '=' !in t then m else m[Key(t) := Value(t)];
      CollectFrom(m', ls[1..], k);
      var v := Collect(m', ls[1..] + [""])[k];
      if k in m' && m'[k] == v {
        StripEnded(ls[0]);
        assert '=' in t && k == Key(t) && v == Value(t) ==> GivesPair(ls[0] + "\n", k, v);
      } else {
        PairInRest(ls, k, v);
      }
    }
  }

  lemma EntriesFrom(lines: seq<Line>, data: seq<Line>)
    requires AllTerminated(data) && DataFrom(lines, data)
    ensures MapFrom(lines, Entries(Concat(data)))
    ensures data == [] ==> Entries(Concat(data)) == map[]
  {
    var ls := Chopped(data);
    EndedChopped(data);
    SplitEnded(ls);
    var m := Entries(Concat(data));
    assert m == Collect(map[], ls + [""]);
    forall k | k in m ensures exists l :: l in lines && IsData(l) && GivesPair(l, k, m[k]) {
      CollectFrom(map[], ls, k);
      var i :| 0 <= i < |ls| && GivesPair(ls[i] + "\n", k, m[k]);
      assert data[i] == ls[i] + "\n";
    }
    if data == [] {
      forall k | k in m ensures false {
        CollectFrom(map[], ls, k);
      }
    }
  }

  lemma SetFrom(lines: seq<Line>, done: Parsed, n: string, m: map<string, string>)
    requires DoneFrom(lines, done) && NameFrom(lines, n, m) && MapFrom(lines, m)
    ensures DoneFrom(lines, Dicts.Set(done, n, m))
  {
    forall i | 0 <= i < |Dicts.Set(done, n, m)|
      ensures NameFrom(lines, Dicts.Set(done, n, m)[i].0, Dicts.Set(done, n, m)[i].1) && MapFrom(lines, Dicts.Set(done, n, m)[i].1)
    {
      Dicts.SetAt(done, n, m, i);
    }
  }

  lemma FlushFrom(lines: seq<Line>, r: Reader)
    requires AllTerminated(lines) && ReaderFrom(lines, r) && Flush(r).Success?
    ensures DoneFrom(lines, Flush(r).value)
  {
    if r.heads != [] {
      var h, data := r.heads[0], r.data.value;
      var m := Entries(Concat(data));
      assert Concat(r.heads) == h by {
        assert r.heads == [h] && [h][1..] == [];
      }
      EntriesFrom(lines, data);
      assert GivesName(h, SectionName(h), m);
      SetFrom(lines, r.done, SectionName(h), m);
    }
  }

  lemma LineFrom(lines: seq<Line>, r: Reader, l: Line)
    requires AllTerminated(lines) && ReaderFrom(lines, r) && l in lines && ReadLine(r, l).Success?
    ensures ReaderFrom(lines, ReadLine(r, l).value)
  {
    if IsHeader(Strip(l)) && Flush(r).Success? {
      FlushFrom(lines, r);
    }
  }

  lemma {:induction false} FeedFrom(lines: seq<Line>, r: Reader, rest: seq<Line>)
    requires AllTerminated(lines) && ReaderFrom(lines, r) && Feed(r, rest).Success?
    requires forall i :: 0 <= i < |rest| ==> rest[i] in lines
    ensures ReaderFrom(lines, Feed(r, rest).value)
    decreases |rest|
  {
    if rest != [] {
      LineFrom(lines, r, rest[0]);
      FeedFrom(lines, ReadLine(r, rest[0]).value, rest[1..]);
    }
  }

  // ---------------------------------------------------------------------
  // Spaces around '=' do not make or unmake a heading
  // ---------------------------------------------------------------------

  lemma {:induction false} TrimRightParts(s: string, p: char -> bool) returns (b: string)
    ensures s == TrimRight(s, p) + b
    ensures forall i :: 0 <= i < |b| ==> p(b[i])
  {
    if s != "" && p(s[|s| - 1]) {
      b := TrimRightParts(s[..|s| - 1], p);
      b := b + [s[|s| - 1]];
    } else {
      b := "";
    }
  }

  lemma {:induction false} TrimLeftParts(s: string, p: char -> bool) returns (a: string)
    ensures s == a + TrimLeft(s, p)
    ensures forall i :: 0 <= i < |a| ==> p(a[i])
  {
    if s != "" && p(s[0]) {
      a := TrimLeftParts(s[1..], p);
      a := [s[0]] + a;
    } else {
      a := "";
    }
  }

  lemma {:induction false} TrimRightAppend(a: string, u: string, p: char -> bool)
    ensures TrimRight(a + u, p) == if TrimRight(u, p) == "" then TrimRight(a, p) else a + TrimRight(u, p)
    decreases |u|
  {
    if u == "" {
      assert a + u == a;
    } else {
      var init, c := u[..|u| - 1], u[|u| - 1];
      TrimRightAppend(a, init, p);
      TrimRightPush(init, c, p);
      TrimRightPush(a + init, c, p);
      assert u == init + [c];
      Assoc(a, init, [c]);
    }
  }

  /** What decides whether a line ending in `u` is the end of a heading. */
  function Core(u: string): string {
    TrimRight(TrimRight(u, IsSpace), IsColon)
  }

  lemma StripFront(a: string, u: string)
    requires a != "" && !IsSpace(a[0]) && !IsSpace(a[|a| - 1])
    ensures Strip(a + u) == a + TrimRight(u, IsSpace)
  {
    assert TrimLeft(a + u, IsSpace) == a + u;
    TrimRightAppend(a, u, IsSpace);
  }

  /** Behind a part that ends in '=', only what follows it decides. */
  lemma EndBehind(k: string, mid: string, v: string)
    requires k != "" && !IsSpace(k[0]) && '#' !in k && '#' !in mid
    ensures
      var c := Core(Split(v, '#')[0]);
      EndOfHeader(k + (mid + v)) <== c != "" && c[|c| - 1] == ']'
  {
    var u := Split(v, '#')[0];
    var a := k + mid;
    assert k + (mid + v) == a + v;
    SplitAfter(a, v, '#');
    TrimRightAppend(a, u, IsSpace);
    assert TrimLeft(a + u, IsSpace) == a + u;
    TrimRightAppend(a, TrimRight(u, IsSpace), IsColon);
  }

  lemma EndOfEntry(k: string, v: string)
    requires k != "" && !IsSpace(k[0]) && '#' !in k && EndOfHeader(k + "=" + v)
    ensures
      var c := Core(Split(v, '#')[0]);
      c != "" && c[|c| - 1] == ']'
  {
    var u, a := Split(v, '#')[0], k + "=";
    SplitAfter(a, v, '#');
    EndOfRest(a, u);
  }

  /** Nothing is trimmed off a part that ends in neither a space nor a colon nor ']'. */
  lemma EndOfRest(a: string, u: string)
    requires a != "" && !IsSpace(a[0]) && a[|a| - 1] == '='
    ensures
      var h, c := TrimRight(Strip(a + u), IsColon), Core(u);
      h != "" && h[|h| - 1] == ']' ==> c != "" && c[|c| - 1] == ']'
  {
    StripFront(a, u);
    TrimRightAppend(a, TrimRight(u, IsSpace), IsColon);
    assert TrimRight(a, IsColon) == a;
  }

  lemma EndStays(k: string, mid: string, v: string)
    requires k != "" && !IsSpace(k[0]) && '#' !in mid
    requires EndOfHeader(k + "=" + v)
    ensures EndOfHeader(k + (mid + v))
  {
    if '#' in k {
      SplitHead(k, mid + v, '#');
      SplitHead(k, "=" + v, '#');
      assert k + ("=" + v) == k + "=" + v;
    } else {
      EndOfEntry(k, v);
      EndBehind(k, mid, v);
    }
  }

  lemma HeaderStays(k: string, mid: string, v: string)
    requires Stripped(k) && '#' !in mid && mid != ""
    requires IsHeader(k + "=" + v)
    ensures IsHeader(k + (mid + v))
  {
    var s, t := k + "=" + v, k + (mid + v);
    assert s[0] == '[';
    assert k != "" && k[0] == '[';
    assert t[0] == '[';
    if |k| >= 2 {
      assert s[1] == k[1] && t[1] == k[1];
    } else {
      assert s[1] == '=';
    }
    if EndOfHeader(s) {
      EndStays(k, mid, v);
    }
  }

  /** A stripped line with '=' is its key, some spaces with an '=' among them, and its value. */
  lemma PairParts(t: string) returns (mid: string)
    requires Stripped(t) && '=' in t
    ensures t == Key(t) + (mid + Value(t)) && '#' !in mid && mid != ""
  {
    var before, after := Split(t, '=')[0], Join(Split(t, '=')[1..], '=');
    SplitsOff(t, '=');
    assert before != "" ==> before[0] == t[0];
    var b := FrontParts(before);
    assert after != "" ==> after[|after| - 1] == t[|t| - 1];
    var a := BackParts(after);
    mid := b + "=" + a;
    Regroup(Strip(before), b, a, Strip(after));
  }

  lemma Regroup(k: string, b: string, a: string, v: string)
    ensures (k + b) + "=" + (a + v) == k + ((b + "=" + a) + v)
  {
  }

  lemma FrontParts(s: string) returns (b: string)
    requires s == "" || !IsSpace(s[0])
    ensures s == Strip(s) + b && '#' !in b
  {
    b := TrimRightParts(s, IsSpace);
  }

  lemma BackParts(s: string) returns (a: string)
    requires s == "" || !IsSpace(s[|s| - 1])
    ensures s == a + Strip(s) && '#' !in a
  {
    a := TrimLeftParts(s, IsSpace);
  }

  lemma SplitsOff(t: string, sep: char)
    requires sep in t
    ensures t == Split(t, sep)[0] + [sep] + Join(Split(t, sep)[1..], sep)
  {
    JoinSplit(t, sep);
  }

  // ---------------------------------------------------------------------
  // Only what is kept comes back
  // ---------------------------------------------------------------------

  lemma EntriesStripped(le: EntryOrder, d: Ini, i: nat, j: nat)
    requires Storable(d) && i < |d| && j < |d[i].1|
    requires DoneFrom(FileLines(le, d), Maps(d))
    ensures exists l :: l in FileLines(le, d) && IsData(l) && GivesPair(l, d[i].1[j].0, d[i].1[j].1)
    ensures Stripped(d[i].1[j].0) && Stripped(d[i].1[j].1)
  {
    var es := d[i].1;
    AsMapHas(es, j);
    assert Maps(d)[i] == (d[i].0, AsMap(es));
    assert MapFrom(FileLines(le, d), AsMap(es));
    var l :| l in FileLines(le, d) && IsData(l) && GivesPair(l, es[j].0, es[j].1);
    StripIsStripped(Split(Strip(l), '=')[0]);
    StripIsStripped(Join(Split(Strip(l), '=')[1..], '='));
  }

  /** An entry that was read from a heading that was not taken for one. */
  lemma PairFromHeader(n: string, e: Entry)
    requires Stripped(n) && Stripped(e.0) && IsData(Header(n)) && GivesPair(Header(n), e.0, e.1)
    ensures !IsHeader(EntryLine(e)) && !StartsWith(e.0, "#")
  {
    HeaderLine(n);
    var t := "[" + n + "]";
    var mid := PairParts(t);
    assert t[0] == '[';
    if IsHeader(EntryLine(e)) {
      HeaderStays(e.0, mid, e.1);
    }
  }

  lemma PairFromEntry(o: Entry, e: Entry)
    requires StorableEntry(o) && Stripped(o.0) && Stripped(o.1)
    requires IsData(EntryLine(o) + "\n") && GivesPair(EntryLine(o) + "\n", e.0, e.1)
    ensures o == e && !IsHeader(EntryLine(e)) && !StartsWith(e.0, "#")
  {
    EntryStripped(o);
    StripLine(EntryLine(o));
    EntryParts(o);
    StripIsStripped(o.0);
    StripIsStripped(o.1);
    assert (EntryLine(o) + "\n")[0] == EntryLine(o)[0];
  }

  lemma BlankGivesNothing(k: string, v: string)
    ensures !GivesPair("\n", k, v) && !IsHeader(Strip("\n"))
  {
    StripLine("");
    assert "" + "\n" == "\n";
  }

  ghost predicate AllStripped(d: Ini) {
    && Writable(d)
    && forall i, j :: 0 <= i < |d| && 0 <= j < |d[i].1| ==> Stripped(d[i].1[j].0) && Stripped(d[i].1[j].1)
  }

  lemma EntryIsKept(d: Ini, e: Entry, l: Line)
    requires Storable(d) && AllStripped(d) && IsLineOf(d, l)
    requires Stripped(e.0) && Stripped(e.1) && IsData(l) && GivesPair(l, e.0, e.1)
    ensures EntryKept(e)
  {
    if l == "\n" {
      BlankGivesNothing(e.0, e.1);
    } else if i :| 0 <= i < |d| && l == Header(d[i].0) {
      StripIsStripped(d[i].0);
      PairFromHeader(d[i].0, e);
    } else {
      var i, j :| 0 <= i < |d| && 0 <= j < |d[i].1| && l == EntryLine(d[i].1[j]) + "\n";
      assert StorableEntry(d[i].1[j]);
      PairFromEntry(d[i].1[j], e);
    }
  }

  lemma NameFound(n: string, m: map<string, string>, es: Section)
    requires Stripped(n) && Dicts.Distinct(es) && m == AsMap(es) && GivesName(Header(n), n, m)
    ensures NameKept(n, es)
  {
    HeaderLine(n);
    var t := "[" + n + "]";
    assert Quoted(n) ==> Quoted(Header(n));
    if !EndOfHeader(t) {
      if es != [] {
        AsMapHas(es, 0);
      }
      assert t[0] == '[';
      if n != "" {
        assert t[1] == n[0];
      }
    }
  }

  lemma NameIsKept(d: Ini, i: nat, l: Line)
    requires Storable(d) && AllStripped(d) && i < |d| && IsLineOf(d, l)
    requires forall h :: 0 <= h < |d| ==> SectionKept(d[h].1)
    requires GivesName(l, d[i].0, AsMap(d[i].1))
    ensures NameKept(d[i].0, d[i].1)
  {
    if l == "\n" {
      BlankGivesNothing("", "");
    } else if h :| 0 <= h < |d| && l == Header(d[h].0) {
      StripIsStripped(d[h].0);
      HeaderLine(d[h].0);
      NameFound(d[i].0, AsMap(d[i].1), d[i].1);
    } else {
      var h, j :| 0 <= h < |d| && 0 <= j < |d[h].1| && l == EntryLine(d[h].1[j]) + "\n";
      assert SectionKept(d[h].1);
      EntryStripped(d[h].1[j]);
      StripLine(EntryLine(d[h].1[j]));
    }
  }

  lemma DoneIsKept(le: EntryOrder, d: Ini)
    requires Storable(d) && Writable(d) && DoneFrom(FileLines(le, d), Maps(d))
    ensures Kept(d)
  {
    var lines := FileLines(le, d);
    LinesBack(le, d);
    forall i, j | 0 <= i < |d| && 0 <= j < |d[i].1| ensures Stripped(d[i].1[j].0) && Stripped(d[i].1[j].1) {
      EntriesStripped(le, d, i, j);
    }
    forall i, j | 0 <= i < |d| && 0 <= j < |d[i].1| ensures EntryKept(d[i].1[j]) {
      EntriesStripped(le, d, i, j);
      var l :| l in lines && IsData(l) && GivesPair(l, d[i].1[j].0, d[i].1[j].1);
      EntryIsKept(d, d[i].1[j], l);
    }
    forall i | 0 <= i < |d| ensures NameKept(d[i].0, d[i].1) {
      assert Maps(d)[i] == (d[i].0, AsMap(d[i].1));
      var l :| l in lines && GivesName(l, d[i].0, AsMap(d[i].1));
      NameIsKept(d, i, l);
    }
  }

  /**
   * For sections, keys and values without line breaks, and keys without '=':
   * what is written can be read back, without evaluating anything, as the
   * same sections in order with the same keys and values, if and only if
   * everything is stripped, no name contains a quote, every heading is
   * recognised as one and no entry starts with '#' or is taken for a heading.
   */
  lemma RoundTripIff(le: EntryOrder, d: Ini)
    requires Storable(d)
    ensures
      WriteFrom(le, "", d).Success? && ReadText(WriteFrom(le, "", d).value) == Success(Maps(d))
      <==> Kept(d)
  {
    if Kept(d) {
      KeptIsRead(le, d);
    } else {
      WriteFromText(le, "", d);
      if Writable(d) {
        var lines := FileLines(le, d);
        assert "" + Concat(lines) == Concat(lines);
        LinesBack(le, d);
        if ReadText(Concat(lines)) == Success(Maps(d)) {
          FeedFrom(lines, START, lines);
          FlushFrom(lines, Feed(START, lines).value);
          DoneIsKept(le, d);
        }
      }
    }
  }

  /** Names without '#' and keys that start with neither '#' nor '[' are never mistaken. */
  lemma PlainIsKept(n: string, e: Entry)
    ensures Stripped(n) && !Quoted(n) && '#' !in n ==> NameKept(n, [e])
    ensures Stripped(e.0) && Stripped(e.1) && e.0 != "" && e.0[0] != '#' && e.0[0] != '[' ==> EntryKept(e)
  {
    var t := "[" + n + "]";
    assert e.0 != "" ==> EntryLine(e)[0] == e.0[0];
    if '#' !in n {
      SplitAbsent(t, '#');
      assert Strip(t) == t && TrimRight(t, IsColon) == t;
    }
  }

  /** What is written, and is not kept, is not read back as it was. */
  lemma NotKeptIsLost(le: EntryOrder, d: Ini)
    requires Storable(d) && Writable(d) && !Kept(d)
    ensures WriteFrom(le, "", d).Success? && ReadText(WriteFrom(le, "", d).value) != Success(Maps(d))
  {
    WriteFromText(le, "", d);
    RoundTripIff(le, d);
  }

  /** The section name "a#b" is written and lost, although nothing documented excludes it. */
  lemma HashNameIsLost(le: EntryOrder)
    ensures
      var d := [("a#b", [])];
      WriteFrom(le, "", d).Success? && ReadText(WriteFrom(le, "", d).value) != Success(Maps(d))
  {
    var d: Ini := [("a#b", [])];
    assert '\n' !in "a#b" && '\r' !in "a#b";
    assert d[0].1 == [];
    BeforeHash();
    StripIsStripped("a#b");
    assert !NameKept(d[0].0, d[0].1);
    NotKeptIsLost(le, d);
  }

  lemma BeforeHash()
    ensures !EndOfHeader("[" + "a#b" + "]") && !StartsWith("a#b", "#")
  {
    SplitPrefix("[a", "b]", '#');
    assert "[" + "a#b" + "]" == "[a" + ['#'] + "b]";
    StripIsStripped("[a");
    assert TrimRight("[a", IsColon) == "[a";
  }

  lemma BracketedNotKept()
    ensures StorableEntry(("[x", "y]")) && !EntryKept(("[x", "y]"))
  {
    var l := EntryLine(("[x", "y]"));
    assert l == "[x=y]";
    SplitAbsent(l, '#');
    StripIsStripped(l);
    assert TrimRight(l, IsColon) == l;
    assert l[0] == '[';
  }

  /** So is the entry "[x" with the value "y]": its line reads as a heading. */
  lemma BracketedEntryIsLost(le: EntryOrder)
    ensures
      var d := [("s", [("[x", "y]")])];
      WriteFrom(le, "", d).Success? && ReadText(WriteFrom(le, "", d).value) != Success(Maps(d))
  {
    var d: Ini := [("s", [("[x", "y]")])];
    BracketedNotKept();
    assert '\n' !in "s" && '\r' !in "s";
    var es := d[0].1;
    assert es == [("[x", "y]")] && StorableEntry(es[0]) && !EntryKept(es[0]);
    assert StorableSection(es);
    StripIsStripped("s");
    NotKeptIsLost(le, d);
  }
}
