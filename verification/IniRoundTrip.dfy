/** When reading an INI file gives back what was written. */
module IniRoundTrip {
  import opened Dicts
  import opened IniFiles
  import opened StableSort
  import opened Strings
  import opened TextFiles
  import opened Wrappers

  type EntryOrder = (Entry, Entry) -> bool

  predicate OneLine(s: string) {
    '\n' !in s && '\r' !in s
  }

  /** What the format is documented to hold: no line breaks, no '=' in keys. */
  predicate Storable(d: Ini) {
    && Distinct(d)
    && forall i :: 0 <= i < |d| ==> OneLine(d[i].0) && StorableSection(d[i].1)
  }

  predicate StorableEntry(e: Entry) {
    OneLine(e.0) && OneLine(e.1) && '=' !in e.0
  }

  predicate StorableSection(es: Section) {
    Distinct(es) && forall j :: 0 <= j < |es| ==> StorableEntry(es[j])
  }

  // ---------------------------------------------------------------------
  // The lines of the file
  // ---------------------------------------------------------------------

  function Ended(ls: seq<string>): (r: seq<Line>)
    ensures |r| == |ls|
    ensures forall i :: 0 <= i < |ls| ==> r[i] == ls[i] + "\n"
  {
    if ls == [] then [] else [ls[0] + "\n"] + Ended(ls[1..])
  }

  function Header(n: string): Line {
    "[" + n + "]\n"
  }

  /** The data lines, or the blank line that stands for none, and a blank line. */
  function SectionLines(le: EntryOrder, n: string, es: Section): seq<Line> {
    var ls := Ended(EntryLines(Sort(le, es)));
    [Header(n)] + ((if ls == [] then ["\n"] else ls) + ["\n"])
  }

  function FileLines(le: EntryOrder, d: Ini): seq<Line> {
    if d == [] then [] else SectionLines(le, d[0].0, d[0].1) + FileLines(le, d[1..])
  }

  lemma {:induction false} JoinEnded(ls: seq<string>)
    requires ls != []
    ensures Concat(Ended(ls)) == Join(ls, '\n') + "\n"
  {
    if |ls| == 1 {
      assert Ended(ls)[1..] == [];
    } else {
      JoinEnded(ls[1..]);
      assert Ended(ls)[1..] == Ended(ls[1..]);
      var rest := Join(ls[1..], '\n');
      assert ls[0] + "\n" + (rest + "\n") == ls[0] + "\n" + rest + "\n";
    }
  }

  lemma SectionText(le: EntryOrder, n: string, es: Section)
    ensures Concat(SectionLines(le, n, es)) == Header(n) + Join(EntryLines(Sort(le, es)), '\n') + "\n\n"
  {
    var ls := EntryLines(Sort(le, es));
    var body := if Ended(ls) == [] then ["\n"] else Ended(ls);
    ConcatPush(body, "\n");
    if ls == [] {
      assert ["\n"][1..] == [];
      assert Concat(["\n"]) == "\n";
    } else {
      JoinEnded(ls);
    }
    assert Concat(body) == Join(ls, '\n') + "\n";
    assert Concat(body + ["\n"]) == Join(ls, '\n') + "\n\n";
    assert SectionLines(le, n, es)[1..] == body + ["\n"];
    Assoc(Header(n), Join(ls, '\n'), "\n\n");
  }

  predicate Writable(d: Ini) {
    forall i :: 0 <= i < |d| ==> Strip(d[i].0) == d[i].0
  }

  lemma SortStorable(le: EntryOrder, es: Section)
    requires StorableSection(es)
    ensures forall j :: 0 <= j < |es| ==> StorableEntry(Sort(le, es)[j])
    ensures NoEquals(Sort(le, es))
  {
    forall j | 0 <= j < |es| ensures StorableEntry(Sort(le, es)[j]) {
      var i := SortedFrom(le, es, j);
    }
  }

  /** The text that is written consists of these lines. */
  lemma {:induction false} WriteFromText(le: EntryOrder, text: string, d: Ini)
    requires Storable(d)
    ensures WriteFrom(le, text, d).Success? <==> Writable(d)
    ensures Writable(d) ==> WriteFrom(le, text, d).value == text + Concat(FileLines(le, d))
    decreases |d|
  {
    if d == [] {
      assert text + [] == text;
    } else {
      SortStorable(le, d[0].1);
      StorableRest(d);
      if Strip(d[0].0) == d[0].0 {
        var one := Concat(SectionLines(le, d[0].0, d[0].1));
        SectionText(le, d[0].0, d[0].1);
        assert WriteOne(le, d[0].0, d[0].1) == Success(one);
        WriteFromText(le, text + one, d[1..]);
        ConcatAppend(SectionLines(le, d[0].0, d[0].1), FileLines(le, d[1..]));
        Assoc(text, one, Concat(FileLines(le, d[1..])));
        assert Writable(d) <==> Writable(d[1..]) by {
          assert forall i :: 0 < i < |d| ==> d[i] == d[1..][i - 1];
        }
      }
    }
  }

  lemma StorableRest(d: Ini)
    requires Storable(d) && d != []
    ensures Storable(d[1..])
  {
    assert forall i :: 0 <= i < |d| - 1 ==> d[1..][i] == d[i + 1];
  }

  /** A line of the file of `d`: a heading, a data line or a blank line. */
  ghost predicate IsLineOf(d: Ini, l: Line) {
    || l == "\n"
    || (exists i :: 0 <= i < |d| && l == Header(d[i].0))
    || (exists i, j :: 0 <= i < |d| && 0 <= j < |d[i].1| && l == EntryLine(d[i].1[j]) + "\n")
  }

  lemma SectionHas(le: EntryOrder, d: Ini, i: nat, l: Line)
    requires i < |d| && l in SectionLines(le, d[i].0, d[i].1)
    ensures IsLineOf(d, l)
  {
    var es := d[i].1;
    var sorted := Sort(le, es);
    var ls := Ended(EntryLines(sorted));
    if l in ls {
      var k :| 0 <= k < |ls| && l == ls[k];
      var j := SortedFrom(le, es, k);
      assert l == EntryLine(d[i].1[j]) + "\n";
    }
  }

  lemma {:induction false} FileHas(le: EntryOrder, d: Ini, from: nat, l: Line)
    requires from <= |d| && l in FileLines(le, d[from..])
    ensures IsLineOf(d, l)
    decreases |d| - from
  {
    var rest := d[from..];
    if l in SectionLines(le, rest[0].0, rest[0].1) {
      SectionHas(le, d, from, l);
    } else {
      assert rest[1..] == d[from + 1..];
      FileHas(le, d, from + 1, l);
    }
  }

  lemma LineIsLine(d: Ini, l: Line)
    requires Storable(d) && IsLineOf(d, l)
    ensures Terminated(l) && '\r' !in l
  {
    if i :| 0 <= i < |d| && l == Header(d[i].0) {
      assert l[..|l| - 1] == "[" + d[i].0 + "]";
    } else if i, j :| 0 <= i < |d| && 0 <= j < |d[i].1| && l == EntryLine(d[i].1[j]) + "\n" {
      assert StorableEntry(d[i].1[j]);
      assert l[..|l| - 1] == EntryLine(d[i].1[j]);
    }
  }

  lemma {:induction false} NoReturns(ls: seq<Line>)
    requires forall i :: 0 <= i < |ls| ==> '\r' !in ls[i]
    ensures '\r' !in Concat(ls)
  {
    if ls != [] {
      NoReturns(ls[1..]);
    }
  }

  lemma {:induction false} UniversalIdentity(s: string)
    requires '\r' !in s
    ensures UniversalNewlines(s) == s
  {
    if s != "" {
      UniversalIdentity(s[1..]);
    }
  }

  /** The lines come back as they were written. */
  lemma LinesBack(le: EntryOrder, d: Ini)
    requires Storable(d)
    ensures AllTerminated(FileLines(le, d))
    ensures forall l :: l in FileLines(le, d) ==> IsLineOf(d, l)
    ensures Lines(UniversalNewlines(Concat(FileLines(le, d)))) == FileLines(le, d)
  {
    var ls := FileLines(le, d);
    assert d[0..] == d;
    forall l | l in ls ensures IsLineOf(d, l) && Terminated(l) && '\r' !in l {
      FileHas(le, d, 0, l);
      LineIsLine(d, l);
    }
    NoReturns(ls);
    UniversalIdentity(Concat(ls));
    LinesOfText(ls);
  }

  // ---------------------------------------------------------------------
  // What is kept
  // ---------------------------------------------------------------------

  predicate EntryKept(e: Entry) {
    && Stripped(e.0) && Stripped(e.1)
    && !StartsWith(e.0, "#")
    && !IsHeader(EntryLine(e))
  }

  predicate SectionKept(es: Section) {
    forall j :: 0 <= j < |es| ==> EntryKept(es[j])
  }

  predicate NameKept(n: string, es: Section) {
    && Stripped(n) && !Quoted(n)
    && (EndOfHeader("[" + n + "]") || (StartsWith(n, "#") && es == []))
  }

  /** Nothing in `d` is taken for something else. */
  predicate Kept(d: Ini) {
    forall i :: 0 <= i < |d| ==> NameKept(d[i].0, d[i].1) && SectionKept(d[i].1)
  }

  lemma StripLine(l: string)
    requires Stripped(l)
    ensures Strip(l + "\n") == l
  {
    var s := l + "\n";
    if l == "" {
      assert s[1..] == "" && IsSpace(s[0]);
      assert TrimLeft(s, IsSpace) == TrimLeft("", IsSpace) == "";
    } else {
      assert TrimLeft(s, IsSpace) == s;
      TrimRightPush(l, '\n', IsSpace);
    }
  }

  lemma EntryStripped(e: Entry)
    requires Stripped(e.0) && Stripped(e.1)
    ensures Stripped(EntryLine(e)) && EntryLine(e) != ""
    ensures StartsWith(EntryLine(e), "#") <==> StartsWith(e.0, "#")
  {
  }

  lemma EntryParts(e: Entry)
    requires '=' !in e.0
    ensures Key(EntryLine(e)) == Strip(e.0) && Value(EntryLine(e)) == Strip(e.1)
  {
    SplitPrefix(e.0, e.1, '=');
    JoinSplit(e.1, '=');
  }

  // ---------------------------------------------------------------------
  // A section's data
  // ---------------------------------------------------------------------

  function AsMap(es: Section): map<string, string> {
    if es == [] then map[] else map[es[0].0 := es[0].1] + AsMap(es[1..])
  }

  lemma {:induction false} AsMapFind(es: Section, k: string) returns (i: nat)
    requires k in AsMap(es)
    ensures i < |es| && es[i] == (k, AsMap(es)[k])
  {
    if k in AsMap(es[1..]) {
      i := AsMapFind(es[1..], k);
      i := i + 1;
    } else {
      i := 0;
    }
  }

  lemma {:induction false} AsMapKey(es: Section, i: nat)
    requires i < |es|
    ensures es[i].0 in AsMap(es)
  {
    if i > 0 {
      AsMapKey(es[1..], i - 1);
    }
  }

  lemma AsMapHas(es: Section, i: nat)
    requires Distinct(es) && i < |es|
    ensures es[i].0 in AsMap(es) && AsMap(es)[es[i].0] == es[i].1
  {
    AsMapKey(es, i);
    var j := AsMapFind(es, es[i].0);
  }

  lemma {:induction false} SortDistinct(le: EntryOrder, es: Section)
    requires Distinct(es)
    ensures Distinct(Sort(le, es))
    decreases |es|
  {
    if es != [] {
      var m := FirstMin(le, es);
      var rest := Without(es, m);
      WithoutDistinct(es, m);
      SortDistinct(le, rest);
      forall j | 0 <= j < |rest| ensures Sort(le, rest)[j].0 != es[m].0 {
        var i := SortedFrom(le, rest, j);
      }
      ConsDistinct(es[m], Sort(le, rest));
    }
  }

  lemma WithoutDistinct(es: Section, m: nat)
    requires Distinct(es) && m < |es|
    ensures Distinct(Without(es, m))
    ensures forall i :: 0 <= i < |es| - 1 ==> Without(es, m)[i].0 != es[m].0
  {
    var rest := Without(es, m);
    assert forall i :: 0 <= i < |rest| ==> rest[i] == es[if i < m then i else i + 1];
  }

  lemma ConsDistinct(e: Entry, es: Section)
    requires Distinct(es) && forall j :: 0 <= j < |es| ==> es[j].0 != e.0
    ensures Distinct([e] + es)
  {
    var all := [e] + es;
    assert forall i :: 0 < i < |all| ==> all[i] == es[i - 1];
  }

  lemma SortSameMap(le: EntryOrder, es: Section)
    requires Distinct(es)
    ensures Distinct(Sort(le, es)) && AsMap(Sort(le, es)) == AsMap(es)
  {
    SortDistinct(le, es);
    forall j | 0 <= j < |es| ensures Sort(le, es)[j] in es {
      var i := SortedFrom(le, es, j);
    }
    forall i | 0 <= i < |es| ensures es[i] in Sort(le, es) {
      var j := SortedTo(le, es, i);
    }
    SameMap(es, Sort(le, es));
  }

  lemma SameMap(a: Section, b: Section)
    requires Distinct(a) && Distinct(b)
    requires forall i :: 0 <= i < |a| ==> a[i] in b
    requires forall j :: 0 <= j < |b| ==> b[j] in a
    ensures AsMap(a) == AsMap(b)
  {
    forall k | k in AsMap(a) ensures k in AsMap(b) && AsMap(b)[k] == AsMap(a)[k] {
      var i := AsMapFind(a, k);
      var j :| 0 <= j < |b| && b[j] == a[i];
      AsMapHas(b, j);
    }
    forall k | k in AsMap(b) ensures k in AsMap(a) {
      var j := AsMapFind(b, k);
      var i :| 0 <= i < |a| && a[i] == b[j];
      AsMapHas(a, i);
    }
  }

  lemma AsMapCons(m: map<string, string>, e: Entry, es: Section)
    ensures m[e.0 := e.1] + AsMap(es) == m + AsMap([e] + es)
  {
    assert ([e] + es)[1..] == es;
  }

  lemma {:induction false} SplitEnded(ls: seq<string>)
    requires forall i :: 0 <= i < |ls| ==> '\n' !in ls[i]
    ensures Split(Concat(Ended(ls)), '\n') == ls + [""]
  {
    if ls != [] {
      var rest := Concat(Ended(ls[1..]));
      SplitEnded(ls[1..]);
      assert Ended(ls)[1..] == Ended(ls[1..]);
      SplitPrefix(ls[0], rest, '\n');
      Assoc([ls[0]], ls[1..], [""]);
    }
  }

  lemma CollectEntry(m: map<string, string>, e: Entry, rest: seq<string>)
    requires Stripped(e.0) && Stripped(e.1) && '=' !in e.0 && !StartsWith(e.0, "#")
    ensures Collect(m, [EntryLine(e)] + rest) == Collect(m[e.0 := e.1], rest)
  {
    var l := EntryLine(e);
    EntryStripped(e);
    StripIsStripped(l);
    EntryParts(e);
    StripIsStripped(e.0);
    StripIsStripped(e.1);
    assert ([l] + rest)[1..] == rest;
    assert l[|e.0|] == '=';
  }

  lemma {:induction false} CollectEntries(m: map<string, string>, es: Section)
    requires StorableSection(es) && SectionKept(es)
    ensures Collect(m, EntryLines(es) + [""]) == m + AsMap(es)
    decreases |es|
  {
    if es == [] {
      assert [""][1..] == [];
      assert Strip("") == "";
      assert AsMap(es) == map[];
    } else {
      var e, rest := es[0], es[1..];
      assert es == [e] + rest;
      AsMapCons(m, e, rest);
      assert StorableEntry(e) && EntryKept(e);
      Assoc([EntryLine(e)], EntryLines(rest), [""]);
      CollectEntry(m, e, EntryLines(rest) + [""]);
      CollectEntries(m[e.0 := e.1], rest);
    }
  }

  lemma SortKept(le: EntryOrder, es: Section)
    requires SectionKept(es)
    ensures SectionKept(Sort(le, es))
  {
    forall j | 0 <= j < |es| ensures EntryKept(Sort(le, es)[j]) {
      var i := SortedFrom(le, es, j);
    }
  }

  /** Reading a section's data lines gives the section. */
  lemma DataIsSection(le: EntryOrder, es: Section)
    requires StorableSection(es) && SectionKept(es)
    ensures Entries(Concat(Ended(EntryLines(Sort(le, es))))) == AsMap(es)
  {
    SortSameMap(le, es);
    SortStorable(le, es);
    SortKept(le, es);
    DataRead(Sort(le, es));
  }

  lemma LinesUnbroken(es: Section)
    requires forall j :: 0 <= j < |es| ==> StorableEntry(es[j])
    ensures forall j :: 0 <= j < |es| ==> '\n' !in EntryLines(es)[j]
  {
    forall j | 0 <= j < |es| ensures '\n' !in EntryLines(es)[j] {
      assert StorableEntry(es[j]);
    }
  }

  lemma DataRead(es: Section)
    requires StorableSection(es) && SectionKept(es)
    ensures Entries(Concat(Ended(EntryLines(es)))) == AsMap(es)
  {
    LinesUnbroken(es);
    SplitEnded(EntryLines(es));
    CollectEntries(map[], es);
    var m := AsMap(es);
    assert map[] + m == m;
  }

  // ---------------------------------------------------------------------
  // Reading what is kept
  // ---------------------------------------------------------------------

  lemma {:induction false} FeedAppend(r: Reader, a: seq<Line>, b: seq<Line>)
    requires Feed(r, a).Success?
    ensures Feed(r, a + b) == Feed(Feed(r, a).value, b)
    decreases |a|
  {
    if a == [] {
      assert a + b == b;
    } else {
      assert (a + b)[1..] == a[1..] + b;
      FeedAppend(ReadLine(r, a[0]).value, a[1..], b);
    }
  }

  lemma FeedOne(r: Reader, l: Line)
    ensures Feed(r, [l]) == ReadLine(r, l)
  {
    assert [l][1..] == [];
  }

  lemma BlankLine(r: Reader)
    ensures ReadLine(r, "\n") == Success(r)
  {
    StripLine("");
    assert "" + "\n" == "\n";
  }

  lemma DataLine(r: Reader, e: Entry)
    requires EntryKept(e) && !r.mode && r.data.Some?
    ensures ReadLine(r, EntryLine(e) + "\n") == Success(r.(data := Some(r.data.value + [EntryLine(e) + "\n"])))
  {
    EntryStripped(e);
    StripLine(EntryLine(e));
    assert (EntryLine(e) + "\n")[0] == EntryLine(e)[0];
  }

  lemma {:induction false} FeedData(r: Reader, es: Section)
    requires SectionKept(es) && !r.mode && r.data.Some?
    ensures Feed(r, Ended(EntryLines(es))) == Success(r.(data := Some(r.data.value + Ended(EntryLines(es)))))
    decreases |es|
  {
    var ls := Ended(EntryLines(es));
    if es == [] {
      assert r.data.value + ls == r.data.value;
    } else {
      var e, rest := es[0], es[1..];
      assert EntryKept(e);
      DataLine(r, e);
      FeedData(r.(data := Some(r.data.value + [EntryLine(e) + "\n"])), rest);
      assert ls == [EntryLine(e) + "\n"] + Ended(EntryLines(rest));
      Assoc(r.data.value, [EntryLine(e) + "\n"], Ended(EntryLines(rest)));
    }
  }

  lemma HeaderStripped(n: string)
    ensures Strip(Header(n)) == "[" + n + "]"
  {
    var t := "[" + n + "]";
    StripLine(t);
    assert Header(n) == t + "\n";
  }

  lemma HeaderInside(n: string)
    requires Stripped(n)
    ensures
      var t := "[" + n + "]";
      TrimRight(TrimLeft(t, IsColon), IsColon) == t && Strip(t[1..|t| - 1]) == n
  {
    var t := "[" + n + "]";
    assert t[0] == '[' && t[|t| - 1] == ']';
    assert TrimLeft(t, IsColon) == t;
    assert t[1..|t| - 1] == n;
    StripIsStripped(n);
  }

  lemma HeaderLine(n: string)
    requires Stripped(n)
    ensures Strip(Header(n)) == "[" + n + "]"
    ensures SectionName(Header(n)) == n
  {
    HeaderStripped(n);
    HeaderInside(n);
  }

  lemma HeaderFound(n: string, es: Section)
    requires NameKept(n, es)
    ensures IsHeader("[" + n + "]")
  {
    var t := "[" + n + "]";
    assert t[0] == '[';
    if StartsWith(n, "#") {
      assert t[1] == n[0];
    }
  }

  lemma HeaderRead(r: Reader, n: string, es: Section, done: Parsed)
    requires NameKept(n, es) && Flush(r) == Success(done)
    ensures ReadLine(r, Header(n)) == Success(Reader(done, [Header(n)], Some([]), !EndOfHeader("[" + n + "]")))
  {
    HeaderLine(n);
    HeaderFound(n, es);
    assert Header(n)[0] == '[';
  }

  lemma FlushSection(r: Reader, n: string, es: Section)
    requires NameKept(n, es) && r.heads == [Header(n)] && r.data.Some?
    ensures Flush(r) == Success(Set(r.done, n, Entries(Concat(r.data.value))))
  {
    HeaderLine(n);
    assert [Header(n)][1..] == [];
    assert Concat([Header(n)]) == Header(n);
    assert Quoted(Header(n)) <==> Quoted(n);
  }

  /** What a section's lines make of the reader. */
  lemma FeedSection(le: EntryOrder, r: Reader, n: string, es: Section, done: Parsed) returns (r': Reader)
    requires NameKept(n, es) && SectionKept(es) && Flush(r) == Success(done)
    ensures Feed(r, SectionLines(le, n, es)) == Success(r')
    ensures r'.done == done && r'.heads == [Header(n)] && r'.data == Some(Ended(EntryLines(Sort(le, es))))
  {
    var ls := Ended(EntryLines(Sort(le, es)));
    var r1 := Reader(done, [Header(n)], Some([]), !EndOfHeader("[" + n + "]"));
    HeaderRead(r, n, es, done);
    FeedOne(r, Header(n));
    r' := r1.(data := Some(ls));
    BlankLine(r');
    FeedOne(r', "\n");
    if ls == [] {
      FeedAppend(r1, ["\n"], ["\n"]);
      FeedAppend(r, [Header(n)], ["\n"] + ["\n"]);
    } else {
      SortKept(le, es);
      FeedData(r1, Sort(le, es));
      assert [] + ls == ls;
      FeedAppend(r1, ls, ["\n"]);
      FeedAppend(r, [Header(n)], ls + ["\n"]);
    }
  }

  function Maps(d: Ini): Parsed {
    seq(|d|, i requires 0 <= i < |d| => (d[i].0, AsMap(d[i].1)))
  }

  lemma MapsCons(soFar: Parsed, d: Ini)
    requires d != []
    ensures soFar + [(d[0].0, AsMap(d[0].1))] + Maps(d[1..]) == soFar + Maps(d)
  {
    assert Maps(d) == [(d[0].0, AsMap(d[0].1))] + Maps(d[1..]);
  }

  lemma FreshRest(soFar: Parsed, d: Ini, m: map<string, string>)
    requires Distinct(d) && d != [] && forall i :: 0 <= i < |d| ==> Fresh(soFar, d[i].0)
    ensures forall i :: 0 <= i < |d| - 1 ==> Fresh(soFar + [(d[0].0, m)], d[1..][i].0)
  {
  }

  lemma {:induction false} ReadRest(le: EntryOrder, r: Reader, soFar: Parsed, d: Ini)
    requires Storable(d) && Kept(d) && Flush(r) == Success(soFar)
    requires forall i :: 0 <= i < |d| ==> Fresh(soFar, d[i].0)
    ensures Finish(Feed(r, FileLines(le, d))) == Success(soFar + Maps(d))
    decreases |d|
  {
    if d == [] {
      assert soFar + Maps(d) == soFar;
    } else {
      var n, es := d[0].0, d[0].1;
      var next := soFar + [(n, AsMap(es))];
      assert NameKept(n, es) && SectionKept(es) && StorableSection(es);
      var r' := FeedSection(le, r, n, es, soFar);
      DataIsSection(le, es);
      FlushSection(r', n, es);
      SetFresh(soFar, n, AsMap(es));
      FeedAppend(r, SectionLines(le, n, es), FileLines(le, d[1..]));
      StorableRest(d);
      MapsCons(soFar, d);
      FreshRest(soFar, d, AsMap(es));
      KeptRest(d);
      ReadRest(le, r', next, d[1..]);
    }
  }

  lemma KeptRest(d: Ini)
    requires Kept(d) && d != []
    ensures Kept(d[1..])
  {
    assert forall i :: 0 <= i < |d| - 1 ==> d[1..][i] == d[i + 1];
  }

  /** Reading gives the same sections in order, with the same keys and values. */
  lemma KeptIsRead(le: EntryOrder, d: Ini)
    requires Storable(d) && Kept(d)
    ensures WriteFrom(le, "", d).Success? && ReadText(WriteFrom(le, "", d).value) == Success(Maps(d))
  {
    forall i | 0 <= i < |d| ensures Strip(d[i].0) == d[i].0 {
      assert NameKept(d[i].0, d[i].1);
      StripIsStripped(d[i].0);
    }
    WriteFromText(le, "", d);
    assert "" + Concat(FileLines(le, d)) == Concat(FileLines(le, d));
    LinesBack(le, d);
    ReadRest(le, START, [], d);
    assert [] + Maps(d) == Maps(d);
  }
}
