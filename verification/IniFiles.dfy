/** Writing and reading INI files (toolkit/py_ini). */
module IniFiles {
  import opened Dicts
  import opened StableSort
  import opened Strings
  import opened TextFiles
  import opened Wrappers

  type Entry = (string, string)
  type Section = Dict<string>
  type Ini = Dict<Section>

  /** Headers in list syntax go through `repr` and `eval`. */
  datatype Error = AssertionError | TypeError | AttributeError | ListHeader

  // ---------------------------------------------------------------------
  // Stripping
  // ---------------------------------------------------------------------

  predicate IsColon(c: char) {
    c == ':'
  }

  function TrimLeft(s: string, p: char -> bool): (r: string)
    ensures r != "" ==> !p(r[0])
  {
    if s != "" && p(s[0]) then TrimLeft(s[1..], p) else s
  }

  function TrimRight(s: string, p: char -> bool): (r: string)
    ensures r <= s
    ensures r != "" ==> !p(r[|r| - 1])
  {
    if s != "" && p(s[|s| - 1]) then TrimRight(s[..|s| - 1], p) else s
  }

  lemma TrimRightPush(s: string, c: char, p: char -> bool)
    ensures TrimRight(s + [c], p) == if p(c) then TrimRight(s, p) else s + [c]
  {
    assert (s + [c])[..|s|] == s;
  }

  /** `s.strip()` */
  function Strip(s: string): string {
    TrimRight(TrimLeft(s, IsSpace), IsSpace)
  }

  predicate Stripped(s: string) {
    s == "" || (!IsSpace(s[0]) && !IsSpace(s[|s| - 1]))
  }

  lemma StripIsStripped(s: string)
    ensures Stripped(Strip(s))
    ensures Stripped(s) ==> Strip(s) == s
  {
  }

  // ---------------------------------------------------------------------
  // Writing
  // ---------------------------------------------------------------------

  function EntryLine(e: Entry): string {
    e.0 + "=" + e.1
  }

  function EntryLines(es: seq<Entry>): (r: seq<string>)
    ensures |r| == |es|
    ensures forall i :: 0 <= i < |es| ==> r[i] == EntryLine(es[i])
  {
    if es == [] then [] else [EntryLine(es[0])] + EntryLines(es[1..])
  }

  predicate NoEquals(es: seq<Entry>) {
    forall i :: 0 <= i < |es| ==> '=' !in es[i].0
  }

  /** `WriteIni.process_section`; `le` compares keys in lower case. */
  method WriteSection(le: (Entry, Entry) -> bool, d: Section) returns (r: Result<string, Error>)
    ensures r == if NoEquals(Sort(le, d)) then Success(Join(EntryLines(Sort(le, d)), '\n')) else Failure(AssertionError)
  {
    var sorted := Sort(le, d);
    var L: seq<string> := [];
    for i := 0 to |sorted|
      invariant forall j :: 0 <= j < i ==> '=' !in sorted[j].0
      invariant |L| == i && forall j :: 0 <= j < i ==> L[j] == EntryLine(sorted[j])
    {
      if '=' in sorted[i].0 {
        return Failure(AssertionError);
      }
      L := L + [sorted[i].0 + "=" + sorted[i].1];
    }
    assert L == EntryLines(sorted);
    return Success(Join(L, '\n'));
  }

  /** One heading and its section. */
  function WriteOne(le: (Entry, Entry) -> bool, name: string, d: Section): Result<string, Error> {
    if Strip(name) != name then Failure(ListHeader)
    else if !NoEquals(Sort(le, d)) then Failure(AssertionError)
    else Success("[" + name + "]\n" + Join(EntryLines(Sort(le, d)), '\n') + "\n\n")
  }

  function WriteFrom(le: (Entry, Entry) -> bool, text: string, d: Ini): Result<string, Error>
    decreases |d|
  {
    if d == [] then Success(text)
    else
      match WriteOne(le, d[0].0, d[0].1)
      case Success(t) => WriteFrom(le, text + t, d[1..])
      case Failure(e) => Failure(e)
  }

  /** `write_D` */
  method WriteD(le: (Entry, Entry) -> bool, d: Ini) returns (r: Result<string, Error>)
    ensures r == WriteFrom(le, "", d)
  {
    var text := "";
    for i := 0 to |d|
      invariant WriteFrom(le, text, d[i..]) == WriteFrom(le, "", d)
    {
      var (name, section) := d[i];
      assert d[i..][0] == d[i] && d[i..][1..] == d[i + 1..];
      if Strip(name) != name {
        return Failure(ListHeader);
      }
      var body := WriteSection(le, section);
      if body.Failure? {
        return body;
      }
      text := text + ("[" + name + "]\n" + body.value + "\n\n");
    }
    return Success(text);
  }

  // ---------------------------------------------------------------------
  // Reading a section
  // ---------------------------------------------------------------------

  predicate StartsWith(s: string, p: string) {
    p <= s
  }

  /** `line.partition('=')` of a line with '='. */
  function Key(t: string): string {
    Strip(Split(t, '=')[0])
  }

  function Value(t: string): string {
    Strip(Join(Split(t, '=')[1..], '='))
  }

  function Collect(m: map<string, string>, pieces: seq<string>): map<string, string>
    decreases |pieces|
  {
    if pieces == [] then m
    else
      var t := Strip(pieces[0]);
      Collect(if StartsWith(t, "#") || '=' !in t then m else m[Key(t) := Value(t)], pieces[1..])
  }

  function Entries(data: string): map<string, string> {
    Collect(map[], Split(data, '\n'))
  }

  /** `ReadIni.process_section` */
  method ReadSection(data: string) returns (d: map<string, string>)
    ensures d == Entries(data)
  {
    d := map[];
    var pieces := Split(data, '\n');
    for i := 0 to |pieces|
      invariant Collect(d, pieces[i..]) == Entries(data)
    {
      assert pieces[i..][0] == pieces[i] && pieces[i..][1..] == pieces[i + 1..];
      var line := Strip(pieces[i]);
      if StartsWith(line, "#") || '=' !in line {
        continue;
      }
      d := d[Key(line) := Value(line)];
    }
  }

  // ---------------------------------------------------------------------
  // Reading a file
  // ---------------------------------------------------------------------

  /** Text mode: "\r\n" and "\r" end lines too. */
  function UniversalNewlines(s: string): string {
    if s == "" then ""
    else if s[0] != '\r' then [s[0]] + UniversalNewlines(s[1..])
    else "\n" + UniversalNewlines(if |s| > 1 && s[1] == '\n' then s[2..] else s[1..])
  }

  /** `end_of_header`, of a stripped line. */
  predicate EndOfHeader(t: string) {
    var h := TrimRight(Strip(Split(t, '#')[0]), IsColon);
    h != "" && h[|h| - 1] == ']'
  }

  predicate IsHeader(t: string) {
    || StartsWith(t, "[\"") || StartsWith(t, "['") || StartsWith(t, "[#")
    || (StartsWith(t, "[") && EndOfHeader(t))
  }

  type Parsed = Dict<map<string, string>>

  /** `DRtn`, `LSections`, `LSection`, `section_mode` */
  datatype Reader = Reader(done: Parsed, heads: seq<Line>, data: Option<seq<Line>>, mode: bool)

  predicate Quoted(s: string) {
    '"' in s || '\'' in s
  }

  /** `line.strip().strip(':')[1:-1].strip()` */
  function SectionName(line: Line): string {
    var t := TrimRight(TrimLeft(Strip(line), IsColon), IsColon);
    if |t| < 2 then "" else Strip(t[1..|t| - 1])
  }

  /** `DRtn.update(get_D_sections(LSections, LSection))` */
  function Flush(r: Reader): Result<Parsed, Error> {
    if r.heads == [] then Success(r.done)
    else if Quoted(Concat(r.heads)) then Failure(ListHeader)
    else if |r.heads| != 1 then Failure(AssertionError)
    else if r.data.None? then Failure(TypeError)
    else Success(Set(r.done, SectionName(r.heads[0]), Entries(Concat(r.data.value))))
  }

  /** One turn of the loop of `__read_D`. */
  function ReadLine(r: Reader, line: Line): Result<Reader, Error> {
    var t := Strip(line);
    if t == "" || StartsWith(line, "#") then Success(r)
    else if IsHeader(t) then
      match Flush(r)
      case Success(done) => Success(Reader(done, [line], Some([]), !EndOfHeader(t)))
      case Failure(e) => Failure(e)
    else if r.mode then
      Success(r.(heads := r.heads + [line], mode := r.heads == [] || !EndOfHeader(t)))
    else if r.data.None? then Failure(AttributeError)
    else Success(r.(data := Some(r.data.value + [line])))
  }

  function Feed(r: Reader, lines: seq<Line>): Result<Reader, Error>
    decreases |lines|
  {
    if lines == [] then Success(r)
    else
      match ReadLine(r, lines[0])
      case Success(r') => Feed(r', lines[1..])
      case Failure(e) => Failure(e)
  }

  const START: Reader := Reader([], [], None, true)

  function Finish(r: Result<Reader, Error>): Result<Parsed, Error> {
    match r
    case Success(r') => Flush(r')
    case Failure(e) => Failure(e)
  }

  function ReadText(text: string): Result<Parsed, Error> {
    Finish(Feed(START, Lines(UniversalNewlines(text))))
  }

  method FlushSections(r: Reader) returns (p: Result<Parsed, Error>)
    ensures p == Flush(r)
  {
    if r.heads == [] {
      return Success(r.done);
    }
    if Quoted(Concat(r.heads)) {
      return Failure(ListHeader);
    }
    if |r.heads| != 1 {
      return Failure(AssertionError);
    }
    if r.data.None? {
      return Failure(TypeError);
    }
    var section := ReadSection(Concat(r.data.value));
    return Success(Set(r.done, SectionName(r.heads[0]), section));
  }

  /** `read_dict` */
  method ReadD(text: string) returns (p: Result<Parsed, Error>)
    ensures p == ReadText(text)
  {
    var lines := Lines(UniversalNewlines(text));
    var r := START;
    for i := 0 to |lines|
      invariant Feed(r, lines[i..]) == Feed(START, lines)
    {
      var line := lines[i];
      assert lines[i..][0] == line && lines[i..][1..] == lines[i + 1..];
      var t := Strip(line);
      if t == "" || StartsWith(line, "#") {
        continue;
      }
      if IsHeader(t) {
        var done := FlushSections(r);
        if done.Failure? {
          return Failure(done.error);
        }
        r := Reader(done.value, [line], Some([]), !EndOfHeader(t));
      } else if r.mode {
        r := r.(heads := r.heads + [line], mode := r.heads == [] || !EndOfHeader(t));
      } else if r.data.None? {
        return Failure(AttributeError);
      } else {
        r := r.(data := Some(r.data.value + [line]));
      }
    }
    p := FlushSections(r);
  }
}
