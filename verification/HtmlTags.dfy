/** Printing and scanning HTML tags (html_tools/HTMLTags.py). */
module HtmlTags {
  import Dicts
  import opened Strings
  import opened Escape
  import opened Wrappers

  /** An attribute and its value, if it has one. */
  type Attr = (string, Option<string>)
  type Attrs = Dicts.Dict<Option<string>>

  /** `RE_END_OF_TAG.match(s, pos=x)`: spaces, then '>' or the end of the string. */
  predicate EndOfTag(s: string, x: nat)
    decreases |s| - x
  {
    if x >= |s| then true
    else if IsSpace(s[x]) then EndOfTag(s, x + 1)
    else s[x] == '>'
  }

  /** `s.find(c, x)`, or the length of `s` where there is none. */
  function Find(s: string, c: char, x: nat): (r: nat)
    requires x <= |s|
    ensures x <= r <= |s|
    ensures forall i :: x <= i < r ==> s[i] != c
    ensures r < |s| ==> s[r] == c
    decreases |s| - x
  {
    if x == |s| || s[x] == c then x else Find(s, c, x + 1)
  }

  // ---------------------------------------------------------------------
  // The tag name
  // ---------------------------------------------------------------------

  datatype Name = Name(x: nat, tag: string, xhtml: bool, tagEnded: bool, stopped: bool)

  /** One turn of the first loop of `get_htm_tag`. */
  function NameStep(s: string, n: Name): (r: Name)
    requires n.x < |s| && !n.stopped
    ensures r.stopped || r.x == n.x + 1
  {
    var c := s[n.x];
    if !IsSpace(c) then
      if c == '/' && n.tag != "" then n.(xhtml := EndOfTag(s, n.x + 1), stopped := true)
      else if c == '>' then n.(tagEnded := true, stopped := true)
      else n.(x := n.x + 1, tag := if c == '<' then n.tag else n.tag + [c])
    else if n.tag != "" then n.(stopped := true)
    else n.(x := n.x + 1)
  }

  function NameRun(s: string, n: Name): Name
    decreases !n.stopped, |s| - n.x
  {
    if n.stopped || n.x >= |s| then n else NameRun(s, NameStep(s, n))
  }

  // ---------------------------------------------------------------------
  // The attributes
  // ---------------------------------------------------------------------

  datatype Mode = KEY | VALUE | WFV

  datatype Scan = Scan(
    x: nat, mode: Mode, quotes: bool, paranthesis: bool, key: string, value: string,
    d: Attrs, xhtml: bool, ended: bool)

  /** The rest of a quoted value. */
  function Quoted(s: string, n: Scan, quote: char): Scan
    requires n.x < |s|
  {
    var end := Find(s, quote, n.x);
    n.(x := end + 1, mode := KEY, quotes := false, paranthesis := false, key := "", value := "",
       d := Dicts.Set(n.d, n.key, Some(s[n.x..end])))
  }

  /** One turn of the second loop; `break` leaves the index where it is. */
  function Step(s: string, n: Scan): (r: Scan)
    requires n.x < |s| && !n.ended
    ensures r.ended || r.x > n.x
  {
    var c := s[n.x];
    var on := n.(x := n.x + 1);
    if n.paranthesis then Quoted(s, n, '\'')
    else if n.quotes then Quoted(s, n, '"')
    else
      match n.mode
      case KEY =>
        if c == '/' then on.(xhtml := n.xhtml || EndOfTag(s, n.x + 1))
        else if c == '>' then n.(ended := true)
        else if c == '=' then on.(mode := VALUE)
        else if !IsSpace(c) then on.(key := n.key + [c])
        else if n.key != "" then on.(mode := WFV)
        else on
      case WFV =>
        if IsSpace(c) then on
        else if c == '=' then on.(mode := VALUE)
        else if c == '/' then on.(xhtml := n.xhtml || EndOfTag(s, n.x + 1))
        else if c == '>' then n.(ended := true)
        else on.(d := Dicts.Set(n.d, n.key, None), mode := KEY, key := [c], value := "")
      case VALUE =>
        if IsSpace(c) && n.value == "" then on
        else if c == '"' then on.(quotes := true)
        else if c == '\'' then on.(paranthesis := true)
        else if c == '/' then on.(xhtml := n.xhtml || EndOfTag(s, n.x + 1))
        else if c == '>' then n.(ended := true)
        else if !IsSpace(c) then on.(value := n.value + [c])
        else on.(mode := KEY, d := if n.key != "" then Dicts.Set(n.d, n.key, Some(n.value)) else n.d, key := "", value := "")
  }

  function Run(s: string, n: Scan): Scan
    decreases !n.ended, |s| - n.x
  {
    if n.ended || n.x >= |s| then n else Run(s, Step(s, n))
  }

  /** The key still pending when the loop ends. */
  function LastKey(n: Scan): Attrs {
    if n.key == "" then n.d
    else if n.mode == VALUE then Dicts.Set(n.d, n.key, Some(n.value))
    else Dicts.Set(n.d, n.key, None)
  }

  predicate IsAlpha(c: char) {
    'a' <= c <= 'z' || 'A' <= c <= 'Z'
  }

  predicate AllAlpha(s: string) {
    forall i :: 0 <= i < |s| ==> IsAlpha(s[i])
  }

  /** A value that is not empty is unescaped. */
  function Value(lib: Library, v: Option<string>): Result<Option<string>, Error> {
    if v.None? || v.value == "" then Success(v)
    else
      match Unescaped(lib, v.value)
      case Success(text) => Success(Some(text))
      case Failure(e) => Failure(e)
  }

  /** Values are unescaped; then attributes whose name is not alphabetic are dropped. */
  function Clean(lib: Library, d: Attrs): Result<Attrs, Error> {
    if d == [] then Success([])
    else
      var (k, v) := d[|d| - 1];
      match Clean(lib, d[..|d| - 1])
      case Failure(e) => Failure(e)
      case Success(cleaned) =>
        match Value(lib, v)
        case Failure(e) => Failure(e)
        case Success(text) => Success(cleaned + if AllAlpha(k) then [(k, text)] else [])
  }

  lemma {:induction false} CleanStops(lib: Library, d: Attrs, n: nat)
    requires n < |d| && Clean(lib, d[..n]).Success? && Value(lib, d[n].1).Failure?
    ensures Clean(lib, d) == Failure(Value(lib, d[n].1).error)
  {
    if n < |d| - 1 {
      assert d[..|d| - 1][..n] == d[..n];
      CleanStops(lib, d[..|d| - 1], n);
    }
  }

  datatype Tag = Tag(name: string, xhtml: bool, d: Attrs, next: nat)

  /** Where the second loop starts, behind the name. */
  function Start(n: Name): Scan {
    Scan(n.x, KEY, false, false, "", "", [], n.xhtml, n.tagEnded)
  }

  function Finish(lib: Library, tag: string, r: Scan): Result<Tag, Error> {
    match Clean(lib, LastKey(r))
    case Failure(e) => Failure(e)
    case Success(d) => Success(Tag(lib.lower(tag), r.xhtml, d, r.x + 1))
  }

  function Parse(lib: Library, s: string, x: nat): Result<Tag, Error> {
    var n := NameRun(s, Name(x, "", false, false, false));
    Finish(lib, n.tag, Run(s, Start(n)))
  }

  method GetHtmTag(lib: Library, s: string, x0: nat) returns (r: Result<Tag, Error>)
    ensures r == Parse(lib, s, x0)
  {
    var n := Name(x0, "", false, false, false);
    while n.x < |s| && !n.stopped
      invariant NameRun(s, n) == NameRun(s, Name(x0, "", false, false, false))
      decreases !n.stopped, |s| - n.x
    {
      n := NameStep(s, n);
    }
    var m := Start(n);
    ghost var start := m;
    while !m.ended && m.x < |s|
      invariant Run(s, m) == Run(s, start)
      decreases !m.ended, |s| - m.x
    {
      m := Step(s, m);
    }
    var d := CleanAttrs(lib, LastKey(m));
    match d
    case Failure(e) => r := Failure(e);
    case Success(cleaned) => r := Success(Tag(lib.lower(n.tag), m.xhtml, cleaned, m.x + 1));
  }

  /** The third loop. */
  method CleanAttrs(lib: Library, d: Attrs) returns (r: Result<Attrs, Error>)
    ensures r == Clean(lib, d)
  {
    var cleaned: Attrs := [];
    for i := 0 to |d|
      invariant Clean(lib, d[..i]) == Success(cleaned)
    {
      var (k, v) := d[i];
      assert d[..i + 1][..i] == d[..i];
      if v.Some? && v.value != "" {
        var u := Unescape(lib, v.value);
        if u.Failure? {
          CleanStops(lib, d, i);
          return Failure(u.error);
        }
        v := Some(u.value);
      }
      cleaned := cleaned + if AllAlpha(k) then [(k, v)] else [];
    }
    assert d[..|d|] == d;
    r := Success(cleaned);
  }

  // ---------------------------------------------------------------------
  // Printing
  // ---------------------------------------------------------------------

  function PrintAttr(a: Attr): string {
    match a.1
    case Some(v) => " " + a.0 + "=\"" + EscQ(v) + "\""
    case None => " " + a.0
  }

  function PrintAttrs(d: Attrs): string {
    if d == [] then "" else PrintAttr(d[0]) + PrintAttrs(d[1..])
  }

  function PrintStart(tag: string, outputTag: bool): string {
    if outputTag then "<" + tag else ""
  }

  function PrintEnd(xhtml: bool, outputTag: bool): string {
    if !outputTag then if xhtml then " /" else ""
    else if xhtml then " />" else ">"
  }

  /** `output_htm(tag, xhtml, d, sanitize=False)` */
  function Print(tag: string, xhtml: bool, d: Attrs): string {
    PrintStart(tag, true) + PrintAttrs(d) + PrintEnd(xhtml, true)
  }

  lemma {:induction false} PrintAttrsLast(d: Attrs, a: Attr)
    ensures PrintAttrs(d + [a]) == PrintAttrs(d) + PrintAttr(a)
  {
    if d == [] {
      assert ([a])[1..] == [];
    } else {
      PrintAttrsLast(d[1..], a);
      assert (d + [a])[1..] == d[1..] + [a];
    }
  }

  method PrintItem(a: Attr) returns (item: string)
    ensures item == PrintAttr(a)
  {
    if a.1.Some? {
      item := " " + a.0 + "=\"" + EscQ(a.1.value) + "\"";
    } else {
      item := " " + a.0;
    }
  }

  lemma PrintNext(first: string, d: Attrs, i: nat)
    requires i < |d|
    ensures first + PrintAttrs(d[..i]) + PrintAttr(d[i]) == first + PrintAttrs(d[..i + 1])
  {
    PrintAttrsLast(d[..i], d[i]);
    assert d[..i + 1] == d[..i] + [d[i]];
  }

  method OutputHtm(tag: string, xhtml: bool, d: Attrs, outputTag: bool) returns (r: string)
    ensures r == PrintStart(tag, outputTag) + PrintAttrs(d) + PrintEnd(xhtml, outputTag)
    ensures outputTag ==> r == Print(tag, xhtml, d)
    ensures !outputTag ==> r == PrintAttrs(d) + if xhtml then " /" else ""
  {
    var L: seq<string> := [];
    if outputTag {
      ConcatPush([], "<" + tag);
      L := L + ["<" + tag];
    }
    ghost var first := PrintStart(tag, outputTag);
    assert Concat(L) == first;
    for i := 0 to |d|
      invariant Concat(L) == first + PrintAttrs(d[..i])
    {
      var item := PrintItem(d[i]);
      PrintNext(first, d, i);
      ConcatPush(L, item);
      L := L + [item];
    }
    assert d[..|d|] == d;
    var end := PrintEnd(xhtml, outputTag);
    ConcatPush(L, end);
    r := Concat(L + [end]);
  }
}
