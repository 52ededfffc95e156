/** What the tag scanner makes of a tag, however its attributes are spelled. */
module HtmlSpellings {
  import opened Dicts
  import opened Escape
  import opened HtmlTags
  import Lists
  import opened Strings
  import opened Wrappers

  /** `t` stands at position `x` of `s`. */
  predicate At(s: string, x: nat, t: string) {
    x + |t| <= |s| && s[x..x + |t|] == t
  }

  lemma AtParts(s: string, x: nat, a: string, b: string)
    requires At(s, x, a + b)
    ensures At(s, x, a) && At(s, x + |a|, b)
  {
    var t := s[x..x + |a + b|];
    assert t[..|a|] == a && t[|a|..] == b;
    assert s[x..x + |a|] == t[..|a|];
    assert s[x + |a|..x + |a| + |b|] == t[|a|..];
  }

  lemma AtFirst(s: string, x: nat, t: string)
    requires At(s, x, t) && t != ""
    ensures x < |s| && s[x] == t[0]
    ensures At(s, x + 1, t[1..])
  {
    assert s[x..x + |t|][0] == t[0];
    assert [t[0]] + t[1..] == t;
    AtParts(s, x, [t[0]], t[1..]);
  }

  // ---------------------------------------------------------------------
  // Spellings
  // ---------------------------------------------------------------------

  /** An attribute as it may be written: behind spaces, without a value, or with spaces around '='. */
  datatype Spelled =
    | Bare(gap: string, key: string)
    | Plain(gap: string, key: string, before: string, after: string, value: string)
    | Quoted(gap: string, key: string, before: string, after: string, quote: char, value: string)

  function ValueText(a: Spelled): string {
    match a
    case Bare(_, _) => ""
    case Plain(_, _, _, _, v) => v
    case Quoted(_, _, _, _, q, v) => [q] + (v + [q])
  }

  function KeyAndValue(a: Spelled): string {
    if a.Bare? then a.key else a.key + (a.before + ("=" + (a.after + ValueText(a))))
  }

  function AttrText(a: Spelled): string {
    a.gap + KeyAndValue(a)
  }

  function AttrsText(attrs: seq<Spelled>): string {
    if attrs == [] then "" else AttrText(attrs[0]) + AttrsText(attrs[1..])
  }

  /** The end of a tag: spaces, perhaps a slash and more spaces, and '>'. */
  datatype End = End(gap: string, slash: Option<string>)

  function SlashText(e: End): string {
    if e.slash.Some? then "/" + (e.slash.value + ">") else ">"
  }

  function EndText(e: End): string {
    e.gap + SlashText(e)
  }

  function TagText(tag: string, attrs: seq<Spelled>, e: End): string {
    "<" + (tag + (AttrsText(attrs) + EndText(e)))
  }

  predicate Blank(w: string) {
    forall i :: 0 <= i < |w| ==> IsSpace(w[i])
  }

  predicate KeyChar(c: char) {
    !IsSpace(c) && c != '=' && c != '>' && c != '/'
  }

  predicate KeyChars(k: string) {
    forall i :: 0 <= i < |k| ==> KeyChar(k[i])
  }

  /** What needs no quotes. */
  predicate PlainChars(v: string) {
    forall i :: 0 <= i < |v| ==> !IsSpace(v[i]) && v[i] != '"' && v[i] != '\'' && v[i] != '/' && v[i] != '>'
  }

  predicate Proper(a: Spelled) {
    && a.gap != "" && Blank(a.gap) && a.key != "" && KeyChars(a.key)
    && (!a.Bare? ==> Blank(a.before) && Blank(a.after))
    && (a.Plain? ==> a.value != "" && PlainChars(a.value))
    && (a.Quoted? ==> (a.quote == '"' || a.quote == '\'') && a.quote !in a.value)
  }

  predicate AllProper(attrs: seq<Spelled>) {
    forall i :: 0 <= i < |attrs| ==> Proper(attrs[i])
  }

  predicate ProperEnd(e: End) {
    Blank(e.gap) && (e.slash.Some? ==> Blank(e.slash.value))
  }

  function ValueOf(a: Spelled): Option<string> {
    if a.Bare? then None else Some(a.value)
  }

  /** The dict of the attributes: a key that comes twice keeps its place and takes the later value. */
  function Entered(d: Attrs, attrs: seq<Spelled>): Attrs
    decreases |attrs|
  {
    if attrs == [] then d else Entered(Set(d, attrs[0].key, ValueOf(attrs[0])), attrs[1..])
  }

  /** Of attributes with the same key the last one counts. */
  lemma {:induction false} LastWins(d: Attrs, attrs: seq<Spelled>, i: nat)
    requires i < |attrs| && forall j :: i < j < |attrs| ==> attrs[j].key != attrs[i].key
    ensures Get(Entered(d, attrs), attrs[i].key) == Some(ValueOf(attrs[i]))
    decreases |attrs|
  {
    var d' := Set(d, attrs[0].key, ValueOf(attrs[0]));
    if i > 0 {
      assert forall j :: i - 1 < j < |attrs| - 1 ==> attrs[1..][j].key == attrs[j + 1].key;
      LastWins(d', attrs[1..], i - 1);
    } else {
      SetGets(d, attrs[0].key, ValueOf(attrs[0]), attrs[0].key);
      OthersStay(d', attrs[1..], attrs[0].key);
    }
  }

  lemma {:induction false} OthersStay(d: Attrs, attrs: seq<Spelled>, k: string)
    requires forall j :: 0 <= j < |attrs| ==> attrs[j].key != k
    ensures Get(Entered(d, attrs), k) == Get(d, k)
    decreases |attrs|
  {
    if attrs != [] {
      SetGets(d, attrs[0].key, ValueOf(attrs[0]), k);
      OthersStay(Set(d, attrs[0].key, ValueOf(attrs[0])), attrs[1..], k);
    }
  }

  /** Attributes with different keys are entered as they come. */
  lemma {:induction false} EnteredFresh(d: Attrs, attrs: seq<Spelled>, all: Attrs)
    requires Distinct(all) && |all| == |d| + |attrs| && all[..|d|] == d
    requires forall i :: 0 <= i < |attrs| ==> all[|d| + i] == (attrs[i].key, ValueOf(attrs[i]))
    ensures Entered(d, attrs) == all
    decreases |attrs|
  {
    if attrs == [] {
      assert all == d;
    } else {
      var d' := d + [all[|d|]];
      forall i | 0 <= i < |d| ensures d[i].0 != attrs[0].key {
        assert d[i] == all[i];
      }
      SetFresh(d, attrs[0].key, ValueOf(attrs[0]));
      assert all[..|d'|] == d';
      EnteredFresh(d', attrs[1..], all);
    }
  }

  // ---------------------------------------------------------------------
  // The scanner between attributes
  // ---------------------------------------------------------------------

  /** `R` gives the same for a scanner and for the scanner one turn later, as the loop's final state does. */
  ghost predicate Follows(s: string, R: Scan -> Scan) {
    forall n: Scan {:trigger Step(s, n)} :: n.x < |s| && !n.ended ==> R(n) == R(Step(s, n))
  }

  /** The loop stops where the tag has ended. */
  ghost predicate Halts(R: Scan -> Scan) {
    forall n: Scan {:trigger R(n)} :: n.ended ==> R(n) == n
  }

  lemma RunStep(s: string, R: Scan -> Scan, n: Scan)
    requires Follows(s, R) && n.x < |s| && !n.ended
    ensures R(n) == R(Step(s, n))
  {
  }

  lemma RunFollows(s: string) returns (R: Scan -> Scan)
    ensures Follows(s, R) && Halts(R)
    ensures forall n :: R(n) == Run(s, n)
  {
    R := (n: Scan) => Run(s, n);
  }

  /** Not inside quotes; what has been collected, with the key or value still pending, makes `d`. */
  predicate Between(n: Scan, d: Attrs, xhtml: bool) {
    && !n.ended && !n.quotes && !n.paranthesis && n.xhtml == xhtml
    && (if n.mode == VALUE then n.key != "" && n.value != "" else n.value == "")
    && (n.mode == WFV ==> n.key != "")
    && LastKey(n) == d
  }

  /** The next letter begins a key. */
  predicate Ready(n: Scan, d: Attrs, xhtml: bool) {
    Between(n, d, xhtml) && n.mode == if n.key == "" then KEY else WFV
  }

  lemma SpaceStep(s: string, n: Scan, d: Attrs, xhtml: bool)
    requires Between(n, d, xhtml) && n.x < |s| && IsSpace(s[n.x])
    ensures Ready(Step(s, n), d, xhtml) && Step(s, n).x == n.x + 1
  {
  }

  lemma {:induction false} SpacesTake(s: string, R: Scan -> Scan, n: Scan, d: Attrs, xhtml: bool, w: string)
    returns (n': Scan)
    requires Follows(s, R) && Between(n, d, xhtml) && Blank(w) && At(s, n.x, w)
    ensures R(n) == R(n') && n'.x == n.x + |w| && Between(n', d, xhtml)
    ensures w != "" || Ready(n, d, xhtml) ==> Ready(n', d, xhtml)
    decreases |w|
  {
    if w == "" {
      n' := n;
    } else {
      AtFirst(s, n.x, w);
      SpaceStep(s, n, d, xhtml);
      RunStep(s, R, n);
      n' := SpacesTake(s, R, Step(s, n), d, xhtml, w[1..]);
    }
  }

  // ---------------------------------------------------------------------
  // One attribute
  // ---------------------------------------------------------------------

  /** Behind the part `key` of a key. */
  function AtKey(x: nat, key: string, d: Attrs): Scan {
    Scan(x, KEY, false, false, key, "", d, false, false)
  }

  /** Behind '=' and the part `value` of a value. */
  function AtValue(x: nat, key: string, value: string, d: Attrs): Scan {
    Scan(x, VALUE, false, false, key, value, d, false, false)
  }

  lemma KeyStarts(s: string, R: Scan -> Scan, n: Scan, d: Attrs, k: string)
    requires Follows(s, R) && Ready(n, d, false) && k != "" && KeyChars(k) && At(s, n.x, k)
    ensures R(n) == R(AtKey(n.x + 1, [k[0]], d)) && At(s, n.x + 1, k[1..])
  {
    AtFirst(s, n.x, k);
    assert KeyChar(k[0]);
    assert "" + [k[0]] == [k[0]];
    assert Step(s, n) == AtKey(n.x + 1, [k[0]], d);
    RunStep(s, R, n);
  }

  lemma {:induction false} KeyTakes(s: string, R: Scan -> Scan, x: nat, key: string, d: Attrs, w: string)
    requires Follows(s, R) && At(s, x, w) && KeyChars(w)
    ensures R(AtKey(x, key, d)) == R(AtKey(x + |w|, key + w, d))
    decreases |w|
  {
    if w == "" {
      assert key + w == key;
    } else {
      AtFirst(s, x, w);
      assert KeyChar(w[0]);
      RunStep(s, R, AtKey(x, key, d));
      assert key + [w[0]] + w[1..] == key + w;
      KeyTakes(s, R, x + 1, key + [w[0]], d, w[1..]);
    }
  }

  lemma WholeKeyTakes(s: string, R: Scan -> Scan, n: Scan, d: Attrs, k: string)
    requires Follows(s, R) && Ready(n, d, false) && k != "" && KeyChars(k) && At(s, n.x, k)
    ensures R(n) == R(AtKey(n.x + |k|, k, d))
  {
    KeyStarts(s, R, n, d, k);
    KeyTakes(s, R, n.x + 1, [k[0]], d, k[1..]);
    assert [k[0]] + k[1..] == k;
  }

  /** Spaces between a key and '='. */
  lemma {:induction false} BeforeTakes(s: string, R: Scan -> Scan, x: nat, k: string, d: Attrs, mode: Mode, w: string)
    requires Follows(s, R) && At(s, x, w + "=") && Blank(w) && k != "" && mode != VALUE
    ensures R(AtKey(x, k, d).(mode := mode)) == R(AtValue(x + |w| + 1, k, "", d))
    decreases |w|
  {
    var n := AtKey(x, k, d).(mode := mode);
    AtFirst(s, x, w + "=");
    RunStep(s, R, n);
    if w == "" {
      assert Step(s, n) == AtValue(x + 1, k, "", d);
    } else {
      assert IsSpace(w[0]) && (w + "=")[1..] == w[1..] + "=";
      assert Step(s, n) == AtKey(x + 1, k, d).(mode := WFV);
      BeforeTakes(s, R, x + 1, k, d, WFV, w[1..]);
    }
  }

  /** Spaces between '=' and a value. */
  lemma {:induction false} AfterTakes(s: string, R: Scan -> Scan, x: nat, k: string, d: Attrs, w: string)
    requires Follows(s, R) && At(s, x, w) && Blank(w)
    ensures R(AtValue(x, k, "", d)) == R(AtValue(x + |w|, k, "", d))
    decreases |w|
  {
    if w != "" {
      AtFirst(s, x, w);
      RunStep(s, R, AtValue(x, k, "", d));
      AfterTakes(s, R, x + 1, k, d, w[1..]);
    }
  }

  /** A value without quotes. */
  lemma {:induction false} PlainTakes(s: string, R: Scan -> Scan, x: nat, k: string, v: string, d: Attrs, w: string)
    requires Follows(s, R) && At(s, x, w) && PlainChars(w)
    ensures R(AtValue(x, k, v, d)) == R(AtValue(x + |w|, k, v + w, d))
    decreases |w|
  {
    if w == "" {
      assert v + w == v;
    } else {
      AtFirst(s, x, w);
      RunStep(s, R, AtValue(x, k, v, d));
      assert v + [w[0]] + w[1..] == v + w;
      PlainTakes(s, R, x + 1, k, v + [w[0]], d, w[1..]);
    }
  }

  lemma {:induction false} FindAfter(s: string, x: nat, v: string, c: char)
    requires At(s, x, v) && c !in v && x + |v| < |s| && s[x + |v|] == c
    ensures Find(s, c, x) == x + |v|
    decreases |v|
  {
    if v != "" {
      AtFirst(s, x, v);
      assert v[0] in v;
      FindAfter(s, x + 1, v[1..], c);
    }
  }

  /** The opening quote, of either kind. */
  lemma QuoteOpens(s: string, R: Scan -> Scan, x: nat, k: string, d: Attrs, q: char) returns (n: Scan)
    requires Follows(s, R) && x < |s| && s[x] == q && (q == '"' || q == '\'')
    ensures n == AtValue(x + 1, k, "", d).(quotes := q == '"', paranthesis := q == '\'')
    ensures R(AtValue(x, k, "", d)) == R(n)
  {
    n := AtValue(x + 1, k, "", d).(quotes := q == '"', paranthesis := q == '\'');
    RunStep(s, R, AtValue(x, k, "", d));
    assert Step(s, AtValue(x, k, "", d)) == n;
  }

  /** From behind it to behind the closing one. */
  lemma QuoteCloses(s: string, R: Scan -> Scan, n: Scan, x: nat, k: string, d: Attrs, q: char, v: string)
    requires Follows(s, R) && (q == '"' || q == '\'') && q !in v
    requires n == AtValue(x, k, "", d).(quotes := q == '"', paranthesis := q == '\'')
    requires At(s, x, v) && x + |v| < |s| && s[x + |v|] == q
    ensures R(n) == R(AtKey(x + |v| + 1, "", Set(d, k, Some(v))))
  {
    FindAfter(s, x, v, q);
    RunStep(s, R, n);
    assert Step(s, n) == AtKey(x + |v| + 1, "", Set(d, k, Some(v)));
  }

  /** A value in quotes. */
  lemma QuotedTakes(s: string, R: Scan -> Scan, x: nat, k: string, d: Attrs, q: char, v: string)
    requires Follows(s, R) && At(s, x, [q] + (v + [q])) && (q == '"' || q == '\'') && q !in v
    ensures R(AtValue(x, k, "", d)) == R(AtKey(x + 2 + |v|, "", Set(d, k, Some(v))))
  {
    AtParts(s, x, [q], v + [q]);
    AtParts(s, x + 1, v, [q]);
    AtFirst(s, x, [q]);
    AtFirst(s, x + 1 + |v|, [q]);
    var n := QuoteOpens(s, R, x, k, d, q);
    QuoteCloses(s, R, n, x + 1, k, d, q, v);
  }

  /** From behind a key to where the value begins. */
  lemma ValueStarts(s: string, R: Scan -> Scan, x: nat, d: Attrs, k: string, before: string, after: string, v: string)
    requires Follows(s, R) && k != "" && Blank(before) && Blank(after) && At(s, x, before + ("=" + (after + v)))
    ensures
      var y := x + |before| + 1 + |after|;
      R(AtKey(x, k, d)) == R(AtValue(y, k, "", d)) && At(s, y, v)
  {
    assert before + ("=" + (after + v)) == (before + "=") + (after + v);
    AtParts(s, x, before + "=", after + v);
    AtParts(s, x + |before| + 1, after, v);
    BeforeTakes(s, R, x, k, d, KEY, before);
    AfterTakes(s, R, x + |before| + 1, k, d, after);
  }

  lemma PlainValue(s: string, R: Scan -> Scan, x: nat, k: string, d: Attrs, v: string) returns (n: Scan)
    requires Follows(s, R) && At(s, x, v) && PlainChars(v) && k != "" && v != ""
    ensures R(AtValue(x, k, "", d)) == R(n) && n.x == x + |v| && Between(n, Set(d, k, Some(v)), false)
  {
    PlainTakes(s, R, x, k, "", d, v);
    assert "" + v == v;
    n := AtValue(x + |v|, k, v, d);
  }

  lemma BareTakes(s: string, R: Scan -> Scan, n: Scan, d: Attrs, k: string) returns (n': Scan)
    requires Follows(s, R) && Ready(n, d, false) && k != "" && KeyChars(k) && At(s, n.x, k)
    ensures R(n) == R(n') && n'.x == n.x + |k| && Between(n', Set(d, k, None), false)
  {
    WholeKeyTakes(s, R, n, d, k);
    n' := AtKey(n.x + |k|, k, d);
  }

  lemma PlainTakesAll(s: string, R: Scan -> Scan, n: Scan, d: Attrs, k: string, before: string, after: string, v: string)
    returns (n': Scan)
    requires Follows(s, R) && Ready(n, d, false) && k != "" && KeyChars(k) && Blank(before) && Blank(after)
    requires v != "" && PlainChars(v) && At(s, n.x, k + (before + ("=" + (after + v))))
    ensures R(n) == R(n') && n'.x == n.x + |k| + |before| + 1 + |after| + |v| && Between(n', Set(d, k, Some(v)), false)
  {
    AtParts(s, n.x, k, before + ("=" + (after + v)));
    WholeKeyTakes(s, R, n, d, k);
    ValueStarts(s, R, n.x + |k|, d, k, before, after, v);
    n' := PlainValue(s, R, n.x + |k| + |before| + 1 + |after|, k, d, v);
  }

  lemma QuotedTakesAll(s: string, R: Scan -> Scan, n: Scan, d: Attrs, k: string, before: string, after: string,
                       q: char, v: string)
    returns (n': Scan)
    requires Follows(s, R) && Ready(n, d, false) && k != "" && KeyChars(k) && Blank(before) && Blank(after)
    requires (q == '"' || q == '\'') && q !in v && At(s, n.x, k + (before + ("=" + (after + ([q] + (v + [q]))))))
    ensures R(n) == R(n') && n'.x == n.x + |k| + |before| + 1 + |after| + |v| + 2 && Between(n', Set(d, k, Some(v)), false)
  {
    var text := [q] + (v + [q]);
    AtParts(s, n.x, k, before + ("=" + (after + text)));
    WholeKeyTakes(s, R, n, d, k);
    ValueStarts(s, R, n.x + |k|, d, k, before, after, text);
    var x := n.x + |k| + |before| + 1 + |after|;
    QuotedTakes(s, R, x, k, d, q, v);
    n' := AtKey(x + 2 + |v|, "", Set(d, k, Some(v)));
  }

  lemma AttrTakes(s: string, R: Scan -> Scan, n: Scan, d: Attrs, a: Spelled) returns (n': Scan)
    requires Follows(s, R) && Between(n, d, false) && Proper(a) && At(s, n.x, AttrText(a))
    ensures R(n) == R(n') && n'.x == n.x + |AttrText(a)| && Between(n', Set(d, a.key, ValueOf(a)), false)
  {
    AtParts(s, n.x, a.gap, KeyAndValue(a));
    var m := SpacesTake(s, R, n, d, false, a.gap);
    match a
    case Bare(_, k) => n' := BareTakes(s, R, m, d, k);
    case Plain(_, k, before, after, v) => n' := PlainTakesAll(s, R, m, d, k, before, after, v);
    case Quoted(_, k, before, after, q, v) => n' := QuotedTakesAll(s, R, m, d, k, before, after, q, v);
  }

  // ---------------------------------------------------------------------
  // A whole tag
  // ---------------------------------------------------------------------

  /** The scanner collects exactly the dict of the attributes, whatever was pending. */
  lemma {:induction false} AttrsTake(s: string, R: Scan -> Scan, n: Scan, d: Attrs, attrs: seq<Spelled>)
    returns (n': Scan)
    requires Follows(s, R) && Between(n, d, false) && AllProper(attrs) && At(s, n.x, AttrsText(attrs))
    ensures R(n) == R(n') && n'.x == n.x + |AttrsText(attrs)| && Between(n', Entered(d, attrs), false)
    decreases |attrs|
  {
    if attrs == [] {
      n' := n;
    } else {
      AtParts(s, n.x, AttrText(attrs[0]), AttrsText(attrs[1..]));
      var m := AttrTakes(s, R, n, d, attrs[0]);
      n' := AttrsTake(s, R, m, Set(d, attrs[0].key, ValueOf(attrs[0])), attrs[1..]);
    }
  }

  lemma {:induction false} BlankEnds(s: string, x: nat, w: string)
    requires At(s, x, w + ">") && Blank(w)
    ensures EndOfTag(s, x)
    decreases |w|
  {
    AtFirst(s, x, w + ">");
    if w != "" {
      assert (w + ">")[1..] == w[1..] + ">";
      BlankEnds(s, x + 1, w[1..]);
    }
  }

  lemma SlashStep(s: string, R: Scan -> Scan, n: Scan, d: Attrs, xhtml: bool)
    requires Follows(s, R) && Between(n, d, xhtml) && n.x < |s| && s[n.x] == '/' && EndOfTag(s, n.x + 1)
    ensures R(n) == R(Step(s, n)) && Step(s, n).x == n.x + 1 && Between(Step(s, n), d, true)
  {
    RunStep(s, R, n);
  }

  lemma CloseStep(s: string, R: Scan -> Scan, n: Scan, d: Attrs, xhtml: bool)
    requires Follows(s, R) && Halts(R) && Between(n, d, xhtml) && n.x < |s| && s[n.x] == '>'
    ensures var r := R(n); r.x == n.x && r.xhtml == xhtml && LastKey(r) == d
  {
    RunStep(s, R, n);
    assert Step(s, n) == n.(ended := true);
  }

  lemma SlashTakes(s: string, R: Scan -> Scan, n: Scan, d: Attrs, xhtml: bool, w: string)
    requires Follows(s, R) && Halts(R) && Between(n, d, xhtml) && Blank(w) && At(s, n.x, "/" + (w + ">"))
    ensures var r := R(n); r.x == n.x + 1 + |w| && r.xhtml && LastKey(r) == d
  {
    AtParts(s, n.x, "/", w + ">");
    AtFirst(s, n.x, "/");
    BlankEnds(s, n.x + 1, w);
    SlashStep(s, R, n, d, xhtml);
    AtParts(s, n.x + 1, w, ">");
    var l := SpacesTake(s, R, Step(s, n), d, true, w);
    AtFirst(s, l.x, ">");
    CloseStep(s, R, l, d, true);
  }

  lemma EndTakes(s: string, R: Scan -> Scan, n: Scan, d: Attrs, xhtml: bool, e: End)
    requires Follows(s, R) && Halts(R) && Between(n, d, xhtml) && ProperEnd(e) && At(s, n.x, EndText(e))
    ensures var r := R(n); r.x + 1 == n.x + |EndText(e)| && r.xhtml == (xhtml || e.slash.Some?) && LastKey(r) == d
  {
    AtParts(s, n.x, e.gap, SlashText(e));
    var m := SpacesTake(s, R, n, d, xhtml, e.gap);
    if e.slash.Some? {
      SlashTakes(s, R, m, d, xhtml, e.slash.value);
    } else {
      AtFirst(s, m.x, ">");
      CloseStep(s, R, m, d, xhtml);
    }
  }

  /** Characters the first loop takes into the name. */
  predicate NameChars(w: string, first: bool) {
    && (forall i :: 0 <= i < |w| ==> !IsSpace(w[i]) && w[i] != '<' && w[i] != '>')
    && (forall i :: 0 <= i < |w| && w[i] == '/' ==> first && i == 0)
  }

  lemma {:induction false} NameTakes(s: string, x: nat, w0: string, w: string)
    requires At(s, x, w) && NameChars(w, w0 == "")
    ensures NameRun(s, Name(x, w0, false, false, false))
         == NameRun(s, Name(x + |w|, w0 + w, false, false, false))
    decreases |w|
  {
    if w == "" {
      assert w0 + w == w0;
    } else {
      AtFirst(s, x, w);
      assert w0 + [w[0]] + w[1..] == w0 + w;
      NameTakes(s, x + 1, w0 + [w[0]], w[1..]);
    }
  }

  /** Where the parts of a tag stand. */
  ghost predicate Stands(s: string, tag: string, attrs: seq<Spelled>, e: End) {
    && At(s, 1, tag)
    && At(s, 1 + |tag|, AttrsText(attrs))
    && At(s, 1 + |tag| + |AttrsText(attrs)|, EndText(e))
  }

  /** What stands behind the name. */
  lemma RestBegins(s: string, x: nat, attrs: seq<Spelled>, e: End)
    requires At(s, x, AttrsText(attrs)) && At(s, x + |AttrsText(attrs)|, EndText(e)) && AllProper(attrs) && ProperEnd(e)
    ensures x < |s|
    ensures attrs != [] ==> IsSpace(s[x])
    ensures attrs == [] ==> IsSpace(s[x]) || (s[x] == '/' && e.slash.Some?) || (s[x] == '>' && EndText(e) == ">")
  {
    if attrs == [] {
      EndBegins(s, x, e);
    } else {
      AtParts(s, x, AttrText(attrs[0]), AttrsText(attrs[1..]));
      AtParts(s, x, attrs[0].gap, KeyAndValue(attrs[0]));
      AtFirst(s, x, attrs[0].gap);
      assert Proper(attrs[0]) && IsSpace(attrs[0].gap[0]);
    }
  }

  lemma EndBegins(s: string, x: nat, e: End)
    requires At(s, x, EndText(e)) && ProperEnd(e)
    ensures x < |s|
    ensures IsSpace(s[x]) || (s[x] == '/' && e.slash.Some?) || (s[x] == '>' && EndText(e) == ">")
  {
    AtFirst(s, x, EndText(e));
    if e.gap == "" {
      assert EndText(e) == SlashText(e);
    } else {
      assert EndText(e)[0] == e.gap[0];
    }
  }

  /** The first loop stops behind a name. */
  lemma NameStops(s: string, x: nat, tag: string)
    requires x < |s| && tag != "" && (IsSpace(s[x]) || s[x] == '/' || s[x] == '>')
    ensures
      var n := NameRun(s, Name(x, tag, false, false, false));
      && n.x == x && n.tag == tag
      && (n.tagEnded ==> s[x] == '>' && !n.xhtml)
      && (n.xhtml ==> s[x] == '/')
  {
    var n := NameStep(s, Name(x, tag, false, false, false));
    assert NameRun(s, n) == n;
  }

  /** It stops at a space, at '>', or at the slash of a tag without attributes. */
  lemma NameEnds(s: string, tag: string, attrs: seq<Spelled>, e: End) returns (n: Name)
    requires Stands(s, tag, attrs, e) && tag != "" && NameChars(tag, true) && AllProper(attrs) && ProperEnd(e)
    ensures n == NameRun(s, Name(1, "", false, false, false))
    ensures n.x == 1 + |tag| && n.tag == tag
    ensures n.tagEnded ==> attrs == [] && EndText(e) == ">" && !n.xhtml && e.slash.None?
    ensures n.xhtml ==> attrs == [] && e.slash.Some?
  {
    var x := 1 + |tag|;
    NameTakes(s, 1, "", tag);
    assert "" + tag == tag;
    RestBegins(s, x, attrs, e);
    NameStops(s, x, tag);
    n := NameRun(s, Name(x, tag, false, false, false));
    CloseIsShort(e);
  }

  lemma CloseIsShort(e: End)
    ensures EndText(e) == ">" ==> e.slash.None?
  {
    if e.slash.Some? {
      assert |EndText(e)| >= 2;
    }
  }

  /** From the end of the name to the end of the tag. */
  lemma TagEnds(s: string, tag: string, attrs: seq<Spelled>, e: End, n: Name) returns (r: Scan)
    requires Stands(s, tag, attrs, e) && AllProper(attrs) && ProperEnd(e)
    requires n.x == 1 + |tag|
    requires n.tagEnded ==> attrs == [] && EndText(e) == ">" && !n.xhtml && e.slash.None?
    requires n.xhtml ==> attrs == [] && e.slash.Some?
    ensures r == Run(s, Start(n))
    ensures r.x + 1 == n.x + |AttrsText(attrs)| + |EndText(e)|
    ensures r.xhtml == e.slash.Some? && LastKey(r) == Entered([], attrs)
  {
    var R := RunFollows(s);
    r := R(Start(n));
    if n.xhtml {
      EndTakes(s, R, Start(n), [], true, e);
    } else if !n.tagEnded {
      var m := AttrsTake(s, R, Start(n), [], attrs);
      EndTakes(s, R, m, Entered([], attrs), false, e);
    }
  }

  // ---------------------------------------------------------------------
  // Values and keys
  // ---------------------------------------------------------------------

  function HasAlphaKey(): Attr -> bool {
    (a: Attr) => AllAlpha(a.0)
  }

  /** `d'` has the alphabetic keys of `d`, in order, with their values unescaped. */
  ghost predicate Cleaned(lib: Library, d: Attrs, d': Attrs) {
    var kept := Lists.Filter(d, HasAlphaKey());
    && |d'| == |kept|
    && forall i :: 0 <= i < |d'| ==>
         && d'[i].0 == kept[i].0
         && match kept[i].1
            case None => d'[i].1 == None
            case Some(v) => d'[i].1.Some? && Unescaped(lib, v) == Success(d'[i].1.value)
  }

  lemma EmptyUnescaped(lib: Library)
    ensures Unescaped(lib, "") == Success("")
  {
    assert Split("", '&')[1..] == [] && "" + "" == "";
  }

  /** Some value is a text that cannot be unescaped. */
  ghost predicate HasBadValue(lib: Library, d: Attrs) {
    exists i :: 0 <= i < |d| && d[i].1.Some? && Unescaped(lib, d[i].1.value).Failure?
  }

  lemma BadLast(lib: Library, d: Attrs, a: Attr)
    ensures HasBadValue(lib, d + [a])
       <==> HasBadValue(lib, d) || (a.1.Some? && Unescaped(lib, a.1.value).Failure?)
  {
    var all := d + [a];
    assert all[|d|] == a;
    if i :| 0 <= i < |d| && d[i].1.Some? && Unescaped(lib, d[i].1.value).Failure? {
      assert all[i] == d[i];
    }
  }

  lemma {:induction false} CleanIs(lib: Library, d: Attrs)
    ensures Clean(lib, d).Failure? <==> HasBadValue(lib, d)
    ensures Clean(lib, d).Success? ==> Cleaned(lib, d, Clean(lib, d).value)
  {
    EmptyUnescaped(lib);
    if d != [] {
      var n := |d| - 1;
      CleanIs(lib, d[..n]);
      Lists.FilterNext(d, n, HasAlphaKey());
      assert d[..n + 1] == d && d == d[..n] + [d[n]];
      BadLast(lib, d[..n], d[n]);
    }
  }

  /**
   * What scanning is to give for the spelled attributes: the name in lower
   * case, the flag, the dict cleaned, and the index past the tag, unless some
   * value cannot be unescaped.
   */
  ghost predicate Means(lib: Library, r: Result<Tag, Error>, tag: string, attrs: seq<Spelled>, e: End, next: nat) {
    var d := Entered([], attrs);
    && (r.Failure? <==> HasBadValue(lib, d))
    && (r.Success? ==>
          && r.value.name == lib.lower(tag) && r.value.xhtml == e.slash.Some? && r.value.next == next
          && Cleaned(lib, d, r.value.d))
  }

  lemma ParseStands(lib: Library, s: string, tag: string, attrs: seq<Spelled>, e: End)
    requires Stands(s, tag, attrs, e) && tag != "" && NameChars(tag, true) && AllProper(attrs) && ProperEnd(e)
    ensures Means(lib, Parse(lib, s, 1), tag, attrs, e, 1 + |tag| + |AttrsText(attrs)| + |EndText(e)|)
  {
    var n := NameEnds(s, tag, attrs, e);
    var r := TagEnds(s, tag, attrs, e, n);
    CleanIs(lib, Entered([], attrs));
  }

  lemma Layout(tag: string, attrs: string, end: string, suffix: string)
    ensures
      var s := "<" + (tag + (attrs + end)) + suffix;
      At(s, 1, tag) && At(s, 1 + |tag|, attrs) && At(s, 1 + |tag| + |attrs|, end)
  {
    var s := "<" + (tag + (attrs + end)) + suffix;
    assert s == "<" + (tag + (attrs + (end + suffix)));
    assert s[0..0 + |s|] == s;
    AtParts(s, 0, "<", tag + (attrs + (end + suffix)));
    AtParts(s, 1, tag, attrs + (end + suffix));
    AtParts(s, 1 + |tag|, attrs, end + suffix);
    AtParts(s, 1 + |tag| + |attrs|, end, suffix);
  }

  /**
   * Scanning a tag whose attributes are spelled in any way, with any text
   * behind it, gives its name in lower case, its flag, its alphabetic
   * attributes in order with their values unescaped, and the index just past
   * it; and it fails if and only if some value cannot be unescaped.
   */
  lemma SpelledTagParses(lib: Library, tag: string, attrs: seq<Spelled>, e: End, suffix: string)
    requires tag != "" && NameChars(tag, true) && AllProper(attrs) && ProperEnd(e)
    ensures Means(lib, Parse(lib, TagText(tag, attrs, e) + suffix, 1), tag, attrs, e, |TagText(tag, attrs, e)|)
  {
    Layout(tag, AttrsText(attrs), EndText(e), suffix);
    ParseStands(lib, TagText(tag, attrs, e) + suffix, tag, attrs, e);
  }

  /** In front of the name spaces and '<' do not matter, so it may start at the bracket too. */
  lemma FrontSkipped(lib: Library, s: string, x: nat)
    requires x < |s| && (s[x] == '<' || IsSpace(s[x]))
    ensures Parse(lib, s, x) == Parse(lib, s, x + 1)
  {
    assert NameStep(s, Name(x, "", false, false, false)) == Name(x + 1, "", false, false, false);
  }

  // ---------------------------------------------------------------------
  // Any text
  // ---------------------------------------------------------------------

  lemma StepDistinct(s: string, n: Scan)
    requires n.x < |s| && !n.ended && Distinct(n.d)
    ensures Distinct(Step(s, n).d)
  {
    if Step(s, n).d != n.d {
      var v := if n.mode == WFV then None else Some(n.value);
      SetDistinct(n.d, n.key, v);
      SetDistinct(n.d, n.key, Some(s[n.x..Find(s, '\'', n.x)]));
      SetDistinct(n.d, n.key, Some(s[n.x..Find(s, '"', n.x)]));
    }
  }

  lemma {:induction false} RunDistinct(s: string, n: Scan)
    requires Distinct(n.d)
    ensures Distinct(Run(s, n).d)
    decreases !n.ended, |s| - n.x
  {
    if !n.ended && n.x < |s| {
      StepDistinct(s, n);
      RunDistinct(s, Step(s, n));
    }
  }

  lemma LastDistinct(n: Scan)
    requires Distinct(n.d)
    ensures Distinct(LastKey(n))
  {
    SetDistinct(n.d, n.key, None);
    SetDistinct(n.d, n.key, Some(n.value));
  }

  lemma {:induction false} CleanDistinct(lib: Library, d: Attrs)
    requires Distinct(d) && Clean(lib, d).Success?
    ensures Distinct(Clean(lib, d).value)
    ensures forall i :: 0 <= i < |Clean(lib, d).value| ==>
      AllAlpha(Clean(lib, d).value[i].0) && exists j :: 0 <= j < |d| && d[j].0 == Clean(lib, d).value[i].0
  {
    if d != [] {
      CleanDistinct(lib, d[..|d| - 1]);
    }
  }

  /** Whatever is scanned, keys that come out are alphabetic and none comes twice. */
  lemma ParsedKeys(lib: Library, s: string, x: nat)
    requires Parse(lib, s, x).Success?
    ensures var d := Parse(lib, s, x).value.d; Distinct(d) && forall i :: 0 <= i < |d| ==> AllAlpha(d[i].0)
  {
    var n := NameRun(s, Name(x, "", false, false, false));
    RunDistinct(s, Start(n));
    LastDistinct(Run(s, Start(n)));
    CleanDistinct(lib, LastKey(Run(s, Start(n))));
  }
}
