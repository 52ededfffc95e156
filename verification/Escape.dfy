/** Escaping attribute values (html_tools/escape.py) and taking it back (Unescape.py). */
module Escape {
  import opened Strings
  import opened Wrappers

  /** For `param="..."`. */
  function EscQ(s: string): string {
    Replace(Replace(Replace(Replace(s, '&', "&amp;"), '"', "&quot;"), '<', "&#60;"), '>', "&#62;")
  }

  /** For `param='...'`. */
  function EscP(s: string): string {
    Replace(Replace(Replace(Replace(s, '&', "&amp;"), '\'', "&#39;"), '<', "&#60;"), '>', "&#62;")
  }

  // ---------------------------------------------------------------------
  // The chains of replacements are maps over the characters
  // ---------------------------------------------------------------------

  function QChar(c: char): string {
    if c == '&' then "&amp;" else if c == '"' then "&quot;"
    else if c == '<' then "&#60;" else if c == '>' then "&#62;" else [c]
  }

  function PChar(c: char): string {
    if c == '&' then "&amp;" else if c == '\'' then "&#39;"
    else if c == '<' then "&#60;" else if c == '>' then "&#62;" else [c]
  }

  function MapChars(s: string, f: char -> string): string {
    if s == "" then "" else f(s[0]) + MapChars(s[1..], f)
  }

  /** `s` goes through a chain of three replacements that leave it alone. */
  lemma Untouched(s: string, c1: char, t1: string, c2: char, t2: string, c3: char, t3: string)
    requires c1 !in s && c2 !in s && c3 !in s
    ensures Replace(Replace(Replace(s, c1, t1), c2, t2), c3, t3) == s
  {
    ReplaceAbsent(s, c1, t1);
    ReplaceAbsent(s, c2, t2);
    ReplaceAbsent(s, c3, t3);
  }

  lemma Chain4Append(a: string, b: string, q: char, t: string)
    ensures
      Replace(Replace(Replace(Replace(a + b, '&', "&amp;"), q, t), '<', "&#60;"), '>', "&#62;")
      == Replace(Replace(Replace(Replace(a, '&', "&amp;"), q, t), '<', "&#60;"), '>', "&#62;")
       + Replace(Replace(Replace(Replace(b, '&', "&amp;"), q, t), '<', "&#60;"), '>', "&#62;")
  {
    ReplaceAppend(a, b, '&', "&amp;");
    var a1, b1 := Replace(a, '&', "&amp;"), Replace(b, '&', "&amp;");
    ReplaceAppend(a1, b1, q, t);
    var a2, b2 := Replace(a1, q, t), Replace(b1, q, t);
    ReplaceAppend(a2, b2, '<', "&#60;");
    ReplaceAppend(Replace(a2, '<', "&#60;"), Replace(b2, '<', "&#60;"), '>', "&#62;");
  }

  lemma ReplaceChar(c: char, d: char, t: string)
    ensures Replace([c], d, t) == if c == d then t else [c]
  {
    assert [c][1..] == "";
  }

  lemma QCharIsChain(c: char)
    ensures EscQ([c]) == QChar(c)
  {
    ReplaceChar(c, '&', "&amp;");
    if c == '&' {
      Untouched("&amp;", '"', "&quot;", '<', "&#60;", '>', "&#62;");
    } else {
      OtherChar(c, '"', "&quot;");
    }
  }

  /** A character other than '&' in a chain whose second step is `q` to `t`. */
  lemma OtherChar(c: char, q: char, t: string)
    requires c != '&' && q != '<' && q != '>'
    requires '<' !in t && '>' !in t
    ensures Replace(Replace(Replace([c], q, t), '<', "&#60;"), '>', "&#62;")
         == if c == q then t else if c == '<' then "&#60;" else if c == '>' then "&#62;" else [c]
  {
    ReplaceChar(c, q, t);
    if c == q {
      ReplaceAbsent(t, '<', "&#60;");
      ReplaceAbsent(t, '>', "&#62;");
    } else {
      ReplaceChar(c, '<', "&#60;");
      ReplaceChar(c, '>', "&#62;");
      ReplaceAbsent("&#60;", '>', "&#62;");
    }
  }

  lemma PCharIsChain(c: char)
    ensures EscP([c]) == PChar(c)
  {
    ReplaceChar(c, '&', "&amp;");
    if c == '&' {
      Untouched("&amp;", '\'', "&#39;", '<', "&#60;", '>', "&#62;");
    } else {
      OtherChar(c, '\'', "&#39;");
    }
  }

  /** Although '&' is replaced first and the replacements contain '&', no character is escaped twice. */
  lemma {:induction false} EscQIsMap(s: string)
    ensures EscQ(s) == MapChars(s, QChar)
  {
    if s != "" {
      assert s == [s[0]] + s[1..];
      Chain4Append([s[0]], s[1..], '"', "&quot;");
      QCharIsChain(s[0]);
      EscQIsMap(s[1..]);
    }
  }

  lemma {:induction false} EscPIsMap(s: string)
    ensures EscP(s) == MapChars(s, PChar)
  {
    if s != "" {
      assert s == [s[0]] + s[1..];
      Chain4Append([s[0]], s[1..], '\'', "&#39;");
      PCharIsChain(s[0]);
      EscPIsMap(s[1..]);
    }
  }

  /** No raw double quote and no angle bracket is left. */
  lemma {:induction false} EscQIsSafe(s: string)
    ensures '"' !in EscQ(s) && '<' !in EscQ(s) && '>' !in EscQ(s)
  {
    EscQIsMap(s);
    if s != "" {
      EscQIsSafe(s[1..]);
      EscQIsMap(s[1..]);
    }
  }

  lemma {:induction false} EscPIsSafe(s: string)
    ensures '\'' !in EscP(s) && '<' !in EscP(s) && '>' !in EscP(s)
  {
    EscPIsMap(s);
    if s != "" {
      EscPIsSafe(s[1..]);
      EscPIsMap(s[1..]);
    }
  }

  // ---------------------------------------------------------------------
  // Unescaping
  // ---------------------------------------------------------------------

  /** What the code takes from Python: lower-casing, the entity table, digits, numbers and characters. */
  datatype Library = Library(
    lower: string -> string,
    entities: map<string, string>,
    isDigit: string -> bool,
    decimal: string -> Option<nat>,   // `int(s)`, which rejects some of the digits that `isdigit` accepts
    chr: nat -> Option<string>)       // `chr(n)`, which ends at 0x10ffff
  {
    /** The few facts about it that matter here; references as in section 5.3 of HTML 4.01. */
    ghost predicate Sound() {
      && (forall n {:trigger lower(n)} :: n in {"amp", "quot", "#60", "#62", "#39"} ==> lower(n) == n)
      && "amp" in entities && entities["amp"] == "&"
      && "quot" in entities && entities["quot"] == "\""
      && (forall n :: n in entities ==> '#' !in n)
      && isDigit("60") && isDigit("62") && isDigit("39")
      && decimal("60") == Some(60) && decimal("62") == Some(62) && decimal("39") == Some(39)
      && chr(60) == Some("<") && chr(62) == Some(">") && chr(39) == Some("'")
    }
  }

  const HEX_DIGITS: string := "1234567890ABCDEFabcdef"

  predicate AllHex(s: string) {
    s != "" && forall i :: 0 <= i < |s| ==> s[i] in HEX_DIGITS
  }

  method IsHex(s: string) returns (r: bool)
    ensures r == AllHex(s)
  {
    if s == "" {
      return false;
    }
    for i := 0 to |s|
      invariant forall j :: 0 <= j < i ==> s[j] in HEX_DIGITS
    {
      if s[i] !in HEX_DIGITS {
        return false;
      }
    }
    return true;
  }

  function HexDigit(c: char): nat {
    if '0' <= c <= '9' then (c - '0') as int
    else if 'a' <= c <= 'f' then (c - 'a') as int + 10
    else if 'A' <= c <= 'F' then (c - 'A') as int + 10
    else 0
  }

  function HexValue(s: string): nat {
    if s == "" then 0 else HexValue(s[..|s| - 1]) * 16 + HexDigit(s[|s| - 1])
  }

  /** `int` raises the first, `w_unichr` the second: its fallback builds a literal that does not compile. */
  datatype Error = ValueError | SyntaxError

  type Text = Result<string, Error>

  /** `t` in front of a text, if there is one. */
  function Prefixed(t: string, r: Text): Text {
    match r
    case Success(text) => Success(t + text)
    case Failure(_) => r
  }

  lemma PrefixedEmpty(r: Text)
    ensures Prefixed("", r) == r
  {
    if r.Success? {
      assert "" + r.value == r.value;
    }
  }

  lemma PrefixedTwice(a: string, b: string, r: Text)
    ensures Prefixed(a, Prefixed(b, r)) == Prefixed(a + b, r)
  {
    if r.Success? {
      Assoc(a, b, r.value);
    }
  }

  /** `w_unichr(n)` */
  function Character(lib: Library, n: nat): Result<Option<string>, Error> {
    match lib.chr(n)
    case Some(c) => Success(Some(c))
    case None => Failure(SyntaxError)
  }

  /** The character that a reference stands for; None if it is no reference. */
  function Meaning(lib: Library, head: string): Result<Option<string>, Error> {
    if lib.lower(head) in lib.entities then Success(Some(lib.entities[lib.lower(head)]))
    else if head != "" && head[0] == '#' && lib.isDigit(head[1..]) then
      match lib.decimal(head[1..])
      case Some(n) => Character(lib, n)
      case None => Failure(ValueError)
    else if |head| >= 2 && head[0] == '#' && lib.lower(head[1..2]) == "x" && AllHex(head[2..]) then
      Character(lib, HexValue(head[2..]))
    else Success(None)
  }

  /** A piece after an '&': a reference up to ';' and the rest, or just text. */
  function Decode(lib: Library, piece: string): Text {
    var parts := Split(piece, ';');
    match Meaning(lib, parts[0])
    case Success(Some(c)) => Success(c + Join(parts[1..], ';'))
    case Success(None) => Success("&" + Join(parts, ';'))
    case Failure(e) => Failure(e)
  }

  /** The pieces in order, up to the first that raises. */
  function DecodeAll(lib: Library, pieces: seq<string>): Text {
    if pieces == [] then Success("")
    else
      match Decode(lib, pieces[0])
      case Success(text) => Prefixed(text, DecodeAll(lib, pieces[1..]))
      case Failure(e) => Failure(e)
  }

  function Unescaped(lib: Library, s: string): Text {
    var pieces := Split(s, '&');
    Prefixed(pieces[0], DecodeAll(lib, pieces[1..]))
  }

  /** One text behind another, unless the first or else the second raised. */
  function Both(a: Text, b: Text): Text {
    match a
    case Success(text) => Prefixed(text, b)
    case Failure(_) => a
  }

  lemma {:induction false} DecodeAllPush(lib: Library, pieces: seq<string>, piece: string)
    ensures DecodeAll(lib, pieces + [piece]) == Both(DecodeAll(lib, pieces), Decode(lib, piece))
  {
    if pieces == [] {
      var r := Decode(lib, piece);
      PrefixedEmpty(r);
      assert pieces + [piece] == [piece] && [piece][1..] == [];
      if r.Success? {
        assert r.value + "" == r.value;
      }
    } else {
      var rest := pieces[1..];
      assert (pieces + [piece])[1..] == rest + [piece];
      DecodeAllPush(lib, rest, piece);
      if Decode(lib, pieces[0]).Success? && DecodeAll(lib, rest).Success? {
        PrefixedTwice(Decode(lib, pieces[0]).value, DecodeAll(lib, rest).value, Decode(lib, piece));
      }
    }
  }

  /** One turn of the loop, for a piece that follows an '&'. */
  method DecodePiece(lib: Library, piece: string) returns (item: Text)
    ensures item == Decode(lib, piece)
  {
    var parts := Split(piece, ';');
    var meaning := Meant(lib, parts[0]);
    match meaning
    case Success(Some(c)) => return Success(c + Join(parts[1..], ';'));
    case Success(None) => return Success("&" + Join(parts, ';'));
    case Failure(e) => return Failure(e);
  }

  method Meant(lib: Library, head: string) returns (r: Result<Option<string>, Error>)
    ensures r == Meaning(lib, head)
  {
    if lib.lower(head) in lib.entities {
      return Success(Some(lib.entities[lib.lower(head)]));
    }
    if head != "" && head[0] == '#' {
      if lib.isDigit(head[1..]) {
        var n := lib.decimal(head[1..]);
        if n.None? {
          return Failure(ValueError);
        }
        return Character(lib, n.value);
      }
      if |head| >= 2 && lib.lower(head[1..2]) == "x" {
        var hex := IsHex(head[2..]);
        if hex {
          return Character(lib, HexValue(head[2..]));
        }
      }
    }
    return Success(None);
  }

  /** The text of the first `n` pieces. */
  function DecodedPrefix(lib: Library, pieces: seq<string>, n: nat): Text
    requires n <= |pieces|
  {
    if n == 0 then Success("") else Prefixed(pieces[0], DecodeAll(lib, pieces[1..n]))
  }

  lemma DecodedNext(lib: Library, pieces: seq<string>, n: nat)
    requires n < |pieces|
    ensures DecodedPrefix(lib, pieces, n + 1)
         == Both(DecodedPrefix(lib, pieces, n), if n == 0 then Success(pieces[0]) else Decode(lib, pieces[n]))
  {
    if n > 0 {
      var front := pieces[1..n];
      assert pieces[1..n + 1] == front + [pieces[n]];
      DecodeAllPush(lib, front, pieces[n]);
      if DecodeAll(lib, front).Success? {
        PrefixedTwice(pieces[0], DecodeAll(lib, front).value, Decode(lib, pieces[n]));
      }
    } else {
      assert pieces[1..1] == [];
      assert pieces[0] + "" == pieces[0] && "" + pieces[0] == pieces[0];
    }
  }

  lemma {:induction false} DecodeAllFails(lib: Library, pieces: seq<string>, n: nat)
    requires n < |pieces| && DecodeAll(lib, pieces[..n]).Success? && Decode(lib, pieces[n]).Failure?
    ensures DecodeAll(lib, pieces) == Decode(lib, pieces[n])
  {
    if n > 0 {
      assert pieces[..n][1..] == pieces[1..][..n - 1];
      DecodeAllFails(lib, pieces[1..], n - 1);
    }
  }

  method Unescape(lib: Library, s: string) returns (r: Text)
    ensures r == Unescaped(lib, s)
  {
    var pieces := Split(s, '&');
    var L: seq<string> := [];
    for xx := 0 to |pieces|
      invariant DecodedPrefix(lib, pieces, xx) == Success(Concat(L))
    {
      var item: Text := Success(pieces[xx]);
      if xx > 0 {
        item := DecodePiece(lib, pieces[xx]);
        if item.Failure? {
          assert pieces[1..xx] == pieces[1..][..xx - 1];
          DecodeAllFails(lib, pieces[1..], xx - 1);
          return item;
        }
      }
      DecodedNext(lib, pieces, xx);
      ConcatPush(L, item.value);
      L := L + [item.value];
    }
    r := Success(Concat(L));
    assert pieces[1..|pieces|] == pieces[1..];
  }

  // ---------------------------------------------------------------------
  // When unescaping raises
  // ---------------------------------------------------------------------

  /** What stands behind an '&', up to the next '&' or ';'. */
  function Reference(s: string): string {
    Split(Split(s, '&')[0], ';')[0]
  }

  /** A number, decimal or hexadecimal, for which there is no character. */
  predicate NoCharacter(lib: Library, head: string) {
    && lib.lower(head) !in lib.entities
    && head != "" && head[0] == '#'
    && if lib.isDigit(head[1..]) then
         lib.decimal(head[1..]).None? || lib.chr(lib.decimal(head[1..]).value).None?
       else
         |head| >= 2 && lib.lower(head[1..2]) == "x" && AllHex(head[2..]) && lib.chr(HexValue(head[2..])).None?
  }

  /** Behind an '&' in `s` stands such a number. */
  ghost predicate Raises(lib: Library, s: string) {
    exists k :: 0 <= k < |s| && s[k] == '&' && NoCharacter(lib, Reference(s[k + 1..]))
  }

  lemma RaisesBehind(lib: Library, c: char, t: string)
    ensures Raises(lib, [c] + t) <==> (c == '&' && NoCharacter(lib, Reference(t))) || Raises(lib, t)
  {
    var s := [c] + t;
    assert s[0] == c && s[0 + 1..] == t;
    if k :| 0 <= k < |t| && t[k] == '&' && NoCharacter(lib, Reference(t[k + 1..])) {
      assert s[k + 1] == '&' && s[k + 1 + 1..] == t[k + 1..];
    }
    if k :| 0 <= k < |s| && s[k] == '&' && NoCharacter(lib, Reference(s[k + 1..])) {
      assert k > 0 ==> t[k - 1] == '&' && t[k - 1 + 1..] == s[k + 1..];
    }
  }

  /** Unescaping raises if and only if an '&' is followed by a number for which there is no character. */
  lemma {:induction false} RaisesIff(lib: Library, s: string)
    ensures Unescaped(lib, s).Failure? <==> Raises(lib, s)
  {
    if s != "" {
      var c, t := s[0], s[1..];
      RaisesIff(lib, t);
      RaisesBehind(lib, c, t);
      assert s == [c] + t;
      if c == '&' {
        UnescapedAmp(lib, t);
      } else {
        UnescapePlain(lib, c, t);
      }
    }
  }

  // ---------------------------------------------------------------------
  // What a text unescapes to
  // ---------------------------------------------------------------------

  lemma UnescapePlain(lib: Library, c: char, t: string)
    requires c != '&'
    ensures Unescaped(lib, [c] + t) == Prefixed([c], Unescaped(lib, t))
  {
    var s, pieces := [c] + t, Split(t, '&');
    assert s[1..] == t;
    assert Split(s, '&')[1..] == pieces[1..];
    PrefixedTwice([c], pieces[0], DecodeAll(lib, pieces[1..]));
  }

  lemma UnescapedAmp(lib: Library, body: string)
    ensures Unescaped(lib, "&" + body) == DecodeAll(lib, Split(body, '&'))
  {
    var s := "&" + body;
    assert s[1..] == body;
    assert Split(s, '&')[1..] == Split(body, '&');
    PrefixedEmpty(DecodeAll(lib, Split(body, '&')));
  }

  /** What `m` makes of "&" and the text `raw`, in front of the text `r`. */
  function Decoded(m: Result<Option<string>, Error>, raw: string, r: Text): Text {
    match m
    case Success(Some(c)) => Prefixed(c, r)
    case Success(None) => Prefixed("&" + raw, r)
    case Failure(e) => Failure(e)
  }

  lemma DecodeFirst(lib: Library, first: string, m: Result<Option<string>, Error>, raw: string, t: string)
    requires '&' !in first
    requires Decode(lib, first + Split(t, '&')[0]) == Decoded(m, raw, Success(Split(t, '&')[0]))
    ensures Unescaped(lib, "&" + (first + t)) == Decoded(m, raw, Unescaped(lib, t))
  {
    var pieces := Split(t, '&');
    var rest := pieces[1..];
    UnescapedAmp(lib, first + t);
    SplitAfter(first, t, '&');
    assert ([first + pieces[0]] + rest)[1..] == rest;
    match m
    case Success(Some(c)) => PrefixedTwice(c, pieces[0], DecodeAll(lib, rest));
    case Success(None) => PrefixedTwice("&" + raw, pieces[0], DecodeAll(lib, rest));
    case Failure(_) =>
  }

  /** An '&', what stands up to a ';', and the text behind that. */
  lemma UnescapeClosed(lib: Library, head: string, t: string)
    requires '&' !in head && ';' !in head
    ensures Unescaped(lib, "&" + (head + ";" + t)) == Decoded(Meaning(lib, head), head + ";", Unescaped(lib, t))
  {
    var rest := Split(t, '&')[0];
    SplitPrefix(head, rest, ';');
    JoinSplit(rest, ';');
    assert Split(head + ";" + rest, ';')[1..] == Split(rest, ';');
    JoinSplit(head + ";" + rest, ';');
    Assoc("&", head + ";", rest);
    DecodeFirst(lib, head + ";", Meaning(lib, head), head + ";", t);
  }

  /** The same without a ';', in front of the next '&' or at the end. */
  lemma UnescapeOpen(lib: Library, head: string, t: string)
    requires '&' !in head && ';' !in head && (t == "" || t[0] == '&')
    ensures Unescaped(lib, "&" + (head + t)) == Decoded(Meaning(lib, head), head, Unescaped(lib, t))
  {
    SplitAbsent(head, ';');
    assert Split(t, '&')[0] == "" && head + "" == head;
    assert [head][1..] == [];
    assert Join([head], ';') == head && "&" + head + "" == "&" + head;
    DecodeFirst(lib, head, Meaning(lib, head), head, t);
  }

  /** No '&' has a reference behind it. */
  ghost predicate NoReferences(lib: Library, s: string) {
    forall k :: 0 <= k < |s| && s[k] == '&' ==> Meaning(lib, Reference(s[k + 1..])) == Success(None)
  }

  /** A text without references, such as "R&D", stays as it is. */
  lemma {:induction false} TextStays(lib: Library, s: string)
    requires NoReferences(lib, s)
    ensures Unescaped(lib, s) == Success(s)
  {
    if s == "" {
      assert Split("", '&')[1..] == [] && "" + "" == "";
    } else {
      var c, t := s[0], s[1..];
      assert s == [c] + t;
      forall k | 0 <= k < |t| && t[k] == '&' ensures Meaning(lib, Reference(t[k + 1..])) == Success(None) {
        assert s[k + 1] == '&' && s[k + 1 + 1..] == t[k + 1..];
      }
      TextStays(lib, t);
      if c == '&' {
        assert s[0 + 1..] == t;
        AmpStays(lib, t);
      } else {
        UnescapePlain(lib, c, t);
      }
    }
  }

  lemma AmpStays(lib: Library, t: string)
    requires Meaning(lib, Reference(t)) == Success(None)
    ensures Unescaped(lib, "&" + t) == Prefixed("&", Unescaped(lib, t))
  {
    var pieces := Split(t, '&');
    UnescapedAmp(lib, t);
    JoinSplit(pieces[0], ';');
    PrefixedTwice("&", pieces[0], DecodeAll(lib, pieces[1..]));
  }

  // ---------------------------------------------------------------------
  // References
  // ---------------------------------------------------------------------

  /** The digits of `n` to the base 16, from the table `digits`. */
  function Hex(n: nat, digits: string): string
    requires |digits| == 16
  {
    if n < 16 then [digits[n]] else Hex(n / 16, digits) + [digits[n % 16]]
  }

  const LOWER_HEX: string := "0123456789abcdef"
  const UPPER_HEX: string := "0123456789ABCDEF"

  lemma DigitOf(d: nat)
    requires d < 16
    ensures HexDigit(LOWER_HEX[d]) == d && LOWER_HEX[d] in HEX_DIGITS
    ensures HexDigit(UPPER_HEX[d]) == d && UPPER_HEX[d] in HEX_DIGITS
  {
  }

  lemma {:induction false} HexOf(n: nat, digits: string)
    requires digits == LOWER_HEX || digits == UPPER_HEX
    ensures AllHex(Hex(n, digits)) && HexValue(Hex(n, digits)) == n
  {
    var q, d := n / 16, n % 16;
    DigitOf(d);
    if n < 16 {
      assert Hex(n, digits)[..0] == "";
    } else {
      HexOf(q, digits);
      HexPush(Hex(q, digits), digits[d]);
      assert Hex(n, digits) == Hex(q, digits) + [digits[d]];
    }
  }

  lemma HexPush(s: string, c: char)
    requires AllHex(s) && c in HEX_DIGITS
    ensures AllHex(s + [c]) && HexValue(s + [c]) == HexValue(s) * 16 + HexDigit(c)
  {
    assert (s + [c])[..|s|] == s;
  }

  /** "#x", in either case, and the hexadecimal digits of a number mean its character. */
  lemma HexMeans(lib: Library, n: nat, digits: string, x: char)
    requires digits == LOWER_HEX || digits == UPPER_HEX
    requires lib.lower([x]) == "x" && !lib.isDigit([x] + Hex(n, digits))
    requires lib.lower("#" + [x] + Hex(n, digits)) !in lib.entities
    ensures Meaning(lib, "#" + [x] + Hex(n, digits))
         == if lib.chr(n).Some? then Success(Some(lib.chr(n).value)) else Failure(SyntaxError)
  {
    HexOf(n, digits);
    HexHead(lib, Hex(n, digits), x);
  }

  lemma HexHead(lib: Library, h: string, x: char)
    requires AllHex(h) && lib.lower([x]) == "x" && !lib.isDigit([x] + h) && lib.lower("#" + [x] + h) !in lib.entities
    ensures Meaning(lib, "#" + [x] + h) == Character(lib, HexValue(h))
  {
    var head := "#" + [x] + h;
    assert head[1..] == [x] + h && head[1..2] == [x] && head[2..] == h;
  }

  /** `digits` is the number of the character `c`. */
  ghost predicate Numbers(lib: Library, digits: string, c: string) {
    && lib.isDigit(digits)
    && lib.decimal(digits).Some?
    && lib.chr(lib.decimal(digits).value) == Some(c)
    && lib.lower("#" + digits) !in lib.entities
  }

  lemma NumberMeans(lib: Library, digits: string, c: string)
    requires Numbers(lib, digits, c)
    ensures Meaning(lib, "#" + digits) == Success(Some(c))
  {
    assert ("#" + digits)[1..] == digits;
  }

  lemma NameMeans(lib: Library, name: string)
    requires lib.lower(name) in lib.entities
    ensures Meaning(lib, name) == Success(Some(lib.entities[lib.lower(name)]))
  {
  }

  /** What is no entity and does not begin with '#' means nothing, and neither does '#' without a number behind it. */
  lemma OtherMeansNothing(lib: Library, head: string)
    requires lib.lower(head) !in lib.entities
    requires head == "" || head[0] != '#'
      || (!lib.isDigit(head[1..]) && (|head| < 3 || lib.lower(head[1..2]) != "x"
                                      || exists i :: 2 <= i < |head| && head[i] !in "0123456789ABCDEFabcdef"))
    ensures Meaning(lib, head) == Success(None)
  {
    if i :| 2 <= i < |head| && head[i] !in "0123456789ABCDEFabcdef" {
      assert head[2..][i - 2] == head[i];
    }
  }

  // ---------------------------------------------------------------------
  // Unescaping inverts both escapes
  // ---------------------------------------------------------------------

  lemma UnescapeNamed(lib: Library, name: string, t: string)
    requires '&' !in name && ';' !in name && lib.lower(name) in lib.entities
    ensures Unescaped(lib, "&" + (name + ";" + t)) == Prefixed(lib.entities[lib.lower(name)], Unescaped(lib, t))
  {
    NameMeans(lib, name);
    UnescapeClosed(lib, name, t);
  }

  lemma UnescapeNumbered(lib: Library, digits: string, c: string, t: string)
    requires '&' !in digits && ';' !in digits && Numbers(lib, digits, c)
    ensures Unescaped(lib, "&" + ("#" + digits + ";" + t)) == Prefixed(c, Unescaped(lib, t))
  {
    NumberMeans(lib, digits, c);
    UnescapeClosed(lib, "#" + digits, t);
  }

  lemma NotAnEntity(lib: Library, name: string)
    requires lib.Sound() && name in {"#60", "#62", "#39"}
    ensures lib.lower(name) !in lib.entities
  {
    assert name[0] == '#';
  }

  lemma UnescapeEscapedChar(lib: Library, c: char, e: string, t: string)
    requires lib.Sound() && e in {QChar(c), PChar(c)}
    ensures Unescaped(lib, e + t) == Prefixed([c], Unescaped(lib, t))
  {
    if e == [c] {
      UnescapePlain(lib, c, t);
    } else if c == '&' {
      assert "&" + ("amp" + ";" + t) == e + t;
      UnescapeNamed(lib, "amp", t);
    } else if c == '"' {
      assert "&" + ("quot" + ";" + t) == e + t;
      UnescapeNamed(lib, "quot", t);
    } else if c == '<' {
      assert "&" + ("#" + "60" + ";" + t) == e + t;
      NotAnEntity(lib, "#60");
      assert "#" + "60" == "#60";
      UnescapeNumbered(lib, "60", "<", t);
    } else if c == '>' {
      assert "&" + ("#" + "62" + ";" + t) == e + t;
      NotAnEntity(lib, "#62");
      assert "#" + "62" == "#62";
      UnescapeNumbered(lib, "62", ">", t);
    } else {
      assert "&" + ("#" + "39" + ";" + t) == e + t;
      NotAnEntity(lib, "#39");
      assert "#" + "39" == "#39";
      UnescapeNumbered(lib, "39", "'", t);
    }
  }

  /** Unescaping takes back `esc_q`, for every string. */
  lemma {:induction false} UnescapeEscQ(lib: Library, v: string)
    requires lib.Sound()
    ensures Unescaped(lib, EscQ(v)) == Success(v)
  {
    EscQIsMap(v);
    if v == "" {
      assert Split("", '&')[1..] == [] && "" + "" == "";
    } else {
      EscQIsMap(v[1..]);
      UnescapeEscQ(lib, v[1..]);
      UnescapeEscapedChar(lib, v[0], QChar(v[0]), EscQ(v[1..]));
      assert [v[0]] + v[1..] == v;
    }
  }

  /** Unescaping takes back `esc_p`, for every string. */
  lemma {:induction false} UnescapeEscP(lib: Library, v: string)
    requires lib.Sound()
    ensures Unescaped(lib, EscP(v)) == Success(v)
  {
    EscPIsMap(v);
    if v == "" {
      assert Split("", '&')[1..] == [] && "" + "" == "";
    } else {
      EscPIsMap(v[1..]);
      UnescapeEscP(lib, v[1..]);
      UnescapeEscapedChar(lib, v[0], PChar(v[0]), EscP(v[1..]));
      assert [v[0]] + v[1..] == v;
    }
  }
}
