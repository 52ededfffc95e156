/** Scanning a printed tag gives the tag back, whatever text follows it. */
module HtmlRoundTrip {
  import opened Dicts
  import opened Escape
  import opened HtmlSpellings
  import opened HtmlTags
  import Lists
  import opened Wrappers

  /** A name that survives: not empty, in lower case, '/' at most in front. */
  ghost predicate ValidName(lib: Library, tag: string) {
    tag != "" && NameChars(tag, true) && lib.lower(tag) == tag
  }

  predicate ValidKeys(d: Attrs) {
    forall i :: 0 <= i < |d| ==> d[i].0 != "" && AllAlpha(d[i].0)
  }

  // ---------------------------------------------------------------------
  // The printer's spelling
  // ---------------------------------------------------------------------

  /** How the printer spells an attribute: one space, no other, double quotes, and the value escaped. */
  function Spelling(a: Attr): Spelled {
    match a.1
    case Some(v) => Quoted(" ", a.0, "", "", '"', EscQ(v))
    case None => Bare(" ", a.0)
  }

  function Spellings(d: Attrs): (r: seq<Spelled>)
    ensures |r| == |d| && forall i :: 0 <= i < |d| ==> r[i] == Spelling(d[i])
  {
    if d == [] then [] else [Spelling(d[0])] + Spellings(d[1..])
  }

  function EndOf(xhtml: bool): End {
    if xhtml then End(" ", Some("")) else End("", None)
  }

  lemma SpellingIsPrint(a: Attr)
    ensures AttrText(Spelling(a)) == PrintAttr(a)
  {
    if a.1.Some? {
      QuotedIsPrint(a.0, EscQ(a.1.value));
    }
  }

  lemma QuotedIsPrint(k: string, v: string)
    ensures " " + (k + ("" + ("=" + ("" + (['"'] + (v + ['"'])))))) == " " + k + "=\"" + v + "\""
  {
  }

  lemma {:induction false} SpellingsArePrint(d: Attrs)
    ensures AttrsText(Spellings(d)) == PrintAttrs(d)
  {
    if d != [] {
      SpellingIsPrint(d[0]);
      SpellingsArePrint(d[1..]);
    }
  }

  lemma PrintIsTagText(tag: string, xhtml: bool, d: Attrs)
    ensures Print(tag, xhtml, d) == TagText(tag, Spellings(d), EndOf(xhtml))
  {
    SpellingsArePrint(d);
    EndIsPrint(xhtml);
    Grouped("<", tag, PrintAttrs(d), PrintEnd(xhtml, true));
  }

  lemma EndIsPrint(xhtml: bool)
    ensures EndText(EndOf(xhtml)) == PrintEnd(xhtml, true)
  {
  }

  lemma Grouped(a: string, b: string, c: string, d: string)
    ensures a + b + c + d == a + (b + (c + d))
  {
  }

  lemma SpellingIsProper(a: Attr)
    requires a.0 != "" && AllAlpha(a.0)
    ensures Proper(Spelling(a))
  {
    forall i | 0 <= i < |a.0| ensures KeyChar(a.0[i]) {
      assert IsAlpha(a.0[i]);
    }
    if a.1.Some? {
      EscQIsSafe(a.1.value);
    }
  }

  // ---------------------------------------------------------------------
  // What comes back
  // ---------------------------------------------------------------------

  /** What the scanner collects before unescaping. */
  function Raw(d: Attrs): (r: Attrs)
    ensures |r| == |d|
    ensures forall i :: 0 <= i < |d| ==> r[i] == (d[i].0, if d[i].1.Some? then Some(EscQ(d[i].1.value)) else None)
  {
    if d == [] then []
    else [(d[0].0, if d[0].1.Some? then Some(EscQ(d[0].1.value)) else None)] + Raw(d[1..])
  }

  lemma EnteredIsRaw(d: Attrs)
    requires Distinct(d)
    ensures Entered([], Spellings(d)) == Raw(d)
  {
    EnteredFresh([], Spellings(d), Raw(d));
  }

  lemma RawHasNoBadValue(lib: Library, d: Attrs)
    requires lib.Sound()
    ensures !HasBadValue(lib, Raw(d))
  {
    forall i | 0 <= i < |d| && d[i].1.Some? ensures Unescaped(lib, Raw(d)[i].1.value).Success? {
      UnescapeEscQ(lib, d[i].1.value);
    }
  }

  /** Cleaning what the scanner collects gives what was printed. */
  lemma CleanedRaw(lib: Library, d: Attrs, d': Attrs)
    requires lib.Sound() && ValidKeys(d) && Cleaned(lib, Raw(d), d')
    ensures d' == d
  {
    Lists.FilterAll(Raw(d), HasAlphaKey());
    forall i | 0 <= i < |d| ensures d'[i] == d[i] {
      if d[i].1.Some? {
        UnescapeEscQ(lib, d[i].1.value);
      }
    }
  }

  /**
   * For a valid name, alphabetic distinct keys, any values, and any text
   * behind it, scanning from behind the '<' returns the name, the flag, the
   * attributes in order, and the index just past the tag.
   */
  lemma ParseInvertsPrint(lib: Library, tag: string, xhtml: bool, d: Attrs, suffix: string)
    requires lib.Sound() && ValidName(lib, tag) && ValidKeys(d) && Distinct(d)
    ensures Parse(lib, Print(tag, xhtml, d) + suffix, 1) == Success(Tag(tag, xhtml, d, |Print(tag, xhtml, d)|))
  {
    forall i | 0 <= i < |d| ensures Proper(Spellings(d)[i]) {
      SpellingIsProper(d[i]);
    }
    SpelledTagParses(lib, tag, Spellings(d), EndOf(xhtml), suffix);
    PrintIsTagText(tag, xhtml, d);
    EnteredIsRaw(d);
    RawHasNoBadValue(lib, d);
    var r := Parse(lib, Print(tag, xhtml, d) + suffix, 1);
    CleanedRaw(lib, d, r.value.d);
  }
}
