/**
 * `generateSlug`: lower-case the text, keep only `a-z`, `0-9`, whitespace and `-`, trim
 * the ends, then turn every run of whitespace into one `-`. The model covers text that
 * is already free of combining marks, where the accent-stripping steps change nothing, and
 * lower-cases only `A-Z`. Whitespace is the whole `\s` class of ECMAScript, which is also
 * the set `trim` removes: the ASCII white space, the no-break spaces, the Unicode space
 * separators, the line and paragraph separators and the byte-order mark.
 */
module GenerateSlug {

  predicate IsSpace(c: char) {
    c == ' ' || c == '\t' || c == '\n' || c == '\U{B}' || c == '\U{C}' || c == '\r'
    || c == '\U{A0}' || c == '\U{1680}' || '\U{2000}' <= c <= '\U{200A}'
    || c == '\U{2028}' || c == '\U{2029}' || c == '\U{202F}' || c == '\U{205F}'
    || c == '\U{3000}' || c == '\U{FEFF}'
  }

  predicate IsLowerAlnum(c: char) {
    'a' <= c <= 'z' || '0' <= c <= '9'
  }

  /** The characters a slug is made of. */
  predicate IsSlugChar(c: char) {
    IsLowerAlnum(c) || c == '-'
  }

  /** What survives the `[^a-z0-9\s-]` removal. */
  predicate Allowed(c: char) {
    IsSlugChar(c) || IsSpace(c)
  }

  function LowerChar(c: char): char {
    if 'A' <= c <= 'Z' then (c as int + 32) as char else c
  }

  /** `toLowerCase` on ASCII text. */
  function Lower(s: string): (r: string)
    ensures |r| == |s| && forall i :: 0 <= i < |s| ==> r[i] == LowerChar(s[i])
  {
    seq(|s|, i requires 0 <= i < |s| => LowerChar(s[i]))
  }

  /** `replace(/[^a-z0-9\s-]/g, '')`. */
  function Keep(s: string): string {
    if s == [] then [] else (if Allowed(s[0]) then [s[0]] else []) + Keep(s[1..])
  }

  function TrimStart(s: string): string {
    if s != [] && IsSpace(s[0]) then TrimStart(s[1..]) else s
  }

  function TrimEnd(s: string): string {
    if s != [] && IsSpace(s[|s| - 1]) then TrimEnd(s[..|s| - 1]) else s
  }

  /** `trim()`. */
  function Trim(s: string): string {
    TrimStart(TrimEnd(s))
  }

  /** `replace(/\s+/g, '-')`: a whitespace character and the run after it become one `-`. */
  function Hyphenate(s: string): string
    decreases |s|
  {
    if s == [] then []
    else if IsSpace(s[0]) then
      TrimStartShorter(s[1..]);
      "-" + Hyphenate(TrimStart(s[1..]))
    else [s[0]] + Hyphenate(s[1..])
  }

  /** The text whose whitespace runs become hyphens. */
  function Trimmed(text: string): string {
    Trim(Keep(Lower(text)))
  }

  /** `generateSlug(text)`: made of lower-case letters, digits and hyphens only. */
  function Slug(text: string): (r: string)
    ensures forall i :: 0 <= i < |r| ==> IsSlugChar(r[i])
  {
    KeepChars(Lower(text));
    TrimShape(Keep(Lower(text)));
    HyphenateChars(Trimmed(text));
    Hyphenate(Trimmed(text))
  }

  // ---------------------------------------------------------------------------
  // Shapes of the steps

  lemma {:induction false} KeepChars(s: string)
    ensures forall i :: 0 <= i < |Keep(s)| ==> Allowed(Keep(s)[i])
    decreases |s|
  {
    if s != [] {
      KeepChars(s[1..]);
    }
  }

  lemma TrimStartShorter(s: string)
    ensures |TrimStart(s)| <= |s|
  {
    TrimStartShape(s);
  }

  /** `TrimStart` drops a whitespace prefix and stops at the first other character. */
  lemma {:induction false} TrimStartShape(s: string)
    ensures |TrimStart(s)| <= |s| && TrimStart(s) == s[|s| - |TrimStart(s)|..]
    ensures TrimStart(s) == [] || !IsSpace(TrimStart(s)[0])
    ensures forall i :: 0 <= i < |s| - |TrimStart(s)| ==> IsSpace(s[i])
    decreases |s|
  {
    if s != [] && IsSpace(s[0]) {
      TrimStartShape(s[1..]);
    }
  }

  /** `TrimEnd` drops a whitespace suffix and stops at the last other character. */
  lemma {:induction false} TrimEndShape(s: string)
    ensures |TrimEnd(s)| <= |s| && TrimEnd(s) == s[..|TrimEnd(s)|]
    ensures TrimEnd(s) == [] || !IsSpace(TrimEnd(s)[|TrimEnd(s)| - 1])
    ensures forall i :: |TrimEnd(s)| <= i < |s| ==> IsSpace(s[i])
    decreases |s|
  {
    if s != [] && IsSpace(s[|s| - 1]) {
      TrimEndShape(s[..|s| - 1]);
    }
  }

  /**
   * `trim()` returns the slice of the text between a whitespace prefix and a whitespace
   * suffix, and neither end of it is whitespace.
   */
  lemma TrimShape(s: string)
    ensures Trim(s) == [] || (!IsSpace(Trim(s)[0]) && !IsSpace(Trim(s)[|Trim(s)| - 1]))
    ensures (forall i :: 0 <= i < |s| ==> Allowed(s[i])) ==> forall i :: 0 <= i < |Trim(s)| ==> Allowed(Trim(s)[i])
    ensures exists a, b ::
      && 0 <= a <= b <= |s| && Trim(s) == s[a..b]
      && (forall i :: 0 <= i < a ==> IsSpace(s[i]))
      && (forall i :: b <= i < |s| ==> IsSpace(s[i]))
  {
    var t := TrimEnd(s);
    TrimEndShape(s);
    TrimStartShape(t);
    var a, b := |t| - |Trim(s)|, |t|;
    assert Trim(s) == s[a..b];
  }

  /** Hyphenation leaves no whitespace and, on allowed characters, only slug characters. */
  lemma {:induction false} HyphenateChars(s: string)
    ensures forall i :: 0 <= i < |Hyphenate(s)| ==> !IsSpace(Hyphenate(s)[i])
    ensures (forall i :: 0 <= i < |s| ==> Allowed(s[i])) ==>
      forall i :: 0 <= i < |Hyphenate(s)| ==> IsSlugChar(Hyphenate(s)[i])
    decreases |s|
  {
    if s == [] {
    } else if IsSpace(s[0]) {
      var d := TrimStart(s[1..]);
      TrimStartShape(s[1..]);
      HyphenateChars(d);
      if forall i :: 0 <= i < |s| ==> Allowed(s[i]) {
        assert forall i :: 0 <= i < |d| ==> d[i] == s[1 + |s[1..]| - |d| + i];
      }
    } else {
      HyphenateChars(s[1..]);
    }
  }

  // ---------------------------------------------------------------------------
  // Properties

  /** A slug has no whitespace left, and its ends are the trimmed text's ends. */
  lemma SlugEnds(text: string)
    ensures forall i :: 0 <= i < |Slug(text)| ==> !IsSpace(Slug(text)[i])
    ensures |Slug(text)| > 0 <==> |Trimmed(text)| > 0
    ensures |Slug(text)| > 0 ==>
      && Slug(text)[0] == Trimmed(text)[0]
      && Slug(text)[|Slug(text)| - 1] == Trimmed(text)[|Trimmed(text)| - 1]
  {
    var t := Trimmed(text);
    HyphenateChars(t);
    TrimShape(Keep(Lower(text)));
    if t != [] {
      HyphenateLast(t);
    }
  }

  /** The last character of a text that does not end with whitespace is kept. */
  lemma {:induction false} HyphenateLast(s: string)
    requires s != [] && !IsSpace(s[|s| - 1])
    ensures Hyphenate(s) != [] && Hyphenate(s)[|Hyphenate(s)| - 1] == s[|s| - 1]
    decreases |s|
  {
    if |s| == 1 {
    } else if IsSpace(s[0]) {
      var d := TrimStart(s[1..]);
      TrimStartShape(s[1..]);
      assert d != [] && d[|d| - 1] == s[|s| - 1];
      HyphenateLast(d);
    } else {
      HyphenateLast(s[1..]);
    }
  }

  /** Dropping the whitespace run in front of a word gives the word. */
  lemma {:induction false} TrimStartRun(w: string, y: string)
    requires forall i :: 0 <= i < |w| ==> IsSpace(w[i])
    requires y == [] || !IsSpace(y[0])
    ensures TrimStart(w + y) == y
    decreases |w|
  {
    if w != [] {
      assert (w + y)[1..] == w[1..] + y;
      TrimStartRun(w[1..], y);
    } else {
      assert w + y == y;
    }
  }

  /**
   * A maximal run of whitespace between a word and what follows becomes exactly one
   * `-`: the word is copied, the run is replaced, the rest is hyphenated on its own.
   */
  lemma {:induction false} HyphenateRun(x: string, w: string, y: string)
    requires forall i :: 0 <= i < |x| ==> !IsSpace(x[i])
    requires w != [] && forall i :: 0 <= i < |w| ==> IsSpace(w[i])
    requires y == [] || !IsSpace(y[0])
    ensures Hyphenate(x + w + y) == x + "-" + Hyphenate(y)
    decreases |x|
  {
    if x == [] {
      assert x + w + y == w + y;
      assert (w + y)[1..] == w[1..] + y;
      TrimStartRun(w[1..], y);
    } else {
      assert (x + w + y)[1..] == x[1..] + w + y;
      HyphenateRun(x[1..], w, y);
    }
  }

  /** Text with no whitespace comes out of `Hyphenate` unchanged. */
  lemma {:induction false} HyphenateNoSpace(s: string)
    requires forall i :: 0 <= i < |s| ==> !IsSpace(s[i])
    ensures Hyphenate(s) == s
    decreases |s|
  {
    if s != [] {
      HyphenateNoSpace(s[1..]);
    }
  }

  lemma {:induction false} KeepAllowed(s: string)
    requires forall i :: 0 <= i < |s| ==> Allowed(s[i])
    ensures Keep(s) == s
    decreases |s|
  {
    if s != [] {
      KeepAllowed(s[1..]);
    }
  }

  /** Slug characters are already lower case. */
  lemma LowerOfSlug(s: string)
    requires forall i :: 0 <= i < |s| ==> IsSlugChar(s[i])
    ensures Lower(s) == s
  {
  }

  /** `generateSlug` is idempotent: a slug is its own slug. */
  lemma SlugIdempotent(text: string)
    ensures Slug(Slug(text)) == Slug(text)
  {
    var s := Slug(text);
    SlugEnds(text);
    LowerOfSlug(s);
    KeepAllowed(s);
    assert Trim(s) == s by {
      assert TrimEnd(s) == s;
      assert TrimStart(s) == s;
    }
    HyphenateNoSpace(s);
  }

  /** Lower-case letters and digits, in order. */
  function Alnum(s: string): string {
    if s == [] then [] else (if IsLowerAlnum(s[0]) then [s[0]] else []) + Alnum(s[1..])
  }

  lemma {:induction false} AlnumConcat(a: string, b: string)
    ensures Alnum(a + b) == Alnum(a) + Alnum(b)
    decreases |a|
  {
    if a != [] {
      assert (a + b)[0] == a[0] && (a + b)[1..] == a[1..] + b;
      AlnumConcat(a[1..], b);
      var h := if IsLowerAlnum(a[0]) then [a[0]] else [];
      assert Alnum(a + b) == h + (Alnum(a[1..]) + Alnum(b));
      assert Alnum(a) + Alnum(b) == h + (Alnum(a[1..]) + Alnum(b));
    } else {
      assert a + b == b;
    }
  }

  lemma {:induction false} AlnumOfSpaces(s: string)
    requires forall i :: 0 <= i < |s| ==> IsSpace(s[i])
    ensures Alnum(s) == []
    decreases |s|
  {
    if s != [] {
      AlnumOfSpaces(s[1..]);
    }
  }

  lemma {:induction false} AlnumKeep(s: string)
    ensures Alnum(Keep(s)) == Alnum(s)
    decreases |s|
  {
    if s != [] {
      AlnumKeep(s[1..]);
      AlnumConcat(if Allowed(s[0]) then [s[0]] else [], Keep(s[1..]));
    }
  }

  lemma AlnumTrim(s: string)
    ensures Alnum(Trim(s)) == Alnum(s)
  {
    AlnumTrimEnd(s);
    AlnumTrimStart(TrimEnd(s));
  }

  lemma {:induction false} AlnumTrimEnd(s: string)
    ensures Alnum(TrimEnd(s)) == Alnum(s)
    decreases |s|
  {
    if s != [] && IsSpace(s[|s| - 1]) {
      var init := s[..|s| - 1];
      AlnumTrimEnd(init);
      assert s == init + [s[|s| - 1]];
      AlnumConcat(init, [s[|s| - 1]]);
      AlnumOfSpaces([s[|s| - 1]]);
    }
  }

  lemma {:induction false} AlnumTrimStart(s: string)
    ensures Alnum(TrimStart(s)) == Alnum(s)
    decreases |s|
  {
    if s != [] && IsSpace(s[0]) {
      AlnumTrimStart(s[1..]);
    }
  }

  lemma {:induction false} AlnumHyphenate(s: string)
    ensures Alnum(Hyphenate(s)) == Alnum(s)
    decreases |s|
  {
    if s == [] {
    } else if IsSpace(s[0]) {
      TrimStartShorter(s[1..]);
      AlnumHyphenate(TrimStart(s[1..]));
      AlnumTrimStart(s[1..]);
      AlnumConcat("-", Hyphenate(TrimStart(s[1..])));
    } else {
      AlnumHyphenate(s[1..]);
      AlnumConcat([s[0]], Hyphenate(s[1..]));
    }
  }

  /**
   * The letters (lower-cased) and digits of the text are exactly those of its slug, in
   * the same order; punctuation and whitespace contribute none.
   */
  lemma SlugKeepsLettersAndDigits(text: string)
    ensures Alnum(Slug(text)) == Alnum(Lower(text))
  {
    var k := Keep(Lower(text));
    AlnumHyphenate(Trim(k));
    AlnumTrim(k);
    AlnumKeep(Lower(text));
  }

  lemma TrimTwoWords()
    ensures Trim("la tasca") == "la tasca"
  {
    assert TrimEnd("la tasca") == "la tasca";
  }

  lemma HyphenateTwoWords()
    ensures Hyphenate("la tasca") == "la-tasca"
  {
    HyphenateRun("la", " ", "tasca");
    HyphenateNoSpace("tasca");
    assert "la" + " " + "tasca" == "la tasca";
  }

  lemma SlugExampleTwoWords()
    ensures Slug("La Tasca") == "la-tasca"
  {
    assert Lower("La Tasca") == "la tasca";
    assert Keep("la tasca") == "la tasca";
    TrimTwoWords();
    HyphenateTwoWords();
  }

  lemma TrimNoBreakSpace()
    ensures Trim("la\U{A0}tasca") == "la\U{A0}tasca"
  {
    assert TrimEnd("la\U{A0}tasca") == "la\U{A0}tasca";
  }

  lemma HyphenateNoBreakSpace()
    ensures Hyphenate("la\U{A0}tasca") == "la-tasca"
  {
    HyphenateRun("la", "\U{A0}", "tasca");
    HyphenateNoSpace("tasca");
    assert "la" + "\U{A0}" + "tasca" == "la\U{A0}tasca";
  }

  /** A no-break space between the words becomes a hyphen like a plain space. */
  lemma SlugExampleNoBreakSpace()
    ensures Slug("La\U{A0}Tasca") == "la-tasca"
  {
    assert Lower("La\U{A0}Tasca") == "la\U{A0}tasca";
    assert Keep("la\U{A0}tasca") == "la\U{A0}tasca";
    TrimNoBreakSpace();
    HyphenateNoBreakSpace();
  }
}
