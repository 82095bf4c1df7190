/** The string primitives the contact form relies on: JavaScript's notion of
    whitespace (shared by `String.prototype.trim` and the regular-expression
    class `\s`), `trim` itself, and `sanitizeInput` (js/main.js:133-137), which
    assigns a value to a detached element's `textContent` and reads back its
    `innerHTML`.  The HTML fragment serialisation of a text node escapes exactly
    four characters ("escaping a string", section 13.3 of the HTML Living
    Standard), so `sanitizeInput` is modelled as that escaping. */
module JsText {

  /** U+00A0 NO-BREAK SPACE: whitespace for JavaScript, an entity for HTML. */
  const NBSP: char := '\U{00A0}'

  /** ECMAScript WhiteSpace and LineTerminator code points. */
  predicate IsJsSpace(c: char) {
    || c == '\t' || c == '\n' || c == '\U{000B}' || c == '\U{000C}' || c == '\r'
    || c == ' ' || c == NBSP || c == '\U{1680}'
    || ('\U{2000}' <= c <= '\U{200A}')
    || c == '\U{2028}' || c == '\U{2029}' || c == '\U{202F}' || c == '\U{205F}'
    || c == '\U{3000}' || c == '\U{FEFF}'
  }

  predicate AllSpace(s: string) {
    forall i :: 0 <= i < |s| ==> IsJsSpace(s[i])
  }

  /** Index of the first character that is not whitespace (`|s|` if none). */
  function ContentStart(s: string): (n: nat)
    ensures n <= |s| && AllSpace(s[..n])
    ensures n < |s| ==> !IsJsSpace(s[n])
  {
    if s != [] && IsJsSpace(s[0]) then
      var n := 1 + ContentStart(s[1..]);
      assert s[..n] == [s[0]] + s[1..][..n - 1];
      n
    else 0
  }

  /** Index just past the last character that is not whitespace (0 if none). */
  function ContentEnd(s: string): (n: nat)
    ensures n <= |s| && AllSpace(s[n..])
    ensures 0 < n ==> !IsJsSpace(s[n - 1])
  {
    if s != [] && IsJsSpace(s[|s| - 1]) then
      var n := ContentEnd(s[..|s| - 1]);
      assert s[n..] == s[..|s| - 1][n..] + [s[|s| - 1]];
      n
    else |s|
  }

  /** `String.prototype.trim`: the longest infix with no whitespace at
      either end; what it removes on both sides is all whitespace. */
  function Trim(s: string): (r: string)
    ensures exists lo :: 0 <= lo <= lo + |r| <= |s| && r == s[lo..lo + |r|]
                         && AllSpace(s[..lo]) && AllSpace(s[lo + |r|..])
    ensures r != [] ==> !IsJsSpace(r[0]) && !IsJsSpace(r[|r| - 1])
  {
    var lo := ContentStart(s);
    var t := s[lo..];
    var r := t[..ContentEnd(t)];
    assert s[lo..lo + |r|] == r;
    assert s[lo + |r|..] == t[|r|..];
    r
  }

  lemma {:induction false} AllSpaceAppend(a: string, b: string)
    requires AllSpace(a) && AllSpace(b)
    ensures AllSpace(a + b)
  {
    forall i | 0 <= i < |a + b| ensures IsJsSpace((a + b)[i]) {
      if i < |a| { assert (a + b)[i] == a[i]; } else { assert (a + b)[i] == b[i - |a|]; }
    }
  }

  /** A value trims to nothing exactly when it is all whitespace. */
  lemma {:induction false} TrimEmptyIff(s: string)
    ensures Trim(s) == [] <==> AllSpace(s)
  {
    var r := Trim(s);
    var lo :| 0 <= lo <= lo + |r| <= |s| && r == s[lo..lo + |r|]
              && AllSpace(s[..lo]) && AllSpace(s[lo + |r|..]);
    if r == [] {
      assert s == s[..lo] + s[lo..];
      AllSpaceAppend(s[..lo], s[lo..]);
    } else {
      assert s[lo] == r[0];
    }
  }

  /** Trimming twice is trimming once. */
  lemma TrimIdempotent(s: string)
    ensures Trim(Trim(s)) == Trim(s)
  {
    TrimKeeps(Trim(s));
  }

  /** A value with no whitespace at either end is left as it is. */
  lemma TrimKeeps(s: string)
    requires s == [] || (!IsJsSpace(s[0]) && !IsJsSpace(s[|s| - 1]))
    ensures Trim(s) == s
  {
    assert ContentStart(s) == 0;
    assert s[0..] == s;
    assert ContentEnd(s) == |s|;
  }

  /** The four characters the HTML serialiser replaces by entities. */
  predicate IsEscaped(c: char) {
    c == '&' || c == '<' || c == '>' || c == NBSP
  }

  /** The characters that never survive escaping: markup brackets and the
      no-break space. */
  predicate IsMarkup(c: char) {
    c == '<' || c == '>' || c == NBSP
  }

  /** The entity the serialiser writes for each escaped character. */
  function EscapeChar(c: char): (r: string)
    ensures IsEscaped(c) ==> |r| > 1 && r[0] == '&'
    ensures !IsEscaped(c) ==> r == [c]
    ensures forall i :: 0 <= i < |r| ==> !IsMarkup(r[i])
  {
    if c == '&' then "&amp;"
    else if c == NBSP then "&nbsp;"
    else if c == '<' then "&lt;"
    else if c == '>' then "&gt;"
    else [c]
  }

  /** `sanitizeInput`: text with the four markup-significant characters
      replaced by entities.  No `<`, `>` or no-break space survives; text
      without any of the four is returned unchanged; text with one of them
      comes back holding an ampersand. */
  function Escape(s: string): (r: string)
    ensures |r| >= |s|
    ensures r == [] <==> s == []
    ensures forall i :: 0 <= i < |r| ==> !IsMarkup(r[i])
    ensures (forall i :: 0 <= i < |s| ==> !IsEscaped(s[i])) ==> r == s
    ensures (exists i :: 0 <= i < |s| && IsEscaped(s[i])) ==> '&' in r
  {
    if s == [] then []
    else
      var h := EscapeChar(s[0]);
      var t := Escape(s[1..]);
      var r := h + t;
      assert IsEscaped(s[0]) ==> r[0] == '&';
      assert forall k :: 0 <= k < |s[1..]| ==> s[1..][k] == s[k + 1];
      assert '&' in t ==> '&' in r;
      assert forall i :: 0 <= i < |r| ==> r[i] == if i < |h| then h[i] else t[i - |h|];
      r
  }

  /** Escaping works character by character: escaping a concatenation
      concatenates the escaped parts. */
  lemma {:induction false} EscapeAppend(a: string, b: string)
    ensures Escape(a + b) == Escape(a) + Escape(b)
  {
    if a != [] {
      assert (a + b)[0] == a[0];
      assert (a + b)[1..] == a[1..] + b;
      EscapeAppend(a[1..], b);
    } else {
      assert a + b == b;
    }
  }

  /** The decoder of the four entities `Escape` writes: each of them becomes
      its character, everything else stays.  It is not a full HTML parser,
      which would also normalise line breaks, drop U+0000 and decode every
      other character reference. */
  function Unescape(r: string): string
    decreases |r|
  {
    if r == [] then []
    else if |r| >= 5 && r[..5] == "&amp;" then ['&'] + Unescape(r[5..])
    else if |r| >= 6 && r[..6] == "&nbsp;" then [NBSP] + Unescape(r[6..])
    else if |r| >= 4 && r[..4] == "&lt;" then ['<'] + Unescape(r[4..])
    else if |r| >= 4 && r[..4] == "&gt;" then ['>'] + Unescape(r[4..])
    else [r[0]] + Unescape(r[1..])
  }

  /** Reading back one escaped character gives that character. */
  lemma UnescapeChar(c: char, rest: string)
    ensures Unescape(EscapeChar(c) + rest) == [c] + Unescape(rest)
  {
    var r := EscapeChar(c) + rest;
    var n := |EscapeChar(c)|;
    assert r[..n] == EscapeChar(c) && r[n..] == rest;
    if c == NBSP {
      assert r[..5] != "&amp;" by { assert r[1] == 'n'; }
    } else if c == '<' {
      assert |r| >= 5 ==> r[..5] != "&amp;" by { assert r[1] == 'l'; }
      assert |r| >= 6 ==> r[..6] != "&nbsp;" by { assert r[1] == 'l'; }
    } else if c == '>' {
      assert |r| >= 5 ==> r[..5] != "&amp;" by { assert r[1] == 'g'; }
      assert |r| >= 6 ==> r[..6] != "&nbsp;" by { assert r[1] == 'g'; }
      assert r[..4] != "&lt;" by { assert r[1] == 'g'; }
    } else if c != '&' {
      assert r[0] == c;
      assert |r| >= 5 ==> r[..5][0] == c;
      assert |r| >= 6 ==> r[..6][0] == c;
      assert |r| >= 4 ==> r[..4][0] == c;
    }
  }

  /** Sanitising loses nothing: decoding its four entities gives back
      exactly the text the visitor typed, so `Escape` is injective. */
  lemma {:induction false} UnescapeEscape(s: string)
    ensures Unescape(Escape(s)) == s
  {
    if s != [] {
      UnescapeChar(s[0], Escape(s[1..]));
      UnescapeEscape(s[1..]);
    }
  }
}
