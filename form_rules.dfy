/** The two format checks of the submit handler (js/main.js:187-199), with
    the regular expressions written as predicates over the characters. */
module FormRules {
  import opened JsText

  predicate IsDigit(c: char) { '0' <= c <= '9' }

  predicate IsAsciiLetter(c: char) { 'a' <= c <= 'z' || 'A' <= c <= 'Z' }

  /** `[0-9\-\+\(\)\s]` */
  predicate IsPhoneChar(c: char) {
    IsDigit(c) || c == '-' || c == '+' || c == '(' || c == ')' || IsJsSpace(c)
  }

  /** `/^[0-9\-\+\(\)\s]+$/.test(s)` */
  predicate PhoneValid(s: string) {
    |s| > 0 && forall i :: 0 <= i < |s| ==> IsPhoneChar(s[i])
  }

  /** `[a-zA-Z0-9._%+\-]`, the local part before the at sign. */
  predicate IsLocalChar(c: char) {
    IsAsciiLetter(c) || IsDigit(c) || c == '.' || c == '_' || c == '%' || c == '+' || c == '-'
  }

  /** `[a-zA-Z0-9.\-]`, the domain before the final dot. */
  predicate IsDomainChar(c: char) {
    IsAsciiLetter(c) || IsDigit(c) || c == '.' || c == '-'
  }

  predicate AllLocal(s: string) { forall i :: 0 <= i < |s| ==> IsLocalChar(s[i]) }
  predicate AllDomain(s: string) { forall i :: 0 <= i < |s| ==> IsDomainChar(s[i]) }
  predicate AllLetters(s: string) { forall i :: 0 <= i < |s| ==> IsAsciiLetter(s[i]) }

  /** The pattern `^L+@D+\.T{2,}$` matched with the at sign at `at` and the
      literal dot at `dot`. */
  predicate EmailSplit(s: string, at: int, dot: int) {
    && 0 < at && at + 1 < dot && dot + 2 < |s|
    && s[at] == '@' && s[dot] == '.'
    && AllLocal(s[..at]) && AllDomain(s[at + 1..dot]) && AllLetters(s[dot + 1..])
  }

  /** What `/^[a-zA-Z0-9._%+\-]+@[a-zA-Z0-9.\-]+\.[a-zA-Z]{2,}$/.test(s)`
      means: some choice of the two split points matches. */
  ghost predicate EmailShaped(s: string) {
    exists at, dot :: EmailSplit(s, at, dot)
  }

  /** Index of the first occurrence of `c`, or `|s|` when there is none. */
  function IndexOf(s: string, c: char): (r: nat)
    ensures r <= |s|
    ensures r < |s| ==> s[r] == c
    ensures forall j :: 0 <= j < r ==> s[j] != c
  {
    if s == [] then 0
    else if s[0] == c then 0
    else 1 + IndexOf(s[1..], c)
  }

  /** Index of the last occurrence of `c`, or -1 when there is none. */
  function LastIndexOf(s: string, c: char): (r: int)
    ensures -1 <= r < |s|
    ensures 0 <= r ==> s[r] == c
    ensures forall j :: r < j < |s| ==> s[j] != c
  {
    if s == [] then -1
    else if s[|s| - 1] == c then |s| - 1
    else LastIndexOf(s[..|s| - 1], c)
  }

  /** A direct check of the email pattern: split at the first at sign and
      at the last dot, then test the three character classes. */
  function EmailValid(s: string): (ok: bool)
    ensures ok ==> EmailShaped(s)
  {
    var at := IndexOf(s, '@');
    var dot := LastIndexOf(s, '.');
    EmailSplit(s, at, dot)
  }

  /** No class of the pattern contains `@`, and the top-level label cannot
      contain a dot: so a matching string has exactly one at sign, and its
      top-level label is everything after the last dot. */
  lemma EmailSplitForced(s: string, at: int, dot: int)
    requires EmailSplit(s, at, dot)
    ensures forall i :: 0 <= i < |s| && s[i] == '@' ==> i == at
    ensures forall j :: dot < j < |s| ==> s[j] != '.'
  {
    SplitClasses(s, at, dot);
  }

  /** Each character of a match lies in the class of its part. */
  lemma SplitClasses(s: string, at: int, dot: int)
    requires EmailSplit(s, at, dot)
    ensures forall i :: 0 <= i < at ==> IsLocalChar(s[i])
    ensures forall i :: at < i < dot ==> IsDomainChar(s[i])
    ensures forall i :: dot < i < |s| ==> IsAsciiLetter(s[i])
  {
    forall i | 0 <= i < at ensures IsLocalChar(s[i]) { assert s[..at][i] == s[i]; }
    forall i | at < i < dot ensures IsDomainChar(s[i]) { assert s[at + 1..dot][i - at - 1] == s[i]; }
    forall i | dot < i < |s| ensures IsAsciiLetter(s[i]) { assert s[dot + 1..][i - dot - 1] == s[i]; }
  }

  /** The split points of a match are unique. */
  lemma EmailSplitUnique(s: string, at1: int, dot1: int, at2: int, dot2: int)
    requires EmailSplit(s, at1, dot1) && EmailSplit(s, at2, dot2)
    ensures at1 == at2 && dot1 == dot2
  {
    EmailSplitForced(s, at1, dot1);
    EmailSplitForced(s, at2, dot2);
  }

  /** The direct check accepts exactly the strings the pattern matches. */
  lemma EmailValidIff(s: string)
    ensures EmailValid(s) <==> EmailShaped(s)
  {
    if EmailShaped(s) {
      var at, dot :| EmailSplit(s, at, dot);
      EmailSplitForced(s, at, dot);
      assert IndexOf(s, '@') == at;
      assert LastIndexOf(s, '.') == dot;
    }
  }

  /** A character that no class of the email pattern admits. */
  predicate OutsideEmailAlphabet(c: char) {
    !IsLocalChar(c) && !IsDomainChar(c) && !IsAsciiLetter(c) && c != '@'
  }

  lemma NoMatchWith(s: string, k: int)
    requires 0 <= k < |s| && OutsideEmailAlphabet(s[k])
    ensures !EmailShaped(s)
  {
    if EmailShaped(s) {
      var at, dot :| EmailSplit(s, at, dot);
      SplitClasses(s, at, dot);
    }
  }

  /** Sanitising before the phone test changes its verdict in exactly one
      case: a no-break space, which `\s` admits but which the sanitiser turns
      into `&nbsp;`. */
  lemma PhoneAfterEscape(s: string)
    ensures PhoneValid(Escape(s)) <==> PhoneValid(s) && NBSP !in s
  {
    if exists i :: 0 <= i < |s| && IsEscaped(s[i]) {
      var i :| 0 <= i < |s| && IsEscaped(s[i]);
      var e := Escape(s);
      var j :| 0 <= j < |e| && e[j] == '&';
      assert !IsPhoneChar(e[j]);
      assert !IsPhoneChar(s[i]) || s[i] == NBSP;
    } else {
      assert NBSP !in s by {
        forall i | 0 <= i < |s| ensures s[i] != NBSP { assert !IsEscaped(s[i]); }
      }
    }
  }

  /** Sanitising before the email test never changes its verdict: every
      character the sanitiser rewrites is already outside the pattern. */
  lemma EmailAfterEscape(s: string)
    ensures EmailShaped(Escape(s)) <==> EmailShaped(s)
  {
    if exists i :: 0 <= i < |s| && IsEscaped(s[i]) {
      var i :| 0 <= i < |s| && IsEscaped(s[i]);
      NoMatchWith(s, i);
      var e := Escape(s);
      var j :| 0 <= j < |e| && e[j] == '&';
      NoMatchWith(e, j);
    }
  }
}
