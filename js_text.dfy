/**
 * The small part of JavaScript's string and number semantics that the application relies on:
 * `String.prototype.includes`, `toLowerCase` (ASCII letters only), `trim`, `split` on one
 * character, `Array.prototype.join`, `Number.prototype.toString` on integers, `Number(string)`
 * on integer strings, and the test `/[؀-ۿ]/` for Arabic text.
 */
module JsText {

  // ---------------------------------------------------------------------------
  // Characters

  predicate IsAsciiDigit(c: char) { '0' <= c <= '9' }

  function DigitValue(c: char): (d: nat)
    requires IsAsciiDigit(c)
    ensures d < 10
  {
    (c as int - '0' as int) as nat
  }

  function DigitChar(d: nat): (c: char)
    requires d < 10
    ensures IsAsciiDigit(c) && DigitValue(c) == d
  {
    ('0' as int + d) as char
  }

  predicate AllDigits(s: string) { forall i :: 0 <= i < |s| ==> IsAsciiDigit(s[i]) }

  /** The characters `String.prototype.trim` removes: WhiteSpace and LineTerminator of ECMA-262. */
  predicate IsJsWhitespace(c: char) {
    c == ' ' || c == '\t' || c == '\n' || c == '\r' || c == '\U{000B}' || c == '\U{000C}'
    || c == '\U{00A0}' || c == '\U{1680}' || ('\U{2000}' <= c <= '\U{200A}')
    || c == '\U{2028}' || c == '\U{2029}' || c == '\U{202F}' || c == '\U{205F}'
    || c == '\U{3000}' || c == '\U{FEFF}'
  }

  /** A character of the Unicode Arabic block, the class `[؀-ۿ]`. */
  predicate IsArabicChar(c: char) { '\U{0600}' <= c <= '\U{06FF}' }

  /** `/[؀-ۿ]/.test(s)` */
  predicate HasArabic(s: string) { exists i :: 0 <= i < |s| && IsArabicChar(s[i]) }

  lemma HasArabicAppend(a: string, b: string)
    ensures HasArabic(a + b) <==> HasArabic(a) || HasArabic(b)
  {
    if HasArabic(a + b) {
      var i :| 0 <= i < |a + b| && IsArabicChar((a + b)[i]);
      if i >= |a| { assert b[i - |a|] == (a + b)[i]; }
    }
    if HasArabic(b) {
      var i :| 0 <= i < |b| && IsArabicChar(b[i]);
      assert (a + b)[|a| + i] == b[i];
    }
    if HasArabic(a) {
      var i :| 0 <= i < |a| && IsArabicChar(a[i]);
      assert (a + b)[i] == a[i];
    }
  }

  // ---------------------------------------------------------------------------
  // Substrings and case

  /** `s.includes(sub)`: `sub` occurs in `s` at some position. */
  predicate Contains(s: string, sub: string) {
    exists i :: 0 <= i <= |s| - |sub| && OccursAt(s, sub, i)
  }

  /** `sub` occurs in `s` starting at index `i`. */
  predicate OccursAt(s: string, sub: string, i: int) {
    0 <= i <= |s| - |sub| && s[i..i + |sub|] == sub
  }

  lemma ContainsEmpty(s: string)
    ensures Contains(s, "")
  {
    assert OccursAt(s, "", 0);
  }

  lemma {:induction false} ContainsConcat(a: string, sub: string, b: string)
    ensures Contains(a + sub + b, sub)
  {
    var s := a + sub + b;
    assert s[|a|..|a| + |sub|] == sub;
    assert OccursAt(s, sub, |a|);
  }

  function LowerChar(c: char): char {
    if 'A' <= c <= 'Z' then (c as int + 32) as char else c
  }

  /** `s.toLowerCase()` for the ASCII letters A to Z; every other character is kept. */
  function ToLower(s: string): (r: string)
    ensures |r| == |s|
    ensures forall i :: 0 <= i < |s| ==> r[i] == LowerChar(s[i])
  {
    seq(|s|, i requires 0 <= i < |s| => LowerChar(s[i]))
  }

  /** Case-insensitive `includes`, the form used by every search box of the application. */
  predicate ContainsIgnoringCase(s: string, term: string) {
    Contains(ToLower(s), ToLower(term))
  }

  lemma {:induction false} ToLowerIdempotent(s: string)
    ensures ToLower(ToLower(s)) == ToLower(s)
  {
    var l := ToLower(s);
    forall i | 0 <= i < |l| ensures ToLower(l)[i] == l[i] {
      assert l[i] == LowerChar(s[i]);
    }
  }

  /** Lower-casing the search term as well as the text makes the match independent of either's case. */
  lemma {:induction false} LowerTermMatchesAlike(s: string, term: string)
    ensures ContainsIgnoringCase(s, ToLower(term)) == ContainsIgnoringCase(s, term)
  {
    ToLowerIdempotent(term);
  }

  /** The characters of a part are characters of the whole. */
  lemma {:induction false} ContainedCharsOccur(s: string, sub: string, j: int)
    requires Contains(s, sub) && 0 <= j < |sub|
    ensures exists i :: 0 <= i < |s| && s[i] == sub[j]
  {
    var p :| 0 <= p <= |s| - |sub| && OccursAt(s, sub, p);
    assert s[p + j] == sub[j];
  }

  /** Text without ASCII letters is its own lower case, and so is anything it contains. */
  lemma {:induction false} LowerOfLetterFree(t: string, term: string)
    requires forall i :: 0 <= i < |t| ==> IsAsciiDigit(t[i]) || t[i] == '-'
    requires Contains(t, ToLower(term))
    ensures ToLower(term) == term
  {
    var l := ToLower(term);
    forall j | 0 <= j < |term| ensures l[j] == term[j] {
      ContainedCharsOccur(t, l, j);
    }
  }

  lemma {:induction false} LetterFreeIsLower(t: string, sub: string)
    requires forall i :: 0 <= i < |t| ==> IsAsciiDigit(t[i]) || t[i] == '-'
    requires Contains(t, sub)
    ensures ToLower(sub) == sub
  {
    forall j | 0 <= j < |sub| ensures ToLower(sub)[j] == sub[j] {
      ContainedCharsOccur(t, sub, j);
    }
  }

  lemma EmptyTermMatches(s: string)
    ensures ContainsIgnoringCase(s, "")
  {
    ContainsEmpty(ToLower(s));
  }

  // ---------------------------------------------------------------------------
  // trim

  function TrimStart(s: string): (r: string)
    ensures |r| <= |s| && r == s[|s| - |r|..]
    ensures r == [] || !IsJsWhitespace(r[0])
    ensures forall i :: 0 <= i < |s| - |r| ==> IsJsWhitespace(s[i])
  {
    if s != [] && IsJsWhitespace(s[0]) then TrimStart(s[1..]) else s
  }

  function TrimEnd(s: string): (r: string)
    ensures |r| <= |s| && r == s[..|r|]
    ensures r == [] || !IsJsWhitespace(r[|r| - 1])
    ensures forall i :: |r| <= i < |s| ==> IsJsWhitespace(s[i])
  {
    if s != [] && IsJsWhitespace(s[|s| - 1]) then TrimEnd(s[..|s| - 1]) else s
  }

  /** `s.trim()` */
  function Trim(s: string): string {
    TrimEnd(TrimStart(s))
  }

  /** A string that `trim` leaves as it is. */
  predicate IsTrimmed(s: string) {
    s == [] || (!IsJsWhitespace(s[0]) && !IsJsWhitespace(s[|s| - 1]))
  }

  lemma {:induction false} TrimResult(s: string)
    ensures IsTrimmed(Trim(s))
    ensures |Trim(s)| <= |s|
  {
    var t := TrimStart(s);
    var r := TrimEnd(t);
    if r != [] {
      assert r[0] == t[0];
    }
  }

  lemma {:induction false} TrimOfTrimmed(s: string)
    requires IsTrimmed(s)
    ensures Trim(s) == s
  {
  }

  lemma {:induction false} TrimStartSkipsLeadingSpace(w: string, s: string)
    requires forall i :: 0 <= i < |w| ==> IsJsWhitespace(w[i])
    ensures TrimStart(w + s) == TrimStart(s)
  {
    if w != [] {
      var ws := w + s;
      assert ws[0] == w[0];
      assert ws[1..] == w[1..] + s;
      assert TrimStart(ws) == TrimStart(ws[1..]);
      TrimStartSkipsLeadingSpace(w[1..], s);
    } else {
      assert w + s == s;
    }
  }

  /** Leading white space does not survive `trim`. */
  lemma TrimSkipsLeadingSpace(w: string, s: string)
    requires forall i :: 0 <= i < |w| ==> IsJsWhitespace(w[i])
    ensures Trim(w + s) == Trim(s)
  {
    TrimStartSkipsLeadingSpace(w, s);
  }

  // ---------------------------------------------------------------------------
  // split and join

  /** Index of the first `c` in `s`, or `|s|` when there is none. */
  function IndexOfChar(s: string, c: char): (i: nat)
    ensures i <= |s|
    ensures i < |s| ==> s[i] == c
    ensures c !in s[..i]
  {
    if s == [] then 0
    else if s[0] == c then 0
    else
      var j := IndexOfChar(s[1..], c);
      assert s[..1 + j] == [s[0]] + s[1..][..j];
      1 + j
  }

  /** `s.split(sep)` for a one-character separator: the pieces between separators, always at least one. */
  function Split(s: string, sep: char): (parts: seq<string>)
    ensures |parts| >= 1
    ensures forall k :: 0 <= k < |parts| ==> sep !in parts[k]
    decreases |s|
  {
    var i := IndexOfChar(s, sep);
    if i == |s| then [s] else [s[..i]] + Split(s[i + 1..], sep)
  }

  /** `xs.join(sep)` */
  function Join(xs: seq<string>, sep: string): string {
    if xs == [] then ""
    else if |xs| == 1 then xs[0]
    else xs[0] + sep + Join(xs[1..], sep)
  }

  /** Splitting on a separator and joining with it again gives back the text. */
  lemma {:induction false} JoinOfSplit(s: string, sep: char)
    ensures Join(Split(s, sep), [sep]) == s
    decreases |s|
  {
    var i := IndexOfChar(s, sep);
    if i < |s| {
      JoinOfSplit(s[i + 1..], sep);
      assert s == s[..i] + [sep] + s[i + 1..];
    }
  }

  /** Text made of one piece without the separator, the separator and the rest splits at that separator. */
  lemma {:induction false} SplitAtFirst(a: string, sep: char, rest: string)
    requires sep !in a
    ensures Split(a + [sep] + rest, sep) == [a] + Split(rest, sep)
  {
    var s := a + [sep] + rest;
    var i := IndexOfChar(s, sep);
    assert s[|a|] == sep;
    assert s[..i] == a;
    assert s[i + 1..] == rest;
  }

  /** Joining pieces free of the separator and splitting again gives back the pieces. */
  lemma {:induction false} SplitOfJoin(xs: seq<string>, sep: char)
    requires |xs| >= 1
    requires forall k :: 0 <= k < |xs| ==> sep !in xs[k]
    ensures Split(Join(xs, [sep]), sep) == xs
  {
    if |xs| == 1 {
      assert IndexOfChar(xs[0], sep) == |xs[0]|;
    } else {
      SplitOfJoin(xs[1..], sep);
      SplitAtFirst(xs[0], sep, Join(xs[1..], [sep]));
      assert xs == [xs[0]] + xs[1..];
    }
  }

  // ---------------------------------------------------------------------------
  // Numbers and their decimal text

  /** The value of a string of decimal digits (leading zeros allowed, the empty string is 0). */
  function DecimalValue(ds: string): (n: nat)
    requires AllDigits(ds)
  {
    if ds == [] then 0 else DecimalValue(ds[..|ds| - 1]) * 10 + DigitValue(ds[|ds| - 1])
  }

  function NatToString(n: nat): (s: string)
    ensures |s| >= 1 && AllDigits(s)
    ensures |s| > 1 ==> s[0] != '0'
    decreases n
  {
    if n < 10 then [DigitChar(n)] else NatToString(n / 10) + [DigitChar(n % 10)]
  }

  /** `n.toString()` for an integer `n`. */
  function IntToString(n: int): (s: string)
    ensures |s| >= 1
    ensures forall i :: 0 <= i < |s| ==> IsAsciiDigit(s[i]) || s[i] == '-'
  {
    if n < 0 then "-" + NatToString(-n) else NatToString(n)
  }

  /** Reading back the decimal text of a natural number gives the number. */
  lemma {:induction false} DecimalOfNatToString(n: nat)
    ensures DecimalValue(NatToString(n)) == n
    decreases n
  {
    if n >= 10 {
      DecimalOfNatToString(n / 10);
      var s := NatToString(n);
      assert s[..|s| - 1] == NatToString(n / 10);
    }
  }

  /** The result of `Number(text)`: an integer or `NaN`. */
  datatype JsNumber = Num(value: int) | NaN

  /**
   * `Number(s)` on the strings the application produces: surrounding white space is ignored,
   * the empty string is 0, an optional sign followed by ASCII digits is an integer, and
   * everything else is read as NaN.
   */
  function ToNumber(s: string): JsNumber {
    var t := Trim(s);
    if t == [] then Num(0)
    else if AllDigits(t) then Num(DecimalValue(t))
    else if (t[0] == '-' || t[0] == '+') && |t| > 1 && AllDigits(t[1..]) then
      var v: int := DecimalValue(t[1..]);
      if t[0] == '-' then Num(-v) else Num(v)
    else NaN
  }

  /** A form field's value: a number when the state was initialised with one, the input's text once edited. */
  datatype InputValue = NumberValue(n: int) | TextValue(text: string)

  /** `Number(value)` */
  function NumberOf(v: InputValue): (r: JsNumber)
    ensures v.NumberValue? ==> r == Num(v.n)
    ensures v.TextValue? ==> r == ToNumber(v.text)
  {
    match v
    case NumberValue(n) => Num(n)
    case TextValue(t) => ToNumber(t)
  }

  /** `Number(String(n)) === n` for every integer. */
  lemma {:induction false} NumberOfIntToString(n: int)
    ensures ToNumber(IntToString(n)) == Num(n)
  {
    var s := IntToString(n);
    var digits := NatToString(if n < 0 then -n else n);
    DecimalOfNatToString(if n < 0 then -n else n);
    assert IsTrimmed(s) by {
      assert IsAsciiDigit(digits[|digits| - 1]);
      if n < 0 { assert s[|s| - 1] == digits[|digits| - 1]; }
    }
    TrimOfTrimmed(s);
    if n < 0 {
      assert !IsAsciiDigit(s[0]);
      assert s[1..] == digits;
    }
  }
}
