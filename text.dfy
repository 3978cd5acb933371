/** Character and string primitives shared by the Python and JavaScript transforms.

    Python's str.lower()/str.title()/str.strip() and JavaScript's toLowerCase()/trim() and
    regex class `\s` are Unicode-aware; this module gives one concrete instance of them:
    whitespace is the ASCII set, and the cased letters are the ASCII letters and the
    Latin-1 letter pairs (U+00C0..U+00DE with U+00E0..U+00FE, except the two operators). */
module Text {

  // ---------------------------------------------------------------------------
  // Character classes

  /** Whitespace for strip/trim and the regex class `\s`. */
  predicate IsSpace(c: char) {
    c == ' ' || c == '\t' || c == '\n' || c == '\r' || c == '\U{000B}' || c == '\U{000C}'
  }

  predicate IsUpper(c: char) {
    ('A' <= c <= 'Z') || ('\U{00C0}' <= c <= '\U{00DE}' && c != '\U{00D7}')
  }

  predicate IsLower(c: char) {
    ('a' <= c <= 'z') || ('\U{00E0}' <= c <= '\U{00FE}' && c != '\U{00F7}')
  }

  /** A letter that has an upper- and a lower-case form. */
  predicate IsCased(c: char) {
    IsUpper(c) || IsLower(c)
  }

  predicate IsDigit(c: char) {
    '0' <= c <= '9'
  }

  function LowerChar(c: char): (d: char)
    ensures !IsUpper(d)
    ensures IsCased(d) == IsCased(c)
    ensures !IsCased(c) ==> d == c
  {
    if IsUpper(c) then (c as int + 32) as char else c
  }

  function UpperChar(c: char): (d: char)
    ensures !IsLower(d)
    ensures IsCased(d) == IsCased(c)
    ensures !IsCased(c) ==> d == c
  {
    if IsLower(c) then (c as int - 32) as char else c
  }

  // ---------------------------------------------------------------------------
  // Whole-string maps

  /** str.lower() / String.prototype.toLowerCase(). */
  function Lower(s: string): (r: string)
    ensures |r| == |s|
    ensures forall i :: 0 <= i < |s| ==> r[i] == LowerChar(s[i])
  {
    seq(|s|, i requires 0 <= i < |s| => LowerChar(s[i]))
  }

  /** Every occurrence of `from` replaced by `to` (str.replace / String.replace with a
      global one-character pattern). */
  function ReplaceChar(s: string, from: char, to: char): (r: string)
    ensures |r| == |s|
    ensures forall i :: 0 <= i < |s| ==> r[i] == (if s[i] == from then to else s[i])
  {
    seq(|s|, i requires 0 <= i < |s| => if s[i] == from then to else s[i])
  }

  lemma {:induction false} ReplaceCharRemovesAll(s: string, from: char, to: char)
    requires from != to
    ensures forall i :: 0 <= i < |ReplaceChar(s, from, to)| ==> ReplaceChar(s, from, to)[i] != from
  {
  }

  lemma {:induction false} ReplaceCharIdempotent(s: string, from: char, to: char)
    ensures ReplaceChar(ReplaceChar(s, from, to), from, to) == ReplaceChar(s, from, to)
  {
  }

  lemma {:induction false} LowerAppend(a: string, b: string)
    ensures Lower(a + b) == Lower(a) + Lower(b)
  {
  }

  lemma {:induction false} LowerOfSpaces(w: string)
    requires AllSpace(w)
    ensures Lower(w) == w
  {
  }

  lemma {:induction false} LowerIdempotent(s: string)
    ensures Lower(Lower(s)) == Lower(s)
  {
  }

  // ---------------------------------------------------------------------------
  // Substrings and prefixes

  /** Python's `kw in text` on strings: `k` occurs somewhere in `s` as a contiguous block. */
  predicate Contains(s: string, k: string) {
    exists i :: 0 <= i <= |s| && k <= s[i..]
  }

  /** Lower-casing keeps every occurrence, lower-cased. */
  lemma {:induction false} LowerKeepsContains(s: string, k: string)
    requires Contains(s, k)
    ensures Contains(Lower(s), Lower(k))
  {
    var i :| 0 <= i <= |s| && k <= s[i..];
    assert Lower(k) <= Lower(s)[i..];
  }

  lemma {:induction false} ContainsAt(s: string, k: string, i: nat)
    requires i <= |s| && k <= s[i..]
    ensures Contains(s, k)
  {
  }

  /** Occurrence is preserved when text is added on either side. */
  lemma {:induction false} ContainsInContext(a: string, s: string, b: string, k: string)
    requires Contains(s, k)
    ensures Contains(a + s + b, k)
  {
    var i :| 0 <= i <= |s| && k <= s[i..];
    var t := a + s + b;
    assert t[|a| + i..] == s[i..] + b;
    assert k <= t[|a| + i..];
  }

  // ---------------------------------------------------------------------------
  // Trimming

  predicate AllSpace(s: string) {
    forall i :: 0 <= i < |s| ==> IsSpace(s[i])
  }

  predicate NoSpace(s: string) {
    forall i :: 0 <= i < |s| ==> !IsSpace(s[i])
  }

  /** Length of the leading whitespace run. */
  function LeadingSpaces(s: string): (n: nat)
    ensures n <= |s| && forall j :: 0 <= j < n ==> IsSpace(s[j])
    ensures n < |s| ==> !IsSpace(s[n])
  {
    SpacesFrom(s, 0)
  }

  /** Length of the whitespace run starting at position i. */
  function SpacesFrom(s: string, i: nat): (n: nat)
    requires i <= |s|
    ensures i + n <= |s| && forall j :: i <= j < i + n ==> IsSpace(s[j])
    ensures i + n < |s| ==> !IsSpace(s[i + n])
    decreases |s| - i
  {
    if i < |s| && IsSpace(s[i]) then SpacesFrom(s, i + 1) + 1 else 0
  }

  /** Length of the trailing whitespace run. */
  function TrailingSpaces(s: string): (n: nat)
    ensures n <= |s| && AllSpace(s[|s| - n..])
    ensures n < |s| ==> !IsSpace(s[|s| - n - 1])
  {
    var n := TrailingBefore(s, |s|);
    var t := s[|s| - n..];
    assert forall i :: 0 <= i < |t| ==> t[i] == s[|s| - n + i];
    n
  }

  /** Length of the whitespace run that ends just before position k. */
  function TrailingBefore(s: string, k: nat): (n: nat)
    requires k <= |s|
    ensures n <= k && forall j :: k - n <= j < k ==> IsSpace(s[j])
    ensures n < k ==> !IsSpace(s[k - n - 1])
  {
    if k > 0 && IsSpace(s[k - 1]) then TrailingBefore(s, k - 1) + 1 else 0
  }

  /** Python's str.strip() and JavaScript's trim(): both whitespace runs at the ends go, the
      text between them stays as it was. */
  function Strip(s: string): (r: string)
    ensures r == [] || (!IsSpace(r[0]) && !IsSpace(r[|r| - 1]))
    ensures exists a, b :: AllSpace(a) && AllSpace(b) && s == a + r + b
    ensures LeadingSpaces(s) + |r| <= |s| && r == s[LeadingSpaces(s)..LeadingSpaces(s) + |r|]
  {
    var n := LeadingSpaces(s);
    var t := s[n..];
    var m := TrailingSpaces(t);
    var r := t[..|t| - m];
    assert s == s[..n] + r + t[|t| - m..];
    assert r != [] ==> r[0] == s[n] && r[|r| - 1] == t[|t| - m - 1];
    r
  }

  /** Character i of the stripped text is the one after the leading whitespace. */
  lemma {:induction false} StripAt(s: string)
    ensures forall i :: 0 <= i < |Strip(s)| ==> Strip(s)[i] == s[LeadingSpaces(s) + i]
  {
    var r := Strip(s);
    var n := LeadingSpaces(s);
    assert forall i :: 0 <= i < |r| ==> r[i] == s[n..n + |r|][i];
  }

  /** Text with no whitespace at either end is its own strip. */
  lemma {:induction false} StripNoEdgeSpace(s: string)
    requires s == [] || (!IsSpace(s[0]) && !IsSpace(s[|s| - 1]))
    ensures Strip(s) == s
  {
    if s != [] {
      assert LeadingSpaces(s) == 0;
      assert TrailingSpaces(s) == 0;
    }
  }

  /** Text that is all whitespace strips to nothing. */
  lemma {:induction false} StripAllSpace(s: string)
    requires AllSpace(s)
    ensures Strip(s) == ""
  {
  }

  lemma {:induction false} StripIdempotent(s: string)
    ensures Strip(Strip(s)) == Strip(s)
  {
    StripNoEdgeSpace(Strip(s));
  }

  /** Lower-casing never creates or removes whitespace, so it commutes with Strip. */
  lemma {:induction false} LowerKeepsSpaces(s: string)
    ensures forall i :: 0 <= i < |s| ==> (IsSpace(Lower(s)[i]) <==> IsSpace(s[i]))
  {
  }

  // ---------------------------------------------------------------------------
  // Decimal numerals

  function DigitValue(c: char): (d: nat)
    requires IsDigit(c)
    ensures d < 10
  {
    c as int - '0' as int
  }

  function DigitChar(d: nat): (c: char)
    requires d < 10
    ensures IsDigit(c) && DigitValue(c) == d
  {
    ('0' as int + d) as char
  }

  predicate AllDigits(s: string) {
    forall i :: 0 <= i < |s| ==> IsDigit(s[i])
  }

  /** The number a string of decimal digits denotes (leading zeros allowed). */
  function DecValue(ds: string): nat
    requires AllDigits(ds)
    decreases |ds|
  {
    if ds == [] then 0 else DecValue(ds[..|ds| - 1]) * 10 + DigitValue(ds[|ds| - 1])
  }

  /** Python's str() and JavaScript's String() of a natural number. */
  function Decimal(n: nat): (r: string)
    ensures |r| >= 1 && AllDigits(r)
    ensures r[0] == '0' ==> n == 0
    decreases n
  {
    if n < 10 then [DigitChar(n)] else Decimal(n / 10) + [DigitChar(n % 10)]
  }

  /** str() of an integer: a minus sign for negative values. */
  function IntString(n: int): string {
    if n < 0 then "-" + Decimal(-n) else Decimal(n)
  }

  lemma {:induction false} DecimalValue(n: nat)
    ensures DecValue(Decimal(n)) == n
    decreases n
  {
    if n >= 10 {
      DecimalValue(n / 10);
      var d := Decimal(n);
      assert d[..|d| - 1] == Decimal(n / 10);
    }
  }
}
