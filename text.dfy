/**
 * String rules used throughout the app, as the Kotlin standard library
 * defines them. Case-insensitive comparison and the character classes
 * (`isDigit`, `isWhitespace`) are modelled on ASCII.
 */
module Text {

  /** ASCII lowercase; every other character is its own fold. */
  function Fold(c: char): (r: char)
    ensures 'A' <= c <= 'Z' ==> r as int == c as int + 32
    ensures !('A' <= c <= 'Z') ==> r == c
  {
    if 'A' <= c <= 'Z' then (c as int + 32) as char else c
  }

  predicate SameIgnoringCase(a: char, b: char) {
    Fold(a) == Fold(b)
  }

  /** `s.startsWith(p)` */
  predicate StartsWith(s: string, p: string) {
    |p| <= |s| && s[..|p|] == p
  }

  /** `s.endsWith(p, ignoreCase = true)` */
  predicate EndsWithIgnoreCase(s: string, p: string) {
    |p| <= |s| && forall i :: 0 <= i < |p| ==> SameIgnoringCase(s[|s| - |p| + i], p[i])
  }

  /** `q` occurs in `s` at offset `i`, ignoring case when `ignoreCase` holds. */
  predicate OccursAt(s: string, q: string, i: nat, ignoreCase: bool) {
    i + |q| <= |s| &&
    forall j :: 0 <= j < |q| ==> (if ignoreCase then SameIgnoringCase(s[i + j], q[j]) else s[i + j] == q[j])
  }

  /** `s.contains(q)` */
  predicate Contains(s: string, q: string) {
    exists i: nat | i <= |s| :: OccursAt(s, q, i, false)
  }

  /** `s.contains(q, ignoreCase = true)` */
  predicate ContainsIgnoreCase(s: string, q: string) {
    exists i: nat | i <= |s| :: OccursAt(s, q, i, true)
  }

  /** `Char.isWhitespace()` restricted to ASCII: tab, line feed, vertical tab,
      form feed, carriage return, the four separators 0x1C-0x1F and space. */
  predicate IsWhitespace(c: char) {
    ('\t' <= c <= '\r') || ('\U{1C}' <= c <= '\U{1F}') || c == ' '
  }

  /** `s.isBlank()`: empty or only whitespace. */
  predicate IsBlank(s: string) {
    forall i :: 0 <= i < |s| ==> IsWhitespace(s[i])
  }

  /** `Char.isDigit()` restricted to ASCII. */
  predicate IsDigit(c: char) {
    '0' <= c <= '9'
  }

  /** `s.filter { it.isDigit() }` */
  function DigitsOf(s: string): (r: string)
    ensures forall i :: 0 <= i < |r| ==> IsDigit(r[i])
    ensures |r| <= |s|
    ensures (forall i :: 0 <= i < |s| ==> IsDigit(s[i])) ==> r == s
  {
    if s == [] then []
    else if IsDigit(s[0]) then [s[0]] + DigitsOf(s[1..])
    else DigitsOf(s[1..])
  }

  /** A string of digits cannot be blank unless it is empty. */
  lemma DigitsBlankIffEmpty(s: string)
    requires forall i :: 0 <= i < |s| ==> IsDigit(s[i])
    ensures IsBlank(s) <==> s == []
  {
    if s != [] {
      assert !IsWhitespace(s[0]);
    }
  }

  /** `s.lastIndexOf(c)`: the last position holding `c`, or -1. */
  function LastIndexOf(s: string, c: char): (r: int)
    ensures -1 <= r < |s|
    ensures r >= 0 ==> s[r] == c
    ensures forall j :: r < j < |s| ==> s[j] != c
  {
    if s == [] then -1
    else if s[|s| - 1] == c then |s| - 1
    else LastIndexOf(s[..|s| - 1], c)
  }

  /** `s.substringBeforeLast(c)`: the whole string when `c` does not occur. */
  function SubstringBeforeLast(s: string, c: char): string {
    var i := LastIndexOf(s, c);
    if i == -1 then s else s[..i]
  }

  /** `s.substringAfterLast(c)`: the whole string when `c` does not occur. */
  function SubstringAfterLast(s: string, c: char): string {
    var i := LastIndexOf(s, c);
    if i == -1 then s else s[i + 1..]
  }

  /** Splitting at the last `c` and joining again gives back the string. */
  lemma SplitAtLast(s: string, c: char)
    requires c in s
    ensures SubstringBeforeLast(s, c) + [c] + SubstringAfterLast(s, c) == s
    ensures c !in SubstringAfterLast(s, c)
  {
    var i := LastIndexOf(s, c);
    assert s[..i] + [c] + s[i + 1..] == s;
  }

  /** Without `c`, both halves of the split are the whole string. */
  lemma SplitWithout(s: string, c: char)
    requires c !in s
    ensures SubstringBeforeLast(s, c) == s && SubstringAfterLast(s, c) == s
  {
  }

  /** Joining `d` and a `c`-free `n` with `c` splits back into `d` and `n`. */
  lemma {:induction false} JoinThenSplit(d: string, c: char, n: string)
    requires c !in n
    ensures SubstringBeforeLast(d + [c] + n, c) == d
    ensures SubstringAfterLast(d + [c] + n, c) == n
  {
    var s := d + [c] + n;
    var i := LastIndexOf(s, c);
    assert s[|d|] == c;
    assert forall j :: |d| < j < |s| ==> s[j] == n[j - |d| - 1];
    assert i == |d|;
    assert s[..i] == d;
    assert s[i + 1..] == n;
  }

  /** The decimal digit of `d < 10`. */
  function DigitChar(d: nat): (c: char)
    requires d < 10
    ensures IsDigit(c)
  {
    ['0', '1', '2', '3', '4', '5', '6', '7', '8', '9'][d]
  }

  /** `n.toString()` for a natural number. */
  function NatToString(n: nat): (r: string)
    ensures |r| >= 1
    ensures forall i :: 0 <= i < |r| ==> IsDigit(r[i])
  {
    if n < 10 then [DigitChar(n)] else NatToString(n / 10) + [DigitChar(n % 10)]
  }

  /** `n.toString()` (also the `%d` conversion of `String.format`). */
  function IntToString(n: int): (r: string)
    ensures |r| >= 1
    ensures forall i :: 0 <= i < |r| ==> IsDigit(r[i]) || r[i] == '-'
    ensures n >= 0 ==> r == NatToString(n)
  {
    if n < 0 then "-" + NatToString(-n) else NatToString(n)
  }

  /** The `%02d` conversion: zero-padded to at least two characters. */
  function TwoDigits(n: int): string {
    if 0 <= n < 10 then "0" + NatToString(n) else IntToString(n)
  }

  /** A value in 0..59 prints as exactly two digits. */
  lemma TwoDigitsOfSmall(n: int)
    requires 0 <= n < 60
    ensures |TwoDigits(n)| == 2
    ensures IsDigit(TwoDigits(n)[0]) && IsDigit(TwoDigits(n)[1])
  {
    if n >= 10 {
      assert NatToString(n) == NatToString(n / 10) + [DigitChar(n % 10)];
    }
  }
}
