/**
 * The string operations the application relies on, as JavaScript defines
 * them: `toLowerCase` (ASCII letters only), `includes`, `trim`,
 * `split(',')` / `join(',')`, `Number.prototype.toString` and `parseInt`.
 */
module Strings {
  import opened Results

  predicate IsUpperAscii(c: char) {
    'A' <= c <= 'Z'
  }

  function LowerChar(c: char): char {
    if IsUpperAscii(c) then (c as int + 32) as char else c
  }

  /** Case folding used by the case-insensitive regex flag, restricted to ASCII letters. */
  function Lower(s: string): (r: string)
    ensures |r| == |s|
    ensures forall i :: 0 <= i < |s| ==> r[i] == LowerChar(s[i])
  {
    seq(|s|, i requires 0 <= i < |s| => LowerChar(s[i]))
  }

  lemma LowerIdempotent(s: string)
    ensures Lower(Lower(s)) == Lower(s)
  {
    assert forall i :: 0 <= i < |s| ==> LowerChar(LowerChar(s[i])) == LowerChar(s[i]);
  }

  /** `t` occurs in `s` starting at index `i`. */
  predicate OccursAt(s: string, t: string, i: int) {
    0 <= i <= |s| - |t| && s[i..i + |t|] == t
  }

  /** `s.includes(t)`: `t` occurs in `s` as a contiguous substring. */
  predicate Contains(s: string, t: string) {
    exists i :: 0 <= i <= |s| - |t| && OccursAt(s, t, i)
  }

  /** A string cannot contain a text holding a character the string lacks. */
  lemma MissingCharNotContained(s: string, t: string, c: char)
    requires c in t && c !in s
    ensures !Contains(s, t)
  {
  }

  /** WhiteSpace and LineTerminator code points as ECMAScript's `String.prototype.trim` strips them. */
  predicate IsJsWhitespace(c: char) {
    c == '\t' || c == '\n' || c == '\U{B}' || c == '\U{C}' || c == '\r' || c == ' ' ||
    c == '\U{A0}' || c == '\U{1680}' || ('\U{2000}' <= c <= '\U{200A}') ||
    c == '\U{2028}' || c == '\U{2029}' || c == '\U{202F}' || c == '\U{205F}' ||
    c == '\U{3000}' || c == '\U{FEFF}'
  }

  predicate AllWhitespace(s: string) {
    forall i :: 0 <= i < |s| ==> IsJsWhitespace(s[i])
  }

  /** Index of the first non-whitespace character at or after `i`, or `|s|`. */
  function TrimStartIndex(s: string, i: nat): (r: nat)
    requires i <= |s|
    ensures i <= r <= |s|
    ensures forall k :: i <= k < r ==> IsJsWhitespace(s[k])
    ensures r == |s| || !IsJsWhitespace(s[r])
    decreases |s| - i
  {
    if i < |s| && IsJsWhitespace(s[i]) then TrimStartIndex(s, i + 1) else i
  }

  /** One past the last non-whitespace character of `s[lo..j]`, or `lo`. */
  function TrimEndIndex(s: string, lo: nat, j: nat): (r: nat)
    requires lo <= j <= |s|
    ensures lo <= r <= j
    ensures forall k :: r <= k < j ==> IsJsWhitespace(s[k])
    ensures r == lo || !IsJsWhitespace(s[r - 1])
  {
    if j > lo && IsJsWhitespace(s[j - 1]) then TrimEndIndex(s, lo, j - 1) else j
  }

  /**
   * `s.trim()`: the slice of `s` between its leading and its trailing
   * whitespace; it neither starts nor ends with whitespace, and everything
   * cut off on either side is whitespace.
   */
  function Trim(s: string): (r: string)
    ensures |r| <= |s|
    ensures r == [] || (!IsJsWhitespace(r[0]) && !IsJsWhitespace(r[|r| - 1]))
    ensures exists i :: 0 <= i <= |s| - |r| && r == s[i..i + |r|] &&
                        AllWhitespace(s[..i]) && AllWhitespace(s[i + |r|..])
  {
    var i := TrimStartIndex(s, 0);
    var j := TrimEndIndex(s, i, |s|);
    assert AllWhitespace(s[..i]) && AllWhitespace(s[j..]);
    s[i..j]
  }

  lemma {:induction false} TrimWhitespaceOnly(s: string)
    requires AllWhitespace(s)
    ensures Trim(s) == ""
  {
    var i := TrimStartIndex(s, 0);
    assert i == |s|;
  }

  /** A string that neither starts nor ends with whitespace is its own trim. */
  lemma TrimUnpadded(s: string)
    requires s == [] || (!IsJsWhitespace(s[0]) && !IsJsWhitespace(s[|s| - 1]))
    ensures Trim(s) == s
  {
    assert TrimStartIndex(s, 0) == 0;
    assert s[0..|s|] == s;
  }

  lemma {:induction false} TrimIdempotent(s: string)
    ensures Trim(Trim(s)) == Trim(s)
  {
    TrimUnpadded(Trim(s));
  }

  // ---- split and join on a separator character ----

  /** `s.split(sep)`: never empty; the empty string splits into `[""]`. */
  function Split(s: string, sep: char): (r: seq<string>)
    ensures |r| >= 1
    decreases |s|
  {
    if s == [] then [""]
    else if s[0] == sep then [""] + Split(s[1..], sep)
    else
      var rest := Split(s[1..], sep);
      [[s[0]] + rest[0]] + rest[1..]
  }

  /** `xs.join(sep)`. */
  function Join(xs: seq<string>, sep: char): string {
    if xs == [] then ""
    else if |xs| == 1 then xs[0]
    else xs[0] + [sep] + Join(xs[1..], sep)
  }

  predicate FreeOf(xs: seq<string>, sep: char) {
    forall i :: 0 <= i < |xs| ==> sep !in xs[i]
  }

  lemma {:induction false} SplitPrefix(a: string, tail: string, sep: char)
    requires sep !in a
    ensures Split(a + tail, sep) == [a + Split(tail, sep)[0]] + Split(tail, sep)[1..]
    decreases |a|
  {
    if a != [] {
      assert (a + tail)[0] == a[0];
      assert (a + tail)[1..] == a[1..] + tail;
      SplitPrefix(a[1..], tail, sep);
      assert [a[0]] + (a[1..] + Split(tail, sep)[0]) == a + Split(tail, sep)[0];
    } else {
      assert a + tail == tail;
      assert a + Split(tail, sep)[0] == Split(tail, sep)[0];
      assert [Split(tail, sep)[0]] + Split(tail, sep)[1..] == Split(tail, sep);
    }
  }

  /** `split` undoes `join` when no element contains the separator. */
  lemma {:induction false} SplitJoin(xs: seq<string>, sep: char)
    requires |xs| >= 1 && FreeOf(xs, sep)
    ensures Split(Join(xs, sep), sep) == xs
  {
    if |xs| == 1 {
      SplitPrefix(xs[0], "", sep);
      assert xs[0] + "" == xs[0];
    } else {
      assert sep !in xs[0];
      var tail := [sep] + Join(xs[1..], sep);
      assert Join(xs, sep) == xs[0] + tail;
      SplitPrefix(xs[0], tail, sep);
      SplitJoin(xs[1..], sep);
      assert tail[0] == sep && tail[1..] == Join(xs[1..], sep);
      assert Split(tail, sep) == [""] + xs[1..];
      assert xs[0] + "" == xs[0];
      assert [xs[0]] + xs[1..] == xs;
    }
  }

  /** The joined string is empty only for `[]` and `[""]`. */
  lemma {:induction false} JoinEmpty(xs: seq<string>, sep: char)
    ensures Join(xs, sep) == "" <==> xs == [] || xs == [""]
  {
    if |xs| >= 2 {
      assert |Join(xs, sep)| >= 1;
    }
  }

  // ---- decimal numbers ----

  predicate IsDigit(c: char) {
    '0' <= c <= '9'
  }

  predicate AllDigits(s: string) {
    forall i :: 0 <= i < |s| ==> IsDigit(s[i])
  }

  function DigitChar(d: nat): (c: char)
    requires d < 10
    ensures IsDigit(c)
  {
    ('0' as int + d) as char
  }

  function DigitsValue(s: string): nat
    requires AllDigits(s)
  {
    if s == [] then 0 else 10 * DigitsValue(s[..|s| - 1]) + (s[|s| - 1] as int - '0' as int)
  }

  /** Decimal digits of `n` without leading zeros. */
  function NatToString(n: nat): (r: string)
    ensures |r| >= 1 && AllDigits(r)
  {
    if n < 10 then [DigitChar(n)] else NatToString(n / 10) + [DigitChar(n % 10)]
  }

  /** `n.toString()` for an integer. */
  function IntToString(n: int): string {
    if n < 0 then "-" + NatToString(-n) else NatToString(n)
  }

  /** `parseInt(s)` on an optionally signed run of digits; `None` stands for NaN. */
  function ParseInt(s: string): Option<int> {
    if |s| > 0 && AllDigits(s) then Some(DigitsValue(s))
    else if |s| > 1 && s[0] == '-' && AllDigits(s[1..]) then Some(-(DigitsValue(s[1..]) as int))
    else None
  }

  lemma {:induction false} DigitsOfNat(n: nat)
    ensures DigitsValue(NatToString(n)) == n
  {
    var s := NatToString(n);
    if n >= 10 {
      DigitsOfNat(n / 10);
      assert s[..|s| - 1] == NatToString(n / 10);
    }
  }

  /** `parseInt` reads back what `toString` wrote. */
  lemma {:induction false} ParseIntToString(n: int)
    ensures ParseInt(IntToString(n)) == Some(n)
  {
    if n < 0 {
      var d := NatToString(-n);
      assert ("-" + d)[1..] == d;
      assert ("-" + d)[0] == '-';
      DigitsOfNat(-n);
    } else {
      DigitsOfNat(n);
    }
  }
}
