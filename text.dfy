/** The string helpers the renderer relies on: decimal output of `size_t` values
    (`std::ostream << size_t`), C's `atoi`, `boost::split` with `is_any_of`,
    `boost::starts_with` and the ASCII case-insensitive `boost::iends_with`. */
module Text {

  predicate IsDigit(c: char) { '0' <= c <= '9' }

  predicate AllDigits(s: string) { forall k :: 0 <= k < |s| ==> IsDigit(s[k]) }

  /** C's `isspace` in the "C" locale: blank, tab, newline, vertical tab, form feed,
      carriage return. */
  predicate IsSpace(c: char) { c == ' ' || '\t' <= c <= '\r' }

  function DigitChar(d: nat): (c: char)
    requires d < 10
    ensures IsDigit(c)
  {
    "0123456789"[d]
  }

  function DigitValue(c: char): (d: nat)
    requires IsDigit(c)
    ensures d < 10
  {
    (c as int) - ('0' as int)
  }

  /** The decimal text of a non-negative integer, as `std::ostream` prints it. */
  function NatToString(n: nat): (s: string)
    ensures |s| >= 1 && AllDigits(s)
    decreases n
  {
    if n < 10 then [DigitChar(n)] else NatToString(n / 10) + [DigitChar(n % 10)]
  }

  /** The value of a string of decimal digits (empty string: 0). */
  function DigitsValue(s: string): nat
    requires AllDigits(s)
  {
    if s == [] then 0 else 10 * DigitsValue(s[..|s| - 1]) + DigitValue(s[|s| - 1])
  }

  /** The longest prefix of `s` made of decimal digits. */
  function LeadingDigits(s: string): (d: string)
    ensures AllDigits(d) && d <= s
    ensures d == s || !IsDigit(s[|d|])
  {
    if s == [] || !IsDigit(s[0]) then [] else [s[0]] + LeadingDigits(s[1..])
  }

  function SkipSpaces(s: string): (t: string)
    ensures |t| <= |s| && t == s[|s| - |t|..]
    ensures t == [] || !IsSpace(t[0])
  {
    if s != [] && IsSpace(s[0]) then SkipSpaces(s[1..]) else s
  }

  /** C's `atoi`: leading white space, an optional sign, then as many decimal digits
      as follow; no digits gives 0. Overflow, undefined in C, is not modelled. */
  function Atoi(s: string): int
  {
    var t := SkipSpaces(s);
    if t != [] && t[0] == '-' then 0 - DigitsValue(LeadingDigits(t[1..]))
    else if t != [] && t[0] == '+' then DigitsValue(LeadingDigits(t[1..]))
    else DigitsValue(LeadingDigits(t))
  }

  lemma {:induction false} DigitsOfNatToString(n: nat)
    ensures DigitsValue(NatToString(n)) == n
    decreases n
  {
    var s := NatToString(n);
    if n >= 10 {
      DigitsOfNatToString(n / 10);
      assert s[..|s| - 1] == NatToString(n / 10);
    }
  }

  /** Leading digits stop at the first character that is not a digit. */
  lemma {:induction false} LeadingDigitsOf(d: string, rest: string)
    requires AllDigits(d)
    requires rest == [] || !IsDigit(rest[0])
    ensures LeadingDigits(d + rest) == d
  {
    if d != [] {
      assert (d + rest)[1..] == d[1..] + rest;
      LeadingDigitsOf(d[1..], rest);
    }
  }

  /** `atoi` reads back what `NatToString` wrote, up to a following non-digit. */
  lemma AtoiNatToString(n: nat, rest: string)
    requires rest == [] || !IsDigit(rest[0])
    ensures Atoi(NatToString(n) + rest) == n
  {
    var d := NatToString(n);
    var s := d + rest;
    assert s[0] == d[0] && IsDigit(d[0]);
    AtoiUnsigned(s);
    LeadingDigitsOf(d, rest);
    DigitsOfNatToString(n);
  }

  /** Without leading space or sign, `atoi` reads the leading digits. */
  lemma AtoiUnsigned(s: string)
    requires s != [] && IsDigit(s[0])
    ensures Atoi(s) == DigitsValue(LeadingDigits(s))
  {
    assert !IsSpace(s[0]);
    assert SkipSpaces(s) == s;
  }

  /** `atoi` of a negative number. */
  lemma AtoiNegative(n: nat)
    ensures Atoi("-" + NatToString(n)) == 0 - n
  {
    var s := "-" + NatToString(n);
    assert SkipSpaces(s) == s;
    assert s[1..] == NatToString(n);
    LeadingDigitsOf(NatToString(n), []);
    assert NatToString(n) + [] == NatToString(n);
    DigitsOfNatToString(n);
  }

  /** `boost::split(parts, s, is_any_of(seps))` without token compression: every
      separator ends a part, so adjacent separators yield empty parts. */
  function Split(s: string, seps: set<char>): (parts: seq<string>)
    ensures |parts| >= 1
    decreases |s|
  {
    if s == [] then [""]
    else
      var rest := Split(s[1..], seps);
      if s[0] in seps then [""] + rest else [[s[0]] + rest[0]] + rest[1..]
  }

  function CountIn(s: string, seps: set<char>): nat
  {
    if s == [] then 0 else (if s[0] in seps then 1 else 0) + CountIn(s[1..], seps)
  }

  predicate NoneIn(s: string, seps: set<char>) { forall k :: 0 <= k < |s| ==> s[k] !in seps }

  /** There is one part more than there are separators, and no part contains one. */
  lemma {:induction false} SplitShape(s: string, seps: set<char>)
    ensures |Split(s, seps)| == CountIn(s, seps) + 1
    ensures forall p :: p in Split(s, seps) ==> NoneIn(p, seps)
    decreases |s|
  {
    if s != [] {
      SplitShape(s[1..], seps);
      var rest := Split(s[1..], seps);
      if s[0] !in seps {
        var p := [s[0]] + rest[0];
        assert rest[0] in rest;
        assert NoneIn(p, seps);
        assert Split(s, seps) == [p] + rest[1..];
        forall q | q in Split(s, seps) ensures NoneIn(q, seps) {
          if q != p { assert q in rest; }
        }
      }
    }
  }

  /** A text without separators is a single part. */
  lemma {:induction false} SplitNone(s: string, seps: set<char>)
    requires NoneIn(s, seps)
    ensures Split(s, seps) == [s]
    decreases |s|
  {
    if s != [] {
      SplitNone(s[1..], seps);
      assert [s[0]] + s[1..] == s;
    }
  }

  /** Splitting `a + [c] + b` at its first separator `c`. */
  lemma {:induction false} SplitAt(a: string, c: char, b: string, seps: set<char>)
    requires NoneIn(a, seps) && c in seps
    ensures Split(a + [c] + b, seps) == [a] + Split(b, seps)
    decreases |a|
  {
    if a == [] {
      assert a + [c] + b == [c] + b;
      assert ([c] + b)[1..] == b;
    } else {
      SplitAt(a[1..], c, b, seps);
      assert (a + [c] + b)[1..] == a[1..] + [c] + b;
      assert [a[0]] + a[1..] == a;
    }
  }

  /** `boost::starts_with`. */
  predicate StartsWith(s: string, prefix: string)
  {
    |prefix| <= |s| && s[..|prefix|] == prefix
  }

  /** ASCII lower case, the "C" locale's `tolower`. */
  function LowerChar(c: char): (l: char)
    ensures !('A' <= l <= 'Z')
  {
    if 'A' <= c <= 'Z' then (c as int - 'A' as int + 'a' as int) as char else c
  }

  function Lower(s: string): (l: string)
    ensures |l| == |s|
    ensures forall k :: 0 <= k < |s| ==> l[k] == LowerChar(s[k])
  {
    seq(|s|, k requires 0 <= k < |s| => LowerChar(s[k]))
  }

  /** `boost::iends_with`: `s` ends with `suffix`, ignoring ASCII case. */
  predicate IEndsWith(s: string, suffix: string)
  {
    |suffix| <= |s| && Lower(s[|s| - |suffix|..]) == Lower(suffix)
  }
}
