/** The parts of the Arduino core's `String` class, and of C's `atol` behind
    `String::toInt`, that the traffic-light plugin relies on, stated over Dafny
    strings. `unsigned int` and `unsigned long` are taken to be 32 bits wide. */
module ArduinoString {

  /** The largest value of a 32-bit `unsigned int` or `unsigned long`. */
  const UINT_MAX: nat := 0xFFFF_FFFF

  /** A value of a 32-bit unsigned C type. */
  type U32 = x: int | 0 <= x <= UINT_MAX

  /** C's conversion of a signed value to a 32-bit unsigned type: the value
      modulo 2^32. It turns the -1 of a failed `indexOf` into `UINT_MAX`. */
  function ToUnsigned(i: int): (u: U32)
    ensures 0 <= i <= UINT_MAX ==> u == i
    ensures -(UINT_MAX + 1) <= i < 0 ==> u == i + UINT_MAX + 1
    ensures (i - u) % (UINT_MAX + 1) == 0
  {
    i % (UINT_MAX + 1)
  }

  /** `String::indexOf(c)`: the position of the first `c` in `s`, -1 when `s` holds none. */
  function IndexOf(s: string, c: char): (i: int)
    ensures -1 <= i < |s|
    ensures i == -1 <==> c !in s
    ensures 0 <= i ==> s[i] == c && forall k :: 0 <= k < i ==> s[k] != c
  {
    if |s| == 0 then -1
    else if s[0] == c then 0
    else
      var j := IndexOf(s[1..], c);
      assert s == [s[0]] + s[1..];
      if j < 0 then -1
      else j + 1
  }

  /** A position holding the first `c` is what `IndexOf` returns. */
  lemma IndexOfIs(s: string, c: char, i: nat)
    requires i < |s| && s[i] == c
    requires forall k :: 0 <= k < i ==> s[k] != c
    ensures IndexOf(s, c) == i
  {
  }

  /** A prefix that reaches past the first `c` has its first `c` at the same place. */
  lemma IndexOfPrefix(s: string, c: char, n: nat)
    requires 0 <= IndexOf(s, c) < n <= |s|
    ensures IndexOf(s[..n], c) == IndexOf(s, c)
  {
    IndexOfIs(s[..n], c, IndexOf(s, c));
  }

  /** A prefix that stops before the first `c` holds no `c`. */
  lemma IndexOfPrefixAbsent(s: string, c: char, n: nat)
    requires n <= |s| && !(0 <= IndexOf(s, c) < n)
    ensures IndexOf(s[..n], c) == -1
  {
    assert forall k :: 0 <= k < n ==> s[..n][k] == s[k];
  }

  /** `String::substring(left, right)`: the bounds are swapped when `left > right`,
      a start at or past the end gives the empty string, and an end past the end
      is cut back to the length. */
  function Substring(s: string, left: nat, right: nat): (r: string)
    ensures |r| <= |s|
    ensures left <= right <= |s| ==> r == s[left..right]
    ensures left <= |s| <= right ==> r == s[left..]
    ensures right < left <= |s| ==> r == s[right..left]
    ensures right < |s| < left ==> r == s[right..]
    ensures |s| <= left && |s| <= right ==> r == ""
  {
    var lo := if left <= right then left else right;
    var hi := if left <= right then right else left;
    if lo >= |s| then "" else s[lo..if hi <= |s| then hi else |s|]
  }

  /** `String::substring(left)`, which is `substring(left, length())`. */
  function SubstringFrom(s: string, left: nat): (r: string)
    ensures left <= |s| ==> r == s[left..]
    ensures |s| < left ==> r == ""
  {
    Substring(s, left, |s|)
  }

  /** `s.substring(0, s.indexOf(c))`: `s` up to its first `c`, or all of `s`
      when it holds none (the -1 becomes `UINT_MAX`, which the length cuts back). */
  function UpTo(s: string, c: char): (r: string)
    requires |s| <= UINT_MAX
    ensures c !in s ==> r == s
    ensures c in s ==> r == s[..IndexOf(s, c)]
  {
    Substring(s, 0, ToUnsigned(IndexOf(s, c)))
  }

  /** `s.substring(s.indexOf(c) + 1)`: what follows the first `c` in `s`, or
      all of `s` when it holds none. */
  function After(s: string, c: char): (r: string)
    requires |s| <= UINT_MAX
    ensures c !in s ==> r == s
    ensures c in s ==> r == s[IndexOf(s, c) + 1..]
  {
    SubstringFrom(s, ToUnsigned(IndexOf(s, c) + 1))
  }

  /** `s.substring(s.indexOf(a) + 1, s.indexOf(b))`: when an `a` comes before
      the first `b`, the text between them. */
  function Between(s: string, a: char, b: char): (r: string)
    requires |s| <= UINT_MAX
    ensures 0 <= IndexOf(s, a) < IndexOf(s, b) ==> r == s[IndexOf(s, a) + 1..IndexOf(s, b)]
  {
    Substring(s, ToUnsigned(IndexOf(s, a) + 1), ToUnsigned(IndexOf(s, b)))
  }

  predicate IsDigit(c: char) {
    '0' <= c <= '9'
  }

  /** C's `isspace`: space, tab, line feed, vertical tab, form feed, carriage return. */
  predicate IsSpace(c: char) {
    c == ' ' || '\t' <= c <= '\r'
  }

  predicate AllDigits(p: string) {
    forall i :: 0 <= i < |p| ==> IsDigit(p[i])
  }

  function DigitValue(c: char): (d: nat)
    requires IsDigit(c)
    ensures d < 10
  {
    c as int - '0' as int
  }

  function DigitChar(d: nat): (c: char)
    requires d < 10
    ensures IsDigit(c) && DigitValue(c) == d
  {
    (d + '0' as int) as char
  }

  /** The number a run of decimal digits denotes, most significant digit first. */
  function DecimalValue(p: string): nat
    requires AllDigits(p)
    decreases |p|
  {
    if p == [] then 0 else DecimalValue(p[..|p| - 1]) * 10 + DigitValue(p[|p| - 1])
  }

  /** The longest prefix of `s` that is made of decimal digits. */
  function LeadingDigits(s: string): (p: string)
    ensures |p| <= |s| && p == s[..|p|] && AllDigits(p)
    ensures |p| < |s| ==> !IsDigit(s[|p|])
  {
    if |s| > 0 && IsDigit(s[0]) then [s[0]] + LeadingDigits(s[1..]) else ""
  }

  /** The number of white-space characters `s` starts with. */
  function LeadingSpaces(s: string): (n: nat)
    ensures n <= |s|
    ensures forall i :: 0 <= i < n ==> IsSpace(s[i])
    ensures n < |s| ==> !IsSpace(s[n])
  {
    if |s| > 0 && IsSpace(s[0]) then 1 + LeadingSpaces(s[1..]) else 0
  }

  /** `String::toInt`, that is C's `atol`: white space is skipped, an optional
      sign is read, then the decimal digits that follow; without digits the
      value is 0. */
  function ToInt(s: string): int {
    SignedDecimal(s[LeadingSpaces(s)..])
  }

  /** An optional sign and the decimal digits that follow it, as `atol` reads them. */
  function SignedDecimal(t: string): int {
    if |t| > 0 && (t[0] == '-' || t[0] == '+') then
      var m: int := DecimalValue(LeadingDigits(t[1..]));
      if t[0] == '-' then -m else m
    else
      DecimalValue(LeadingDigits(t))
  }

  /** The decimal text of `n` that `String(n)` prints: most significant digit
      first, no leading zero. */
  function NatToString(n: nat): (r: string)
    ensures |r| >= 1 && AllDigits(r)
    ensures |r| > 1 ==> r[0] != '0'
    decreases n
  {
    if n < 10 then [DigitChar(n)] else NatToString(n / 10) + [DigitChar(n % 10)]
  }

  /** Reading the decimal text of `n` gives `n` back. */
  lemma {:induction false} DecimalValueOfNatToString(n: nat)
    ensures DecimalValue(NatToString(n)) == n
  {
    if n >= 10 {
      var p := NatToString(n / 10);
      var r := p + [DigitChar(n % 10)];
      assert r[..|r| - 1] == p;
      DecimalValueOfNatToString(n / 10);
    }
  }

  /** The digits of `p` are the leading digits of `p + t` when `t` does not go on with a digit. */
  lemma {:induction false} LeadingDigitsOfDigits(p: string, t: string)
    requires AllDigits(p)
    requires t == [] || !IsDigit(t[0])
    ensures LeadingDigits(p + t) == p
    decreases |p|
  {
    if p != [] {
      assert (p + t)[1..] == p[1..] + t;
      LeadingDigitsOfDigits(p[1..], t);
      assert p == [p[0]] + p[1..];
    }
  }

  /** Text that starts with a digit is read from its first character. */
  lemma ToIntFromDigit(q: string)
    requires |q| > 0 && IsDigit(q[0])
    ensures ToInt(q) == DecimalValue(LeadingDigits(q))
  {
    assert LeadingSpaces(q) == 0;
    assert q[0..] == q;
  }

  /** Text that starts with a minus sign is read as the negated digits after it. */
  lemma ToIntFromMinus(q: string)
    requires |q| > 0 && q[0] == '-'
    ensures ToInt(q) == -(DecimalValue(LeadingDigits(q[1..])) as int)
  {
    assert LeadingSpaces(q) == 0;
    assert q[0..] == q;
  }

  /** `toInt` reads a run of digits at the start of the text, whatever non-digit text follows it. */
  lemma ToIntOfDigits(p: string, t: string)
    requires |p| > 0 && AllDigits(p)
    requires t == [] || !IsDigit(t[0])
    ensures ToInt(p + t) == DecimalValue(p)
  {
    LeadingDigitsOfDigits(p, t);
    ToIntFromDigit(p + t);
  }

  /** `toInt` reads a minus sign and a run of digits as the negated digits. */
  lemma ToIntOfMinusDigits(p: string, t: string)
    requires |p| > 0 && AllDigits(p)
    requires t == [] || !IsDigit(t[0])
    ensures ToInt("-" + p + t) == -(DecimalValue(p) as int)
  {
    LeadingDigitsOfDigits(p, t);
    var m := "-" + p + t;
    assert m[1..] == p + t;
    ToIntFromMinus(m);
  }

  /** `toInt` reads back the decimal text of `n`, whatever non-digit text follows it. */
  lemma ToIntOfNatToString(n: nat, t: string)
    requires t == [] || !IsDigit(t[0])
    ensures ToInt(NatToString(n) + t) == n
  {
    DecimalValueOfNatToString(n);
    ToIntOfDigits(NatToString(n), t);
  }

  /** `toInt` reads back the decimal text of `n` behind a minus sign as `-n`. */
  lemma ToIntOfNegated(n: nat, t: string)
    requires t == [] || !IsDigit(t[0])
    ensures ToInt("-" + NatToString(n) + t) == -(n as int)
  {
    DecimalValueOfNatToString(n);
    ToIntOfMinusDigits(NatToString(n), t);
  }

  /** Text without a single digit reads as 0. */
  lemma ToIntWithoutDigits(s: string)
    requires forall i :: 0 <= i < |s| ==> !IsDigit(s[i])
    ensures ToInt(s) == 0
  {
    var t := s[LeadingSpaces(s)..];
    if |t| > 1 {
      assert !IsDigit(t[1]);
    }
  }
}
