/** Decimal text as the two nodes handle it: keypad input is a string of
    digits, and both nodes turn such strings into numbers with Arduino's
    `String.toInt`, which is C's `atol` on the string's buffer. */
module Text {

  predicate IsDigit(c: char) {
    '0' <= c <= '9'
  }

  predicate AllDigits(s: string) {
    forall i :: 0 <= i < |s| ==> IsDigit(s[i])
  }

  /** The characters C's `isspace` accepts. */
  predicate IsSpace(c: char) {
    c == ' ' || c == '\t' || c == '\n' || c == '\r' || c == '\U{B}' || c == '\U{C}'
  }

  function DigitValue(c: char): (d: nat)
    requires IsDigit(c)
    ensures d < 10
  {
    (c as int) - ('0' as int)
  }

  function Pow10(n: nat): (p: nat)
    ensures p >= 1
  {
    if n == 0 then 1 else 10 * Pow10(n - 1)
  }

  /** The number a string of decimal digits denotes, most significant digit first.
      A string of n digits denotes less than 10^n. */
  function DecimalValue(s: string): (v: nat)
    requires AllDigits(s)
    ensures v < Pow10(|s|)
  {
    if |s| == 0 then 0 else 10 * DecimalValue(s[..|s| - 1]) + DigitValue(s[|s| - 1])
  }

  /** What is left of `s` once its leading white space is dropped. */
  function SkipSpaces(s: string): (t: string)
    ensures |t| <= |s| && t == s[|s| - |t|..]
    ensures |t| > 0 ==> !IsSpace(t[0])
    ensures forall i :: 0 <= i < |s| - |t| ==> IsSpace(s[i])
  {
    if |s| > 0 && IsSpace(s[0]) then SkipSpaces(s[1..]) else s
  }

  /** The longest prefix of `s` made of digits. */
  function DigitPrefix(s: string): (p: string)
    ensures p <= s
    ensures AllDigits(p)
    ensures |p| < |s| ==> !IsDigit(s[|p|])
  {
    if |s| > 0 && IsDigit(s[0]) then [s[0]] + DigitPrefix(s[1..]) else ""
  }

  /** `String.toInt`: skip white space, read an optional sign, then the digits
      up to the first non-digit; no digits at all reads as 0. On a string of
      digits it is the decimal value of the whole string. */
  function ToInt(s: string): (n: int)
    ensures AllDigits(s) ==> n == DecimalValue(s)
    ensures -(Pow10(|s|) as int) < n < Pow10(|s|)
  {
    var t := SkipSpaces(s);
    if |t| > 0 && t[0] == '-' then
      PrefixValueBound(t[1..], |s|);
      -(DecimalValue(DigitPrefix(t[1..])) as int)
    else if |t| > 0 && t[0] == '+' then
      PrefixValueBound(t[1..], |s|);
      DecimalValue(DigitPrefix(t[1..]))
    else
      PrefixValueBound(t, |s|);
      if AllDigits(s) then
        DigitPrefixOfDigits(s);
        DecimalValue(DigitPrefix(t))
      else
        DecimalValue(DigitPrefix(t))
  }

  lemma {:induction false} Pow10Monotone(m: nat, n: nat)
    requires m <= n
    ensures Pow10(m) <= Pow10(n)
  {
    if m < n {
      Pow10Monotone(m, n - 1);
    }
  }

  lemma PrefixValueBound(t: string, n: nat)
    requires |t| <= n
    ensures DecimalValue(DigitPrefix(t)) < Pow10(n)
  {
    Pow10Monotone(|DigitPrefix(t)|, n);
  }

  /** A string of digits is its own digit prefix, and white space never starts it. */
  lemma {:induction false} DigitPrefixOfDigits(s: string)
    requires AllDigits(s)
    ensures DigitPrefix(s) == s
    ensures SkipSpaces(s) == s
  {
    if |s| > 0 {
      DigitPrefixOfDigits(s[1..]);
    }
  }
}
