/**
 * Decimal digit strings: the value `parseInt` gives a run of ASCII digits
 * (app.js:173-175) and the text a template literal gives a non-negative
 * integer (utils.js:31).
 */
module Decimal {

  /** JavaScript's `\d` without the `u` flag: the ASCII digits only. */
  predicate IsDigit(c: char) {
    '0' <= c <= '9'
  }

  predicate AllDigits(s: string) {
    forall i :: 0 <= i < |s| ==> IsDigit(s[i])
  }

  /** A digit string as an integer renders it: no leading zero unless it is "0". */
  predicate Canonical(s: string) {
    s != [] && AllDigits(s) && (s[0] != '0' || |s| == 1)
  }

  function DigitValue(c: char): (d: nat)
    requires IsDigit(c)
    ensures d < 10
  {
    (c as int - '0' as int) as nat
  }

  function DigitChar(d: nat): (c: char)
    requires d < 10
    ensures IsDigit(c) && DigitValue(c) == d
  {
    ('0' as int + d) as char
  }

  /** Ten to the power `n`. */
  function Pow10(n: nat): (r: nat)
    ensures r >= 1
  {
    if n == 0 then 1 else 10 * Pow10(n - 1)
  }

  /** `parseInt` of a string of decimal digits (leading zeros are ignored); `k` digits stay below `10^k`. */
  function Value(s: string): (v: nat)
    requires AllDigits(s)
    ensures v < Pow10(|s|)
    decreases |s|
  {
    if s == [] then 0 else 10 * Value(s[..|s| - 1]) + DigitValue(s[|s| - 1])
  }

  /** The decimal text of a non-negative integer, as `${n}` produces it. */
  function Digits(n: nat): (r: string)
    ensures Canonical(r)
    decreases n
  {
    if n < 10 then [DigitChar(n)] else Digits(n / 10) + [DigitChar(n % 10)]
  }

  /** Reading back the decimal text of `n` gives `n`. */
  lemma {:induction false} ValueOfDigits(n: nat)
    ensures Value(Digits(n)) == n
  {
    if n >= 10 {
      var s := Digits(n);
      assert s[..|s| - 1] == Digits(n / 10);
      ValueOfDigits(n / 10);
    }
  }

  /** A canonical digit string is not zero unless it is "0". */
  lemma {:induction false} CanonicalValuePositive(s: string)
    requires Canonical(s) && |s| > 1
    ensures Value(s) >= 10
  {
    var p := s[..|s| - 1];
    if |p| > 1 {
      assert p[0] == s[0];
      CanonicalValuePositive(p);
    } else {
      assert p == [s[0]];
      assert Value(p) == 10 * Value([]) + DigitValue(s[0]);
    }
  }

  /** Every canonical digit string is the decimal text of its own value. */
  lemma {:induction false} DigitsOfValue(s: string)
    requires Canonical(s)
    ensures Digits(Value(s)) == s
  {
    if |s| == 1 {
      assert s[..0] == [];
    } else {
      var p := s[..|s| - 1];
      assert p[0] == s[0];
      assert Canonical(p);
      CanonicalValuePositive(s);
      DigitsOfValue(p);
      var c := s[|s| - 1];
      assert Value(s) / 10 == Value(p) && Value(s) % 10 == DigitValue(c);
      assert DigitChar(DigitValue(c)) == c;
      assert s == p + [c];
    }
  }

  /** Appending a digit multiplies the value by ten and adds the digit. */
  lemma ValueSnoc(s: string, c: char)
    requires AllDigits(s) && IsDigit(c)
    ensures AllDigits(s + [c]) && Value(s + [c]) == 10 * Value(s) + DigitValue(c)
  {
    assert (s + [c])[..|s|] == s;
  }

  /** Reading `a + b` shifts the value of `a` left by the digits of `b`. */
  lemma {:induction false} ValueAppend(a: string, b: string)
    requires AllDigits(a) && AllDigits(b)
    ensures Value(a + b) == Value(a) * Pow10(|b|) + Value(b)
    decreases |b|
  {
    if b == [] {
      assert a + b == a;
    } else {
      var b', c := b[..|b| - 1], b[|b| - 1];
      assert b' + [c] == b && (a + b') + [c] == a + b;
      ValueAppend(a, b');
      ValueSnoc(a + b', c);
      ValueSnoc(b', c);
      ShiftLeft(Value(a), Pow10(|b'|), Value(b'), DigitValue(c));
    }
  }

  /** One more digit on the right multiplies what is on its left by ten. */
  lemma ShiftLeft(va: int, p: int, vb: int, d: int)
    ensures 10 * (va * p + vb) + d == va * (10 * p) + (10 * vb + d)
  {
    assert va * (10 * p) == 10 * (va * p);
  }

  /** A run of zeros reads as zero. */
  lemma {:induction false} ValueZeros(n: nat)
    ensures AllDigits(seq(n, _ => '0')) && Value(seq(n, _ => '0')) == 0
  {
    if n > 0 {
      var z := seq(n, _ => '0');
      assert z[..n - 1] == seq(n - 1, _ => '0');
      ValueZeros(n - 1);
    }
  }

  /** `parseInt` ignores leading zeros: a zero-padded field such as `"050"` reads as `50`. */
  lemma LeadingZerosIgnored(n: nat, s: string)
    requires AllDigits(s)
    ensures AllDigits(seq(n, _ => '0') + s) && Value(seq(n, _ => '0') + s) == Value(s)
  {
    ValueZeros(n);
    ValueAppend(seq(n, _ => '0'), s);
  }

  /** The decimal text of `n` is one character long exactly when `n` is below ten. */
  lemma {:induction false} DigitsSingle(n: nat)
    ensures |Digits(n)| == 1 <==> n < 10
  {
    if n >= 10 {
      assert |Digits(n)| == |Digits(n / 10)| + 1;
    }
  }

  /** Below one hundred the decimal text has at most two characters. */
  lemma {:induction false} DigitsBelowHundred(n: nat)
    requires n < 100
    ensures |Digits(n)| == if n < 10 then 1 else 2
  {
    if n >= 10 {
      DigitsSingle(n / 10);
    }
  }
}
