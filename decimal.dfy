/** Decimal digit strings: what the patterns `\d` match, the number a digit
    string denotes, and the zero-padded digits `toISOString` writes. */
module Decimal {

  /** `\d` in a JavaScript regular expression without the `u` flag: an ASCII digit. */
  predicate IsDigit(c: char)
  {
    '0' <= c <= '9'
  }

  /** `^\d*$`, matched one character at a time from the left. */
  function AllDigits(s: string): (ok: bool)
    ensures ok <==> forall i :: 0 <= i < |s| ==> IsDigit(s[i])
    decreases |s|
  {
    s == [] || (IsDigit(s[0]) && AllDigits(s[1..]))
  }

  function DigitValue(c: char): (n: nat)
    requires IsDigit(c)
    ensures n < 10
  {
    c as int - '0' as int
  }

  function DigitChar(n: nat): (c: char)
    requires n < 10
    ensures IsDigit(c) && DigitValue(c) == n
  {
    ('0' as int + n) as char
  }

  function Pow10(n: nat): (p: nat)
    ensures p >= 1
  {
    if n == 0 then 1 else 10 * Pow10(n - 1)
  }

  /** The number an all-digit string denotes in base 10 (what `parseInt`
      returns for it, leading zeros included). */
  function ValueOf(s: string): (n: nat)
    requires AllDigits(s)
    ensures n < Pow10(|s|)
    decreases |s|
  {
    if s == [] then 0 else 10 * ValueOf(s[..|s| - 1]) + DigitValue(s[|s| - 1])
  }

  /** `n` written in exactly `width` decimal digits: zero-padded on the left,
      or its last `width` digits when it is wider. */
  function Pad(n: nat, width: nat): (s: string)
    ensures |s| == width && AllDigits(s)
  {
    if width == 0 then [] else Pad(n / 10, width - 1) + [DigitChar(n % 10)]
  }

  /** Reading back what `Pad` wrote gives the number, when it fits. */
  lemma {:induction false} ValueOfPad(n: nat, width: nat)
    requires n < Pow10(width)
    ensures ValueOf(Pad(n, width)) == n
  {
    if width > 0 {
      var p := Pad(n, width);
      assert p[..|p| - 1] == Pad(n / 10, width - 1);
      ValueOfPad(n / 10, width - 1);
    }
  }

  /** Padding the value of a digit string to its own length gives the string back. */
  lemma {:induction false} PadValueOf(s: string)
    requires AllDigits(s)
    ensures Pad(ValueOf(s), |s|) == s
  {
    if s != [] {
      var init, last := s[..|s| - 1], s[|s| - 1];
      assert AllDigits(init);
      PadValueOf(init);
      var a, d := ValueOf(init), DigitValue(last);
      assert ValueOf(s) == 10 * a + d;
      LastDigitSplit(a, d);
      calc {
        Pad(ValueOf(s), |s|);
        Pad(a, |s| - 1) + [DigitChar(d)];
        init + [last];
        s;
      }
    }
  }

  /** Appending digit `d` to the number `a` and splitting off the last digit
      again gives back `a` and `d`. */
  lemma LastDigitSplit(a: nat, d: nat)
    requires d < 10
    ensures (10 * a + d) / 10 == a && (10 * a + d) % 10 == d
  {
  }

  /** Two digit strings of one length are equal exactly when their values are. */
  lemma SameValueSameDigits(s: string, t: string)
    requires AllDigits(s) && AllDigits(t) && |s| == |t|
    ensures ValueOf(s) == ValueOf(t) <==> s == t
  {
    if ValueOf(s) == ValueOf(t) {
      PadValueOf(s);
      PadValueOf(t);
    }
  }
}
