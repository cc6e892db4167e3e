/** Decimal digit strings and their values. */
module Decimals {
  predicate IsDigit(c: char) {
    '0' <= c <= '9'
  }

  predicate AllDigits(s: string) {
    forall i :: 0 <= i < |s| ==> IsDigit(s[i])
  }

  function Digit(n: nat): (c: char)
    requires n < 10
    ensures IsDigit(c)
  {
    '0' + n as char
  }

  function Value(c: char): (n: nat)
    requires IsDigit(c)
    ensures n < 10
  {
    c as int - '0' as int
  }

  /** The number a digit string writes. */
  function Number(s: string): nat
    requires AllDigits(s)
  {
    if s == "" then 0 else 10 * Number(s[..|s| - 1]) + Value(s[|s| - 1])
  }

  /** Zero-padded decimal of width `width`. */
  function Padded(n: nat, width: nat): (s: string)
    ensures |s| == width
    decreases width
  {
    if width == 0 then "" else Padded(n / 10, width - 1) + [Digit(n % 10)]
  }

  function Power10(e: nat): nat {
    if e == 0 then 1 else 10 * Power10(e - 1)
  }

  /** Reading a padded number gives the number back. */
  lemma {:induction false} NumberOfPadded(n: nat, width: nat, bound: nat)
    requires n < bound && bound == Power10(width)
    ensures AllDigits(Padded(n, width)) && Number(Padded(n, width)) == n
    decreases width
  {
    if width > 0 {
      assert Padded(n, width)[..width - 1] == Padded(n / 10, width - 1);
      assert Padded(n, width)[width - 1] == Digit(n % 10);
      NumberOfPadded(n / 10, width - 1, Power10(width - 1));
    }
  }

  /** Padding the number a digit string writes to its length gives the string back. */
  lemma {:induction false} PaddedOfNumber(s: string)
    requires AllDigits(s)
    ensures Number(s) < Power10(|s|) && Padded(Number(s), |s|) == s
    decreases |s|
  {
    if s != "" {
      var init, last := s[..|s| - 1], s[|s| - 1];
      PaddedOfNumber(init);
      assert Number(s) / 10 == Number(init) && Number(s) % 10 == Value(last);
      assert s == init + [last];
    }
  }

  lemma PaddedInjective(m: nat, n: nat, width: nat, bound: nat)
    requires m < bound && n < bound && bound == Power10(width)
    requires Padded(m, width) == Padded(n, width)
    ensures m == n
  {
    NumberOfPadded(m, width, bound);
    NumberOfPadded(n, width, bound);
  }

  /** The ten digits have their values, and each place counts ten times the next. */
  lemma PlaceValue(s: string, c: char)
    requires AllDigits(s) && IsDigit(c)
    ensures AllDigits(s + [c]) && Number(s + [c]) == 10 * Number(s) + Value(c) && Number("") == 0
    ensures Value('0') == 0 && Value('1') == 1 && Value('2') == 2 && Value('3') == 3 && Value('4') == 4
    ensures Value('5') == 5 && Value('6') == 6 && Value('7') == 7 && Value('8') == 8 && Value('9') == 9
  {
    assert (s + [c])[..|s|] == s;
  }

  lemma {:induction false} Zeros(width: nat)
    ensures forall i :: 0 <= i < width ==> Padded(0, width)[i] == '0'
    decreases width
  {
    if width > 0 {
      Zeros(width - 1);
    }
  }
}
