/** Rust's decimal `Display` of integers with a zero-padded minimum width, as the
    format spec `04` in `format!` asks for: the sign counts toward the width and the zeros go
    between the sign and the digits. */
module Decimal {
  import opened Wrappers

  predicate IsDigit(c: char) {
    '0' <= c <= '9'
  }

  predicate AllDigits(s: string) {
    forall i :: 0 <= i < |s| ==> IsDigit(s[i])
  }

  function Pow10(k: nat): (p: nat)
    ensures p >= 1
  {
    if k == 0 then 1 else 10 * Pow10(k - 1)
  }

  function DigitChar(d: nat): (c: char)
    requires d < 10
    ensures IsDigit(c) && c as int - '0' as int == d
  {
    ('0' as int + d) as char
  }

  /** The digits of `n` without leading zeros ("0" for zero). */
  function Digits(n: nat): (s: string)
    ensures 1 <= |s| && AllDigits(s)
    ensures |s| > 1 ==> s[0] != '0'
  {
    if n < 10 then [DigitChar(n)] else Digits(n / 10) + [DigitChar(n % 10)]
  }

  /** `c` repeated `k` times. */
  function Repeat(c: char, k: nat): (s: string)
    ensures |s| == k && forall i :: 0 <= i < k ==> s[i] == c
  {
    if k == 0 then [] else Repeat(c, k - 1) + [c]
  }

  /** The reference reading of a digit string. */
  function DecimalValue(s: string): nat
    requires AllDigits(s)
  {
    if s == [] then 0 else DecimalValue(s[..|s| - 1]) * 10 + (s[|s| - 1] as int - '0' as int)
  }

  /** The zero-padded format spec of width `width` applied to the integer `n`. */
  function ZeroPad(n: int, width: nat): (s: string)
    ensures var core := (if n < 0 then 1 else 0) + |Digits(if n < 0 then -n else n)|;
      |s| == if width > core then width else core
  {
    var sign := if n < 0 then "-" else "";
    var digits := Digits(if n < 0 then -n else n);
    var fill := if width > |sign| + |digits| then width - |sign| - |digits| else 0;
    sign + Repeat('0', fill) + digits
  }

  /** Reads a numeral with an optional leading minus sign; `None` for any other text. */
  function ParseSigned(s: string): Option<int> {
    if |s| >= 2 && s[0] == '-' && AllDigits(s[1..]) then Some(-(DecimalValue(s[1..]) as int))
    else if |s| >= 1 && AllDigits(s) then Some(DecimalValue(s))
    else None
  }

  lemma {:induction false} DigitsValue(n: nat)
    ensures DecimalValue(Digits(n)) == n
  {
    if n >= 10 {
      var s := Digits(n);
      assert s[..|s| - 1] == Digits(n / 10);
      DigitsValue(n / 10);
    }
  }

  /** A value below `10^k` has at most `k` digits. */
  lemma {:induction false} DigitsLength(n: nat, k: nat)
    requires k >= 1 && n < Pow10(k)
    ensures |Digits(n)| <= k
  {
    if n >= 10 {
      DigitsLength(n / 10, k - 1);
    }
  }

  /** Leading zeros do not change the value of a numeral. */
  lemma {:induction false} LeadingZeros(k: nat, s: string)
    requires AllDigits(s)
    ensures AllDigits(Repeat('0', k) + s)
    ensures DecimalValue(Repeat('0', k) + s) == DecimalValue(s)
  {
    var t := Repeat('0', k) + s;
    if s == [] {
      assert t == Repeat('0', k);
      ZerosValue(k);
    } else {
      var init := s[..|s| - 1];
      assert t[..|t| - 1] == Repeat('0', k) + init;
      LeadingZeros(k, init);
    }
  }

  lemma {:induction false} ZerosValue(k: nat)
    ensures DecimalValue(Repeat('0', k)) == 0
  {
    if k > 0 {
      assert Repeat('0', k)[..k - 1] == Repeat('0', k - 1);
      ZerosValue(k - 1);
    }
  }

  /** An unsigned numeral reads as its value, and with a minus sign in front as its negation. */
  lemma ParseNumeral(u: string)
    requires |u| >= 1 && AllDigits(u)
    ensures ParseSigned(u) == Some(DecimalValue(u) as int)
    ensures ParseSigned("-" + u) == Some(-(DecimalValue(u) as int))
  {
    assert IsDigit(u[0]);
    assert ("-" + u)[1..] == u;
  }

  /** Zeros in front of the digits of `m` still read as `m`. */
  lemma {:induction false} PaddedDigitsValue(m: nat, fill: nat)
    ensures var u := Repeat('0', fill) + Digits(m);
      |u| >= 1 && AllDigits(u) && DecimalValue(u) == m
  {
    DigitsValue(m);
    LeadingZeros(fill, Digits(m));
  }

  /** The padded text reads back as the number it was printed from. */
  lemma {:induction false} ZeroPadRoundTrip(n: int, width: nat)
    ensures ParseSigned(ZeroPad(n, width)) == Some(n)
  {
    var m := if n < 0 then -n else n;
    var fill := ZeroPadShape(n, width);
    var unsigned := Repeat('0', fill) + Digits(m);
    PaddedDigitsValue(m, fill);
    ParseNumeral(unsigned);
  }

  /** `ZeroPad` is the sign, then `fill` zeros, then the digits of the magnitude. */
  lemma ZeroPadShape(n: int, width: nat) returns (fill: nat)
    ensures var m := if n < 0 then -n else n;
      ZeroPad(n, width) == (if n < 0 then "-" + (Repeat('0', fill) + Digits(m)) else Repeat('0', fill) + Digits(m))
  {
    var m := if n < 0 then -n else n;
    var sign := if n < 0 then "-" else "";
    fill := if width > |sign| + |Digits(m)| then width - |sign| - |Digits(m)| else 0;
    assert sign + Repeat('0', fill) + Digits(m) == sign + (Repeat('0', fill) + Digits(m));
    if n >= 0 {
      assert sign + (Repeat('0', fill) + Digits(m)) == Repeat('0', fill) + Digits(m);
    }
  }

  /** A non-negative value below `10^width` fills the width exactly. */
  lemma {:induction false} ZeroPadExactWidth(n: int, width: nat)
    requires width >= 1 && 0 <= n < Pow10(width)
    ensures |ZeroPad(n, width)| == width
    ensures AllDigits(ZeroPad(n, width))
  {
    DigitsLength(n, width);
    var digits := Digits(n);
    var fill := width - |digits|;
    assert ZeroPad(n, width) == Repeat('0', fill) + digits;
    LeadingZeros(fill, digits);
  }
}
