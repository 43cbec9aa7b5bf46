/**
 * The verification code of sendVerifyOtp:
 * `String(Math.floor(100000 + Math.random() * 900000))`.
 *
 * The random draw is an integer `draw` in [0, 900000) (the floor of the scaled
 * random number), so the code is the decimal rendering of 100000 + draw.
 * `Decimal` is JavaScript's `String(n)` on a non-negative integer and `ValueOf`
 * reads a digit string back; the lemmas show the two are inverse and that every
 * code has exactly six digits.
 */
module Otp {
  import opened UserModel

  /** Smallest code, and how many codes there are. */
  const OtpBase: nat := 100000
  const OtpRange: nat := 900000

  /** `Math.floor(Math.random() * 900000)`. */
  type Draw = n: nat | n < 900000

  function DigitChar(d: nat): (c: char)
    requires d < 10
    ensures '0' <= c <= '9' && c as int - '0' as int == d
  {
    ('0' as int + d) as char
  }

  function DigitValue(c: char): (d: nat)
    requires '0' <= c <= '9'
    ensures d < 10 && DigitChar(d) == c
  {
    c as int - '0' as int
  }

  function Pow10(k: nat): (p: nat)
    ensures p >= 1
  {
    if k == 0 then 1 else 10 * Pow10(k - 1)
  }

  /** `String(n)`: the decimal digits of `n`, most significant first, without leading zeros. */
  function Decimal(n: nat): (s: string)
    ensures |s| >= 1 && IsDigits(s)
    ensures s[0] == '0' ==> n == 0
    decreases n
  {
    if n < 10 then [DigitChar(n)] else Decimal(n / 10) + [DigitChar(n % 10)]
  }

  /** The number a digit string denotes. */
  function ValueOf(s: string): (v: nat)
    requires IsDigits(s)
  {
    if s == [] then 0 else 10 * ValueOf(s[..|s| - 1]) + DigitValue(s[|s| - 1])
  }

  /** Reading back a rendered number gives the number. */
  lemma {:induction false} DecimalRoundTrip(n: nat)
    ensures ValueOf(Decimal(n)) == n
  {
    if n >= 10 {
      DecimalRoundTrip(n / 10);
      var s := Decimal(n);
      assert s[..|s| - 1] == Decimal(n / 10);
    }
  }

  /** A number between 10^k and 10^(k+1) has k + 1 digits. */
  lemma {:induction false} DecimalLength(n: nat, k: nat)
    requires Pow10(k) <= n < Pow10(k + 1)
    ensures |Decimal(n)| == k + 1
  {
    if k > 0 {
      DecimalLength(n / 10, k - 1);
    }
  }

  /** A digit string of length k denotes less than 10^k, and at least 10^(k-1) when it starts with a non-zero digit. */
  lemma {:induction false} ValueBounds(s: string)
    requires IsDigits(s)
    ensures ValueOf(s) < Pow10(|s|)
    ensures |s| >= 1 && s[0] != '0' ==> Pow10(|s| - 1) <= ValueOf(s)
  {
    if s != [] {
      var p := s[..|s| - 1];
      ValueBounds(p);
      if |p| >= 1 {
        assert p[0] == s[0];
      }
    }
  }

  /** Rendering the value of a digit string without leading zeros gives the string back. */
  lemma {:induction false} ValueRoundTrip(s: string)
    requires IsDigits(s) && |s| >= 1 && (s[0] == '0' ==> |s| == 1)
    ensures Decimal(ValueOf(s)) == s
  {
    if |s| >= 2 {
      var p := s[..|s| - 1];
      assert p[0] == s[0];
      ValueBounds(p);
      ValueRoundTrip(p);
      var n := ValueOf(s);
      assert n / 10 == ValueOf(p) && n % 10 == DigitValue(s[|s| - 1]);
      assert s == p + [s[|s| - 1]];
    }
  }

  /** Two numbers render alike only when they are equal. */
  lemma DecimalInjective(a: nat, b: nat)
    ensures Decimal(a) == Decimal(b) <==> a == b
  {
    DecimalRoundTrip(a);
    DecimalRoundTrip(b);
  }

  /** The code sent for a draw: six decimal digits denoting 100000 + draw. */
  function NewOtp(draw: Draw): (otp: string)
    ensures |otp| == 6 && IsDigits(otp) && otp[0] != '0'
    ensures ValueOf(otp) == OtpBase + draw
    ensures OtpBase <= ValueOf(otp) < OtpBase + OtpRange
  {
    DecimalLength(OtpBase + draw, 5);
    DecimalRoundTrip(OtpBase + draw);
    Decimal(OtpBase + draw)
  }

  /** Distinct draws give distinct codes, and every six-digit code without a leading zero is the code of some draw. */
  lemma NewOtpBijective(otp: string)
    ensures forall a: Draw, b: Draw :: NewOtp(a) == NewOtp(b) ==> a == b
    ensures |otp| == 6 && IsDigits(otp) && otp[0] != '0' ==> exists d: Draw :: NewOtp(d) == otp
  {
    forall a: Draw, b: Draw | NewOtp(a) == NewOtp(b) ensures a == b {
      DecimalInjective(OtpBase + a, OtpBase + b);
    }
    if |otp| == 6 && IsDigits(otp) && otp[0] != '0' {
      ValueBounds(otp);
      ValueRoundTrip(otp);
      var d: Draw := ValueOf(otp) - OtpBase;
      assert NewOtp(d) == otp;
    }
  }
}
