/**
 * The one-time code of `/api/send-otp` and `/api/forgot-password`:
 * `Math.floor(1000 + Math.random() * 9000).toString()`, valid for 300000 ms.
 * The random draw is an input in [0, 1); arithmetic on it is exact (no floating point).
 */
module OtpCode {

  /** How long an issued code stays valid, in milliseconds. */
  const OtpTtl: int := 300000

  predicate IsDigit(c: char) {
    '0' <= c <= '9'
  }

  predicate AllDigits(s: string) {
    forall i | 0 <= i < |s| :: IsDigit(s[i])
  }

  /** What an issued code looks like: four decimal digits, the first one not 0. */
  predicate IsOtpCode(s: string) {
    |s| == 4 && AllDigits(s) && s[0] != '0'
  }

  function DigitChar(d: nat): (c: char)
    requires d < 10
    ensures IsDigit(c) && c as int - '0' as int == d
  {
    ('0' as int + d) as char
  }

  /** `Number.prototype.toString()` on a non-negative integer: its decimal digits, no leading zero. */
  function Decimal(n: nat): (s: string)
    ensures |s| >= 1 && AllDigits(s)
    ensures n >= 10 ==> |s| >= 2
    ensures s[0] != '0' || n == 0
    decreases n
  {
    if n < 10 then [DigitChar(n)] else Decimal(n / 10) + [DigitChar(n % 10)]
  }

  /** The number a string of decimal digits denotes. */
  function DecimalValue(s: string): nat
    requires AllDigits(s)
  {
    if s == [] then 0 else DecimalValue(s[..|s| - 1]) * 10 + (s[|s| - 1] as int - '0' as int)
  }

  /** Reading back the decimal form of `n` gives `n`, so distinct draws give distinct codes. */
  lemma {:induction false} DecimalRoundTrip(n: nat)
    ensures DecimalValue(Decimal(n)) == n
    decreases n
  {
    if n >= 10 {
      var s := Decimal(n);
      DecimalRoundTrip(n / 10);
      assert s[..|s| - 1] == Decimal(n / 10);
    }
  }

  /** A number in [1000, 9999] has exactly four decimal digits. */
  lemma FourDigits(n: nat)
    requires 1000 <= n <= 9999
    ensures |Decimal(n)| == 4
  {
    var a, b, c := n / 10, n / 100, n / 1000;
    assert a / 10 == b && b / 10 == c;
    assert |Decimal(c)| == 1;
    assert |Decimal(b)| == 2;
    assert |Decimal(a)| == 3;
  }

  /** A digit string that does not start with 0 denotes a positive number. */
  lemma {:induction false} LeadingDigitPositive(s: string)
    requires |s| >= 1 && AllDigits(s) && s[0] != '0'
    ensures DecimalValue(s) >= 1
    decreases |s|
  {
    if |s| > 1 {
      LeadingDigitPositive(s[..|s| - 1]);
    }
  }

  /** Printing the number a digit string denotes gives the string back, when it has no leading 0. */
  lemma {:induction false} DecimalOfValue(s: string)
    requires |s| >= 1 && AllDigits(s) && (s[0] != '0' || |s| == 1)
    ensures Decimal(DecimalValue(s)) == s
    decreases |s|
  {
    var p, d := s[..|s| - 1], s[|s| - 1] as int - '0' as int;
    if |s| > 1 {
      LeadingDigitPositive(p);
      DecimalOfValue(p);
      var v := DecimalValue(s);
      assert v / 10 == DecimalValue(p) && v % 10 == d;
      assert s == p + [s[|s| - 1]];
    }
  }

  /** A code of four digits without a leading 0 denotes a number in [1000, 9999]. */
  lemma OtpCodeValue(code: string)
    requires IsOtpCode(code)
    ensures 1000 <= DecimalValue(code) <= 9999
  {
    var s1, s2, s3 := code[..1], code[..2], code[..3];
    assert code[..3] == s3 && s3[..2] == s2 && s2[..1] == s1 && s1[..0] == [];
    var d0, d1, d2, d3 := code[0] as int - '0' as int, code[1] as int - '0' as int,
                          code[2] as int - '0' as int, code[3] as int - '0' as int;
    assert 1 <= d0 <= 9 && 0 <= d1 <= 9 && 0 <= d2 <= 9 && 0 <= d3 <= 9;
    assert DecimalValue(s1) == d0;
    assert DecimalValue(s2) == d0 * 10 + d1;
    assert DecimalValue(s3) == (d0 * 10 + d1) * 10 + d2;
    assert DecimalValue(code) == ((d0 * 10 + d1) * 10 + d2) * 10 + d3;
  }

  /** `Math.floor(1000 + r * 9000)` for a draw `r` of `Math.random()`. */
  function Draw(rand: real): (n: int)
    requires 0.0 <= rand < 1.0
    ensures 1000 <= n <= 9999
  {
    assert rand * 9000.0 < 9000.0;
    (1000.0 + rand * 9000.0).Floor
  }

  /** The code sent to the user and stored in the challenge. */
  function IssueCode(rand: real): (code: string)
    requires 0.0 <= rand < 1.0
    ensures IsOtpCode(code)
    ensures DecimalValue(code) == Draw(rand)
  {
    FourDigits(Draw(rand));
    DecimalRoundTrip(Draw(rand));
    Decimal(Draw(rand))
  }

  /** Every four-digit code without a leading 0 is issued for some draw. */
  lemma EveryCodeIssuable(code: string)
    requires IsOtpCode(code)
    ensures exists rand: real | 0.0 <= rand < 1.0 :: IssueCode(rand) == code
  {
    var n := DecimalValue(code);
    OtpCodeValue(code);
    DecimalOfValue(code);
    var rand := (n - 1000) as real / 9000.0;
    assert 1000.0 + rand * 9000.0 == n as real;
    assert Draw(rand) == n;
    assert IssueCode(rand) == code;
  }
}
