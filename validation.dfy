/**
 * The input checks that the route handlers apply before they touch a store: the email
 * pattern of `/api/send-otp`, the `validatePayment` middleware, the accepted payment
 * statuses and the review submission checks.  A request field that is absent is
 * represented by the empty string (or 0 for a number), which is what JavaScript's
 * truthiness test `!x` rejects.
 */
module Validation {
  import opened Records

  /** A character matched by JavaScript's `\s` class. */
  predicate IsSpace(c: char) {
    || c == ' ' || c == '\t' || c == '\n' || c == '\r' || c == '\U{000B}' || c == '\U{000C}'
    || c == '\U{00A0}' || c == '\U{1680}' || ('\U{2000}' <= c <= '\U{200A}')
    || c == '\U{2028}' || c == '\U{2029}' || c == '\U{202F}' || c == '\U{205F}'
    || c == '\U{3000}' || c == '\U{FEFF}'
  }

  /** A character matched by the class `[^\s@]`. */
  predicate IsAddressChar(c: char) {
    !IsSpace(c) && c != '@'
  }

  predicate AddressChars(s: string) {
    forall i | 0 <= i < |s| :: IsAddressChar(s[i])
  }

  /** The part after the `@`: address characters with a `.` that has text on both sides. */
  predicate IsHostPart(d: string) {
    AddressChars(d) && exists k | 0 < k < |d| - 1 :: d[k] == '.'
  }

  /** The email check of `/api/send-otp`: a non-empty local part, one `@`, then a host part. */
  predicate IsValidEmail(e: string) {
    exists at | 0 < at < |e| :: e[at] == '@' && AddressChars(e[..at]) && IsHostPart(e[at + 1..])
  }

  /**
   * The pattern `/^[^\s@]+@[^\s@]+\.[^\s@]+$/` read literally: three non-empty runs of
   * `[^\s@]` joined by `@` and `.`.
   */
  ghost predicate MatchesEmailPattern(e: string) {
    exists local: string, host: string, tld: string
      | |local| > 0 && |host| > 0 && |tld| > 0 && AddressChars(local) && AddressChars(host) && AddressChars(tld)
      :: e == local + "@" + host + "." + tld
  }

  lemma AddressCharsSplit(a: string, b: string)
    ensures AddressChars(a + b) <==> AddressChars(a) && AddressChars(b)
  {
    if AddressChars(a) && AddressChars(b) {
      forall i | 0 <= i < |a + b| ensures IsAddressChar((a + b)[i]) {
        if i >= |a| { assert (a + b)[i] == b[i - |a|]; }
      }
    }
    if AddressChars(a + b) {
      forall i | 0 <= i < |b| ensures IsAddressChar(b[i]) {
        assert (a + b)[|a| + i] == b[i];
      }
      forall i | 0 <= i < |a| ensures IsAddressChar(a[i]) {
        assert (a + b)[i] == a[i];
      }
    }
  }

  lemma PatternWitness(e: string, local: string, host: string, tld: string)
    requires |local| > 0 && |host| > 0 && |tld| > 0
    requires AddressChars(local) && AddressChars(host) && AddressChars(tld)
    requires e == local + "@" + host + "." + tld
    ensures MatchesEmailPattern(e)
  {
  }

  /** The split of an accepted address at its `@` (index `at`) and at a later `.` (index `k`). */
  lemma SplitAtSeparators(e: string, at: int, k: int)
    requires 0 < at && at + 1 < k && k + 1 < |e| && e[at] == '@' && e[k] == '.'
    ensures e == e[..at] + "@" + e[at + 1..k] + "." + e[k + 1..]
  {
    var joined := e[..at] + "@" + e[at + 1..k] + "." + e[k + 1..];
    assert |joined| == |e|;
    forall m | 0 <= m < |e| ensures joined[m] == e[m] {
      if m < at {
      } else if m == at {
      } else if m < k {
        assert joined[m] == e[at + 1..k][m - at - 1];
      } else if m == k {
      } else {
        assert joined[m] == e[k + 1..][m - k - 1];
      }
    }
  }

  lemma CheckImpliesPatternAt(e: string, at: int, k: int)
    requires 0 < at && at + 1 < k && k + 1 < |e| && e[at] == '@' && e[k] == '.'
    requires AddressChars(e[..at]) && AddressChars(e[at + 1..])
    ensures MatchesEmailPattern(e)
  {
    var host, tld := e[at + 1..k], e[k + 1..];
    forall m | 0 <= m < |host| ensures IsAddressChar(host[m]) {
      assert host[m] == e[at + 1..][m];
    }
    forall m | 0 <= m < |tld| ensures IsAddressChar(tld[m]) {
      assert tld[m] == e[at + 1..][k - at + m];
    }
    SplitAtSeparators(e, at, k);
    PatternWitness(e, e[..at], host, tld);
  }

  lemma CheckImpliesPattern(e: string)
    requires IsValidEmail(e)
    ensures MatchesEmailPattern(e)
  {
    var at :| 0 < at < |e| && e[at] == '@' && AddressChars(e[..at]) && IsHostPart(e[at + 1..]);
    var d := e[at + 1..];
    var k :| 0 < k < |d| - 1 && d[k] == '.';
    assert e[at + 1 + k] == '.';
    CheckImpliesPatternAt(e, at, at + 1 + k);
  }

  lemma PatternImpliesCheck(e: string, local: string, host: string, tld: string)
    requires |local| > 0 && |host| > 0 && |tld| > 0
    requires AddressChars(local) && AddressChars(host) && AddressChars(tld)
    requires e == local + "@" + host + "." + tld
    ensures IsValidEmail(e)
  {
    var at := |local|;
    var d := host + ("." + tld);
    assert e == local + ("@" + d);
    assert e[at] == '@' && e[..at] == local && e[at + 1..] == d;
    assert IsAddressChar('.');
    AddressCharsSplit(".", tld);
    AddressCharsSplit(host, "." + tld);
    assert d[|host|] == '.';
    assert IsHostPart(d);
  }

  /** The executable check accepts exactly the strings the regular expression matches. */
  lemma EmailCheckMatchesPattern(e: string)
    ensures IsValidEmail(e) <==> MatchesEmailPattern(e)
  {
    if IsValidEmail(e) {
      CheckImpliesPattern(e);
    }
    if MatchesEmailPattern(e) {
      var local: string, host: string, tld: string :|
        && |local| > 0 && |host| > 0 && |tld| > 0
        && AddressChars(local) && AddressChars(host) && AddressChars(tld)
        && e == local + "@" + host + "." + tld;
      PatternImpliesCheck(e, local, host, tld);
    }
  }

  /** A valid address has no whitespace and exactly one `@`, which is not its first character. */
  lemma ValidEmailShape(e: string)
    requires IsValidEmail(e)
    ensures forall i | 0 <= i < |e| :: !IsSpace(e[i])
    ensures exists at | 0 < at < |e| :: e[at] == '@' && forall j | 0 <= j < |e| && e[j] == '@' :: j == at
  {
    var at :| 0 < at < |e| && e[at] == '@' && AddressChars(e[..at]) && IsHostPart(e[at + 1..]);
    forall i | 0 <= i < |e| ensures !IsSpace(e[i]) && (e[i] == '@' ==> i == at) {
      if i < at {
        assert e[..at][i] == e[i];
      } else if i > at {
        assert e[at + 1..][i - at - 1] == e[i];
      }
    }
  }

  // ---- validatePayment -------------------------------------------------------------

  const PaymentMethods: set<string> := {"bkash", "nagad", "bank", "card"}

  /** The seven fields `validatePayment` requires to be truthy (so an amount of 0 fails). */
  predicate HasRequiredPaymentFields(f: PaymentForm) {
    && f.name != "" && f.email != "" && f.phone != "" && f.courseId != ""
    && f.paymentMethod != "" && f.txnId != "" && f.amount != 0
  }

  datatype PaymentVerdict = PaymentAccepted | MissingPaymentField | UnknownPaymentMethod

  /**
   * `validatePayment`: missing fields are reported first, then a payment method outside
   * bkash, nagad, bank and card.
   */
  function ValidatePayment(f: PaymentForm): (v: PaymentVerdict)
    ensures v == PaymentAccepted <==> HasRequiredPaymentFields(f) && f.paymentMethod in PaymentMethods
    ensures v == MissingPaymentField <==> !HasRequiredPaymentFields(f)
    ensures v == UnknownPaymentMethod ==> f.paymentMethod != "" && f.paymentMethod !in PaymentMethods
  {
    if !HasRequiredPaymentFields(f) then MissingPaymentField
    else if f.paymentMethod !in PaymentMethods then UnknownPaymentMethod
    else PaymentAccepted
  }

  // ---- payment status ----------------------------------------------------------------

  const StatusValues: set<string> := {"approved", "rejected", "pending"}

  // ---- review submission -------------------------------------------------------------

  datatype ReviewVerdict = ReviewAccepted | MissingReviewField | RatingOutOfRange

  /**
   * The checks of POST `/api/reviews` that need no store: all five fields truthy (a rating
   * of 0 counts as missing), then a rating between 1 and 5.
   */
  function ValidateReview(courseId: string, reviewerName: string, reviewerEmail: string, rating: int, reviewText: string): (v: ReviewVerdict)
    ensures v == ReviewAccepted ==> 1 <= rating <= 5
    ensures v == MissingReviewField <==> courseId == "" || reviewerName == "" || reviewerEmail == "" || rating == 0 || reviewText == ""
    ensures v == RatingOutOfRange <==> v != MissingReviewField && (rating < 1 || rating > 5)
  {
    if courseId == "" || reviewerName == "" || reviewerEmail == "" || rating == 0 || reviewText == "" then MissingReviewField
    else if rating < 1 || rating > 5 then RatingOutOfRange
    else ReviewAccepted
  }
}
