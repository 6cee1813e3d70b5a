/**
 * Properties of sequences of requests: what a client observes when it sends one route's
 * request after another's.
 */
module Properties {
  import opened Wrappers
  import opened Records
  import opened Validation
  import opened OtpCode
  import opened Routes

  // ---- OTP lifecycle -----------------------------------------------------------------

  /**
   * A code sent to an address with no account verifies once before it expires; the same
   * verification repeated afterwards fails with "OTP not found".
   */
  lemma TempCodeIsSingleUse(s: Store, email: string, rand: real, now: int, t: int, t2: int)
    requires 0.0 <= rand < 1.0 && IsValidEmail(email) && email !in s.users
    requires now <= t < now + OtpTtl
    ensures var sent := SendOtp(s, email, rand, now, true, true);
      && sent.reply.status == 200
      && var first := VerifyOtp(sent.next, email, IssueCode(rand), t);
      && first.reply.status == 200
      && first.next.tempOtps == s.tempOtps - {email}
      && VerifyOtp(first.next, email, IssueCode(rand), t2).reply == Reply(400, OtpNotFound)
  {
  }

  /**
   * A code sent to a registered address (with no temporary entry) verifies once, up to and
   * including its expiry instant; the verification clears it, so a repeat fails.
   */
  lemma UserCodeIsSingleUse(s: Store, email: string, rand: real, now: int, t: int, t2: int)
    requires 0.0 <= rand < 1.0 && IsValidEmail(email) && email in s.users && email !in s.tempOtps
    requires now <= t <= now + OtpTtl
    ensures var sent := SendOtp(s, email, rand, now, true, true);
      && sent.reply.status == 200
      && var first := VerifyOtp(sent.next, email, IssueCode(rand), t);
      && first.reply.status == 200
      && first.next.users[email].otp == None
      && VerifyOtp(first.next, email, IssueCode(rand), t2).reply == Reply(400, OtpNotFound)
  {
  }

  /** A wrong code changes nothing: the code that was sent still verifies afterwards. */
  lemma WrongCodeKeepsChallenge(s: Store, email: string, rand: real, now: int, wrong: string, t: int)
    requires 0.0 <= rand < 1.0 && IsValidEmail(email)
    requires email in s.users ==> email !in s.tempOtps
    requires wrong != "" && wrong != IssueCode(rand)
    requires now <= t < now + OtpTtl
    ensures var sent := SendOtp(s, email, rand, now, true, true).next;
      var miss := VerifyOtp(sent, email, wrong, t);
      && miss.reply.status == 400
      && miss.next == sent
      && VerifyOtp(miss.next, email, IssueCode(rand), t).reply.status == 200
  {
  }

  /**
   * The two tiers disagree at the expiry instant: the temporary tier needs `expires > now`
   * and refuses, the user tier refuses only when `otpExpires < now` and accepts.
   */
  lemma ExpiryInstant(s: Store, email: string, rand: real, now: int)
    requires 0.0 <= rand < 1.0 && IsValidEmail(email)
    requires email in s.users ==> email !in s.tempOtps
    ensures var sent := SendOtp(s, email, rand, now, true, true).next;
      VerifyOtp(sent, email, IssueCode(rand), now + OtpTtl).reply.status == (if email in s.users then 200 else 400)
  {
  }

  /** After the expiry instant, no code verifies, on either tier. */
  lemma ExpiredCodeFails(s: Store, email: string, rand: real, now: int, code: string, t: int)
    requires 0.0 <= rand < 1.0 && IsValidEmail(email)
    requires email in s.users ==> email !in s.tempOtps
    requires t > now + OtpTtl
    ensures VerifyOtp(SendOtp(s, email, rand, now, true, true).next, email, code, t).reply.status == 400
  {
  }

  /** A failed delivery stores no challenge, so the code in the lost mail never verifies. */
  lemma UndeliveredCodeIsNotStored(s: Store, email: string, rand: real, now: int, mailerConfigured: bool)
    requires 0.0 <= rand < 1.0
    ensures SendOtp(s, email, rand, now, mailerConfigured, false).next == s
    ensures ForgotPassword(s, email, rand, now, false).next == s
  {
  }

  /**
   * A temporary entry shadows the user tier: while it exists, a user-tier code that would
   * pass, and that the temporary entry does not itself accept, is refused and the user
   * document is not touched.
   */
  lemma TempEntryShadowsUserTier(s: Store, email: string, code: string, now: int)
    requires email != "" && email in s.tempOtps && email in s.users && code != ""
    requires ChallengeHolds(s.users[email].otp, code, now) && !TempAccepts(s.tempOtps[email], code, now)
    ensures VerifyOtp(s, email, code, now) == Step(s, Reply(400, InvalidTempOtp))
  {
  }

  /**
   * An expired temporary entry is never removed: once its address has an account, a new
   * `/api/send-otp` puts the code on the user, and that code is refused by
   * `/api/verify-otp` at every later instant, while `/api/verify-reset-otp` accepts it.
   */
  lemma StaleTempEntryBlocksVerification(s: Store, email: string, rand: real, now: int, t: int)
    requires 0.0 <= rand < 1.0 && IsValidEmail(email)
    requires email in s.users && email in s.tempOtps && s.tempOtps[email].expires <= now
    requires now <= t
    ensures var sent := SendOtp(s, email, rand, now, true, true).next;
      && sent.tempOtps[email] == s.tempOtps[email]
      && VerifyOtp(sent, email, IssueCode(rand), t) == Step(sent, Reply(400, InvalidTempOtp))
      && (t <= now + OtpTtl ==> VerifyResetOtp(sent, email, IssueCode(rand), t).status == 200)
  {
  }

  /**
   * The reset pair: after `/api/forgot-password`, `/api/verify-reset-otp` accepts the code
   * (and, changing nothing, accepts it again); `/api/reset-password` consumes it, after
   * which the code is refused and the new password logs in.
   */
  lemma ResetFlow(s: Store, email: string, rand: real, now: int, t: int, newPassword: string)
    requires 0.0 <= rand < 1.0 && email != "" && email in s.users
    requires now <= t <= now + OtpTtl && |newPassword| >= MinPasswordLength
    ensures var sent := ForgotPassword(s, email, rand, now, true).next;
      var code := IssueCode(rand);
      && VerifyResetOtp(sent, email, code, t).status == 200
      && var reset := ResetPassword(sent, email, code, newPassword, t);
      && reset.reply.status == 200
      && reset.next.users[email].otp == None
      && VerifyResetOtp(reset.next, email, code, t) == Reply(400, InvalidOrExpiredOtp)
      && ResetPassword(reset.next, email, code, newPassword, t).reply.status == 400
      && Login(reset.next, email, newPassword).status == 200
  {
  }

  // ---- payments ----------------------------------------------------------------------

  lemma GrantIdempotent(users: map<string, User>, email: string, courseId: string)
    ensures Grant(Grant(users, email, courseId), email, courseId) == Grant(users, email, courseId)
  {
    var g := Grant(users, email, courseId);
    AddToSetIdempotent(if email in users then users[email].courses else [], courseId);
    assert g[email].courses == AddToSet(if email in users then users[email].courses else [], courseId);
  }

  /** Approving a payment twice leaves the stores as the first approval left them. */
  lemma ApprovalIdempotent(s: Store, id: int)
    requires 0 <= id < |s.payments|
    ensures var once := UpdatePaymentStatus(s, id, "approved");
      UpdatePaymentStatus(once.next, id, "approved").next == once.next
  {
    var p := s.payments[id];
    GrantIdempotent(s.users, p.email, p.courseId);
  }

  /**
   * A valid submission is stored (pending unless the body names a status) and, once
   * approved, its course is in the payer's course list, whether or not the payer had an account.
   */
  lemma ApprovedPaymentGrantsCourse(s: Store, f: PaymentForm, now: int)
    requires ValidatePayment(f) == PaymentAccepted
    ensures var submitted := SubmitPayment(s, f, now);
      var id := |s.payments|;
      && submitted.reply.status == 201
      && submitted.next.payments[id].status == (if f.status == None then "pending" else f.status.value)
      && var approved := UpdatePaymentStatus(submitted.next, id, "approved");
      && approved.reply.status == 200
      && var courses := UserCourses(approved.next, f.email);
      && courses.Some? && f.courseId in courses.value
  {
  }

  /** Rejecting an approved payment overwrites its status but does not take the course away. */
  lemma RejectionKeepsGrantedCourse(s: Store, id: int)
    requires 0 <= id < |s.payments|
    ensures var approved := UpdatePaymentStatus(s, id, "approved").next;
      var rejected := UpdatePaymentStatus(approved, id, "rejected").next;
      && rejected.payments[id].status == "rejected"
      && rejected.users == approved.users
      && s.payments[id].courseId in rejected.users[s.payments[id].email].courses
  {
  }

  /**
   * A user created by an approval has no password and cannot log in (500); a password reset
   * gives it one.
   */
  lemma UpsertedAccountNeedsReset(s: Store, id: int, rand: real, now: int, newPassword: string)
    requires 0 <= id < |s.payments| && s.payments[id].email != "" && s.payments[id].email !in s.users
    requires 0.0 <= rand < 1.0 && |newPassword| >= MinPasswordLength
    ensures var email := s.payments[id].email;
      var approved := UpdatePaymentStatus(s, id, "approved").next;
      && Login(approved, email, newPassword).status == 500
      && var sent := ForgotPassword(approved, email, rand, now, true).next;
      && var reset := ResetPassword(sent, email, IssueCode(rand), newPassword, now).next;
      && Login(reset, email, newPassword).status == 200
  {
  }

  // ---- reviews -----------------------------------------------------------------------

  /**
   * A second review of the same course by the same address is refused and stored nothing,
   * whatever its other fields say.
   */
  lemma SecondReviewRefused(s: Store, courseId: string, name: string, email: string, rating: int, text: string, now: int,
                            name2: string, rating2: int, text2: string, now2: int)
    requires SubmitReview(s, courseId, name, email, rating, text, now).reply.status == 201
    requires ValidateReview(courseId, name2, email, rating2, text2) == ReviewAccepted
    ensures var first := SubmitReview(s, courseId, name, email, rating, text, now).next;
      SubmitReview(first, courseId, name2, email, rating2, text2, now2) == Step(first, Reply(400, DuplicateReview))
  {
    var first := SubmitReview(s, courseId, name, email, rating, text, now).next;
    assert first.reviews[|s.reviews|].courseId == courseId && first.reviews[|s.reviews|].reviewerEmail == email;
  }

  /** A newly accepted review is listed for its course at once. */
  lemma NewReviewIsListed(s: Store, courseId: string, name: string, email: string, rating: int, text: string, now: int)
    requires SubmitReview(s, courseId, name, email, rating, text, now).reply.status == 201
    ensures var first := SubmitReview(s, courseId, name, email, rating, text, now).next;
      Review(courseId, name, email, rating, text, now, true) in CourseReviews(first, courseId)
  {
    var v := Review(courseId, name, email, rating, text, now, true);
    var first := SubmitReview(s, courseId, name, email, rating, text, now).next;
    assert first.reviews == s.reviews + [v];
    assert multiset(first.reviews)[v] > 0;
    assert multiset(CourseReviews(first, courseId))[v] > 0;
  }

  /**
   * Setting a review's approval flag changes every course listing by exactly that review:
   * its old version leaves (if it was listed) and its new version is listed when it is
   * approved and belongs to the course.  Every other review stays listed.
   */
  lemma ApprovalChangesListing(s: Store, id: int, isApproved: bool, courseId: string)
    requires 0 <= id < |s.reviews|
    ensures var after := SetReviewApproval(s, id, isApproved).next;
      var updated := s.reviews[id].(isApproved := isApproved);
      multiset(CourseReviews(after, courseId))
        == multiset(CourseReviews(s, courseId)) - multiset{s.reviews[id]}
           + (if isApproved && updated.courseId == courseId then multiset{updated} else multiset{})
  {
    var after := SetReviewApproval(s, id, isApproved).next;
    var before, updated := s.reviews[id], s.reviews[id].(isApproved := isApproved);
    assert after.reviews == s.reviews[id := updated];
    UpdateMultiset(s.reviews, id, updated);
    ListingCounts(s, courseId);
    ListingCounts(after, courseId);
    ListingAfterReplace(multiset(s.reviews), multiset(after.reviews),
                        multiset(CourseReviews(s, courseId)), multiset(CourseReviews(after, courseId)),
                        before, updated, courseId);
  }

  /**
   * How many copies of each review the listing of `courseId` holds: the postcondition of
   * `CourseReviews`, restated only to instantiate it for one store at the call site.
   */
  lemma ListingCounts(x: Store, courseId: string)
    ensures forall w :: multiset(CourseReviews(x, courseId))[w] == if w.courseId == courseId && w.isApproved then multiset(x.reviews)[w] else 0
  {
  }

  /** The multiset arithmetic of `ApprovalChangesListing`, on the collections' counts alone. */
  lemma ListingAfterReplace(m: multiset<Review>, ma: multiset<Review>, l: multiset<Review>, la: multiset<Review>,
                            before: Review, updated: Review, courseId: string)
    requires before in m && ma == m - multiset{before} + multiset{updated}
    requires forall w :: l[w] == if w.courseId == courseId && w.isApproved then m[w] else 0
    requires forall w :: la[w] == if w.courseId == courseId && w.isApproved then ma[w] else 0
    ensures la == l - multiset{before}
      + (if updated.isApproved && updated.courseId == courseId then multiset{updated} else multiset{})
  {
    var added := if updated.isApproved && updated.courseId == courseId then multiset{updated} else multiset{};
    forall w ensures la[w] == (l - multiset{before} + added)[w] {
    }
  }

  /** Replacing element `i` changes the multiset by exactly that element. */
  lemma UpdateMultiset<T>(xs: seq<T>, i: int, v: T)
    requires 0 <= i < |xs|
    ensures multiset(xs[i := v]) == multiset(xs) - multiset{xs[i]} + multiset{v}
  {
    assert xs == xs[..i] + [xs[i]] + xs[i + 1..];
    assert xs[i := v] == xs[..i] + [v] + xs[i + 1..];
  }

  /** A review the admin hides leaves every listing, and every other review stays listed. */
  lemma HiddenReviewIsNotListed(s: Store, id: int, courseId: string)
    requires 0 <= id < |s.reviews|
    ensures var hidden := SetReviewApproval(s, id, false).next;
      multiset(CourseReviews(hidden, courseId)) == multiset(CourseReviews(s, courseId)) - multiset{s.reviews[id]}
  {
    ApprovalChangesListing(s, id, false, courseId);
  }

  /** A review the admin approves is listed for its course, next to all those listed before. */
  lemma ApprovedReviewIsListed(s: Store, id: int)
    requires 0 <= id < |s.reviews|
    ensures var shown := SetReviewApproval(s, id, true).next;
      var v := s.reviews[id].(isApproved := true);
      && v in CourseReviews(shown, v.courseId)
      && multiset(CourseReviews(s, v.courseId)) <= multiset(CourseReviews(shown, v.courseId))
  {
    var shown := SetReviewApproval(s, id, true).next;
    var before := s.reviews[id];
    var v := before.(isApproved := true);
    ApprovalChangesListing(s, id, true, v.courseId);
    ListingCounts(s, v.courseId);
    var l, la := multiset(CourseReviews(s, v.courseId)), multiset(CourseReviews(shown, v.courseId));
    assert l[before] > 0 ==> before == v;
    ReplaceByApproved(l, la, before, v);
  }

  /** Swapping `before` for `v` in a multiset that holds `before` only as `v` loses nothing. */
  lemma ReplaceByApproved(l: multiset<Review>, la: multiset<Review>, before: Review, v: Review)
    requires la == l - multiset{before} + multiset{v}
    requires l[before] > 0 ==> before == v
    ensures v in la && l <= la
  {
  }

  // ---- accounts ----------------------------------------------------------------------

  /**
   * Registration creates an account with no courses that logs in with its password and
   * refuses any other; registering the same email again fails.
   */
  lemma RegisterThenLogin(s: Store, name: string, email: string, password: string, wrong: string, name2: string, password2: string)
    requires name != "" && email != "" && password != "" && email !in s.users
    requires wrong != "" && wrong != password && name2 != "" && password2 != ""
    ensures var reg := Register(s, name, email, password);
      && reg.reply.status == 201
      && UserCourses(reg.next, email) == Some([])
      && Login(reg.next, email, password).status == 200
      && Login(reg.next, email, wrong).status == 401
      && Register(reg.next, name2, email, password2) == Step(reg.next, Reply(400, UserExists))
  {
  }
}
