/**
 * The running server as an object: the User, Payment and Review collections and the
 * process-wide temporary OTP map are fields that each request handler updates in place.
 * Every handler is proved to leave the fields as the route function of `Routes` prescribes
 * and to keep `Routes.Consistent`.
 */
module Server {
  import opened Wrappers
  import opened Records
  import opened Validation
  import opened OtpCode
  import opened Routes

  class Backend {
    /** Whether EMAIL_USER and EMAIL_PASS are set; read by `/api/send-otp`. */
    const mailerConfigured: bool
    var users: map<string, User>
    var tempOtps: map<string, Challenge>
    var payments: seq<Payment>
    var reviews: seq<Review>
    /** The `courseAccessUpdated` events emitted to every socket.io client, oldest first. */
    ghost var broadcasts: seq<Notification>

    function Snapshot(): Routes.Store
      reads this
    {
      Routes.Store(users, tempOtps, payments, reviews)
    }

    ghost predicate Valid()
      reads this
    {
      Routes.Consistent(Snapshot())
    }

    /**
     * A server process starting on the collections the database already holds: the
     * process-wide temporary OTP map starts empty, so a restart loses every temporary entry
     * while user-tier codes survive.
     */
    constructor (mailerConfigured: bool, users: map<string, User>, payments: seq<Payment>, reviews: seq<Review>)
      requires Routes.Consistent(Routes.Store(users, map[], payments, reviews))
      ensures Valid()
      ensures this.mailerConfigured == mailerConfigured
      ensures Snapshot() == Routes.Store(users, map[], payments, reviews) && broadcasts == []
    {
      this.mailerConfigured := mailerConfigured;
      this.users, tempOtps, this.payments, this.reviews := users, map[], payments, reviews;
      broadcasts := [];
    }

    // ---- OTP lifecycle ---------------------------------------------------------------

    /**
     * POST `/api/send-otp`.  The code goes on the user document when the address has an
     * account and into the temporary map otherwise; nothing is stored when the mail fails.
     */
    method SendOtp(email: string, rand: real, now: int, delivered: bool) returns (reply: Reply)
      requires Valid() && 0.0 <= rand < 1.0
      modifies this
      ensures Valid()
      ensures Step(Snapshot(), reply) == Routes.SendOtp(old(Snapshot()), email, rand, now, mailerConfigured, delivered)
      ensures broadcasts == old(broadcasts)
    {
      if email == "" {
        return Reply(400, MissingFields);
      }
      if !IsValidEmail(email) {
        return Reply(400, InvalidEmail);
      }
      var code := IssueCode(rand);
      if !mailerConfigured {
        return Reply(500, MailerNotConfigured);
      }
      if !delivered {
        return Reply(500, DeliveryFailed);
      }
      var ch := Challenge(code, now + OtpTtl);
      if email in users {
        users := users[email := users[email].(otp := Some(ch))];
      } else {
        tempOtps := tempOtps[email := ch];
      }
      reply := Reply(200, Done);
    }

    /** POST `/api/forgot-password`: only a registered address gets a code. */
    method ForgotPassword(email: string, rand: real, now: int, delivered: bool) returns (reply: Reply)
      requires Valid() && 0.0 <= rand < 1.0
      modifies this
      ensures Valid()
      ensures Step(Snapshot(), reply) == Routes.ForgotPassword(old(Snapshot()), email, rand, now, delivered)
      ensures broadcasts == old(broadcasts)
    {
      if email == "" {
        return Reply(400, MissingFields);
      }
      if email !in users {
        return Reply(404, EmailNotRegistered);
      }
      var code := IssueCode(rand);
      if !delivered {
        return Reply(500, DeliveryFailed);
      }
      users := users[email := users[email].(otp := Some(Challenge(code, now + OtpTtl)))];
      reply := Reply(200, Done);
    }

    /** POST `/api/verify-otp`: a temporary entry decides alone; a match deletes it. */
    method VerifyOtp(email: string, otp: string, now: int) returns (reply: Reply)
      requires Valid()
      modifies this
      ensures Valid()
      ensures Step(Snapshot(), reply) == Routes.VerifyOtp(old(Snapshot()), email, otp, now)
      ensures broadcasts == old(broadcasts)
    {
      if email == "" || otp == "" {
        return Reply(400, MissingFields);
      }
      if email in tempOtps {
        var temp := tempOtps[email];
        if temp.code == otp && temp.expires > now {
          tempOtps := tempOtps - {email};
          return Reply(200, Done);
        }
        return Reply(400, InvalidTempOtp);
      }
      if email !in users || users[email].otp.None? {
        return Reply(400, OtpNotFound);
      }
      var ch := users[email].otp.value;
      if ch.code != otp {
        return Reply(400, OtpMismatch);
      }
      if ch.expires < now {
        return Reply(400, OtpExpired);
      }
      users := users[email := users[email].(otp := None)];
      reply := Reply(200, Done);
    }

    /** POST `/api/verify-reset-otp`: reads the user's challenge and changes nothing. */
    method VerifyResetOtp(email: string, otp: string, now: int) returns (reply: Reply)
      ensures reply == Routes.VerifyResetOtp(Snapshot(), email, otp, now)
    {
      if email == "" || otp == "" {
        return Reply(400, MissingFields);
      }
      if email !in users {
        return Reply(404, UserNotFound);
      }
      var ch := users[email].otp;
      if ch.None? || ch.value.code != otp || ch.value.expires < now {
        return Reply(400, InvalidOrExpiredOtp);
      }
      reply := Reply(200, Done);
    }

    /** POST `/api/reset-password`: sets the password and unsets the challenge. */
    method ResetPassword(email: string, otp: string, newPassword: string, now: int) returns (reply: Reply)
      requires Valid()
      modifies this
      ensures Valid()
      ensures Step(Snapshot(), reply) == Routes.ResetPassword(old(Snapshot()), email, otp, newPassword, now)
      ensures broadcasts == old(broadcasts)
    {
      if email == "" || otp == "" || newPassword == "" {
        return Reply(400, MissingFields);
      }
      if |newPassword| < MinPasswordLength {
        return Reply(400, PasswordTooShort);
      }
      if email !in users {
        return Reply(404, UserNotFound);
      }
      var ch := users[email].otp;
      if ch.None? || ch.value.code != otp || ch.value.expires < now {
        return Reply(400, InvalidOrExpiredOtp);
      }
      users := users[email := users[email].(password := Some(Hashed(newPassword)), otp := None)];
      reply := Reply(200, Done);
    }

    // ---- payments --------------------------------------------------------------------

    /** POST `/api/payments`: `validatePayment`, then the body saved as a new payment. */
    method SubmitPayment(f: PaymentForm, now: int) returns (reply: Reply)
      requires Valid()
      modifies this
      ensures Valid()
      ensures Step(Snapshot(), reply) == Routes.SubmitPayment(old(Snapshot()), f, now)
      ensures broadcasts == old(broadcasts)
    {
      var verdict := ValidatePayment(f);
      if verdict == MissingPaymentField {
        return Reply(400, MissingFields);
      }
      if verdict == UnknownPaymentMethod {
        return Reply(400, InvalidPaymentMethod);
      }
      payments := payments + [NewPayment(f, now)];
      reply := Reply(201, Done);
    }

    /**
     * PUT `/api/admin/payments/:id`.  Sets the status; an approval also adds the course to
     * the payer's account (creating the account if needed) and broadcasts a notification.
     */
    method UpdatePaymentStatus(id: int, status: string, now: int) returns (reply: Reply)
      requires Valid()
      modifies this
      ensures Valid()
      ensures Step(Snapshot(), reply) == Routes.UpdatePaymentStatus(old(Snapshot()), id, status)
      ensures var n := ApprovalNotice(old(Snapshot()), id, status, now);
        broadcasts == old(broadcasts) + if n.Some? then [n.value] else []
    {
      if status !in StatusValues {
        return Reply(400, InvalidStatus);
      }
      if !(0 <= id < |payments|) {
        return Reply(404, PaymentNotFound);
      }
      var p := payments[id];
      payments := payments[id := p.(status := status)];
      if status == "approved" {
        if p.email in users {
          users := users[p.email := users[p.email].(courses := AddToSet(users[p.email].courses, p.courseId))];
        } else {
          users := users[p.email := User("", None, [p.courseId], None)];
        }
        broadcasts := broadcasts + [CourseAccessUpdated(p.email, p.courseId, p.courseName, id, p.name, now)];
      }
      reply := Reply(200, Done);
    }

    // ---- reviews ---------------------------------------------------------------------

    /** POST `/api/reviews`: checks the fields and the rating, refuses a second review. */
    method SubmitReview(courseId: string, reviewerName: string, reviewerEmail: string,
                        rating: int, reviewText: string, now: int) returns (reply: Reply)
      requires Valid()
      modifies this
      ensures Valid()
      ensures Step(Snapshot(), reply) == Routes.SubmitReview(old(Snapshot()), courseId, reviewerName, reviewerEmail, rating, reviewText, now)
      ensures broadcasts == old(broadcasts)
    {
      var verdict := ValidateReview(courseId, reviewerName, reviewerEmail, rating, reviewText);
      if verdict == MissingReviewField {
        return Reply(400, MissingFields);
      }
      if verdict == RatingOutOfRange {
        return Reply(400, InvalidRating);
      }
      if HasReview(reviews, courseId, reviewerEmail) {
        return Reply(400, DuplicateReview);
      }
      reviews := reviews + [Review(courseId, reviewerName, reviewerEmail, rating, reviewText, now, true)];
      reply := Reply(201, Done);
    }

    /** PUT `/api/admin/reviews/:id`: sets the approval flag. */
    method SetReviewApproval(id: int, isApproved: bool) returns (reply: Reply)
      requires Valid()
      modifies this
      ensures Valid()
      ensures Step(Snapshot(), reply) == Routes.SetReviewApproval(old(Snapshot()), id, isApproved)
      ensures broadcasts == old(broadcasts)
    {
      if !(0 <= id < |reviews|) {
        return Reply(404, ReviewNotFound);
      }
      reviews := reviews[id := reviews[id].(isApproved := isApproved)];
      reply := Reply(200, Done);
    }

    // ---- accounts --------------------------------------------------------------------

    /** POST `/api/register`. */
    method Register(name: string, email: string, password: string) returns (reply: Reply)
      requires Valid()
      modifies this
      ensures Valid()
      ensures Step(Snapshot(), reply) == Routes.Register(old(Snapshot()), name, email, password)
      ensures broadcasts == old(broadcasts)
    {
      if name == "" || email == "" || password == "" {
        return Reply(400, MissingFields);
      }
      if email in users {
        return Reply(400, UserExists);
      }
      users := users[email := User(name, Some(Hashed(password)), [], None)];
      reply := Reply(201, Done);
    }

    /** POST `/api/login`: reads the user and changes nothing. */
    method Login(email: string, password: string) returns (reply: Reply)
      ensures reply == Routes.Login(Snapshot(), email, password)
    {
      if email == "" || password == "" {
        return Reply(400, MissingFields);
      }
      if email !in users {
        return Reply(401, InvalidCredentials);
      }
      var stored := users[email].password;
      if stored.None? {
        return Reply(500, NoPasswordSet);
      }
      if stored.value != Hashed(password) {
        return Reply(401, InvalidCredentials);
      }
      reply := Reply(200, Done);
    }

    /** GET `/api/users/:email/courses`: None stands for the 404 of an unknown address. */
    method UserCourses(email: string) returns (courses: Option<seq<string>>)
      ensures courses == Routes.UserCourses(Snapshot(), email)
    {
      if email !in users {
        return None;
      }
      courses := Some(users[email].courses);
    }
  }
}
