/**
 * The route handlers of server.js as transitions of the stores they read and write.
 * Each route is a function from the stores before the request (and the request's inputs:
 * its fields, the clock `now`, the random draw, whether the mail was delivered) to the
 * stores after it and the HTTP status it answers with.
 */
module Routes {
  import opened Wrappers
  import opened Records
  import opened Validation
  import opened OtpCode
  import opened Listing

  /**
   * The User collection (keyed by email), the process-wide `global.tempOTPs` map, and the
   * Payment and Review collections (a document's id is its position).
   */
  datatype Store = Store(
    users: map<string, User>,
    tempOtps: map<string, Challenge>,
    payments: seq<Payment>,
    reviews: seq<Review>)

  /** Why a route answered as it did; `Done` on success. */
  datatype Reason =
    | Done
    | MissingFields
    | InvalidEmail
    | MailerNotConfigured
    | DeliveryFailed
    | EmailNotRegistered
    | UserNotFound
    | InvalidTempOtp
    | OtpNotFound
    | OtpMismatch
    | OtpExpired
    | InvalidOrExpiredOtp
    | PasswordTooShort
    | InvalidPaymentMethod
    | InvalidStatus
    | PaymentNotFound
    | InvalidRating
    | DuplicateReview
    | ReviewNotFound
    | UserExists
    | InvalidCredentials
    | NoPasswordSet

  datatype Reply = Reply(status: int, reason: Reason)

  /** The stores after a request and the reply sent. */
  datatype Step = Step(next: Store, reply: Reply)

  function Refuse(s: Store, status: int, reason: Reason): Step {
    Step(s, Reply(status, reason))
  }

  // ---- invariant ---------------------------------------------------------------------

  predicate UserWellFormed(u: User) {
    NoDuplicates(u.courses) && (u.otp.Some? ==> IsOtpCode(u.otp.value.code))
  }

  predicate PaymentWellFormed(p: Payment) {
    && p.name != "" && p.email != "" && p.phone != "" && p.courseId != ""
    && p.txnId != "" && p.amount != 0 && p.paymentMethod in PaymentMethods
  }

  predicate SameReviewer(a: Review, b: Review) {
    a.courseId == b.courseId && a.reviewerEmail == b.reviewerEmail
  }

  /** At most one review per (course, reviewer email) pair. */
  predicate UniqueReviews(rs: seq<Review>) {
    forall i, j | 0 <= i < j < |rs| :: !SameReviewer(rs[i], rs[j])
  }

  /**
   * What the routes keep true of the stores: no user under the empty email, course lists
   * without repeats, every stored code a four-digit code, temporary entries only under
   * addresses that passed the email check, stored payments that passed `validatePayment`,
   * ratings in [1, 5], and one review per course and reviewer.
   */
  ghost predicate Consistent(s: Store) {
    && "" !in s.users
    && (forall e | e in s.users :: UserWellFormed(s.users[e]))
    && (forall e | e in s.tempOtps :: IsValidEmail(e) && IsOtpCode(s.tempOtps[e].code))
    && (forall i | 0 <= i < |s.payments| :: PaymentWellFormed(s.payments[i]))
    && (forall i | 0 <= i < |s.reviews| :: 1 <= s.reviews[i].rating <= 5)
    && UniqueReviews(s.reviews)
  }

  // ---- OTP lifecycle -----------------------------------------------------------------

  /**
   * Makes `ch` the live challenge for `email`: on the user document when one exists,
   * otherwise in the temporary map, replacing any earlier challenge.
   */
  function StoreChallenge(s: Store, email: string, ch: Challenge): (r: Store)
    ensures r.payments == s.payments && r.reviews == s.reviews
    ensures email in s.users ==> r.tempOtps == s.tempOtps && r.users.Keys == s.users.Keys && r.users[email].otp == Some(ch)
    ensures email !in s.users ==> r.users == s.users && r.tempOtps.Keys == s.tempOtps.Keys + {email} && r.tempOtps[email] == ch
    ensures email in s.users ==> r.users == s.users[email := s.users[email].(otp := Some(ch))]
    ensures email !in s.users ==> r.tempOtps == s.tempOtps[email := ch]
  {
    if email in s.users then s.(users := s.users[email := s.users[email].(otp := Some(ch))])
    else s.(tempOtps := s.tempOtps[email := ch])
  }

  /** The challenge a successful send stores. */
  function Issued(rand: real, now: int): (ch: Challenge)
    requires 0.0 <= rand < 1.0
    ensures IsOtpCode(ch.code) && ch.expires == now + OtpTtl
  {
    Challenge(IssueCode(rand), now + OtpTtl)
  }

  /**
   * POST `/api/send-otp`.  `mailerConfigured` says whether the mail credentials are set and
   * `delivered` whether the mail server accepted the message in time.
   */
  function SendOtp(s: Store, email: string, rand: real, now: int, mailerConfigured: bool, delivered: bool): (r: Step)
    requires 0.0 <= rand < 1.0
    ensures r.reply.status in {200, 400, 500}
    ensures r.reply.status == 400 <==> !IsValidEmail(email)
    ensures r.reply.reason == MissingFields <==> email == ""
    ensures r.reply.status == 200 <==> IsValidEmail(email) && mailerConfigured && delivered
    ensures r.reply.status != 200 ==> r.next == s
    ensures r.reply.status == 200 ==> r.next == StoreChallenge(s, email, Issued(rand, now))
    ensures Consistent(s) ==> Consistent(r.next)
  {
    if email == "" then Refuse(s, 400, MissingFields)
    else if !IsValidEmail(email) then Refuse(s, 400, InvalidEmail)
    else if !mailerConfigured then Refuse(s, 500, MailerNotConfigured)
    else if !delivered then Refuse(s, 500, DeliveryFailed)
    else Step(StoreChallenge(s, email, Issued(rand, now)), Reply(200, Done))
  }

  /** POST `/api/forgot-password`: a code for a registered address only, always on the user. */
  function ForgotPassword(s: Store, email: string, rand: real, now: int, delivered: bool): (r: Step)
    requires 0.0 <= rand < 1.0
    ensures r.reply.status in {200, 400, 404, 500}
    ensures r.reply.status == 400 <==> email == ""
    ensures r.reply.status == 404 <==> email != "" && email !in s.users
    ensures r.reply.status == 200 <==> email != "" && email in s.users && delivered
    ensures r.reply.status != 200 ==> r.next == s
    ensures r.reply.status == 200 ==> r.next == StoreChallenge(s, email, Issued(rand, now)) && r.next.tempOtps == s.tempOtps
    ensures Consistent(s) ==> Consistent(r.next)
  {
    if email == "" then Refuse(s, 400, MissingFields)
    else if email !in s.users then Refuse(s, 404, EmailNotRegistered)
    else if !delivered then Refuse(s, 500, DeliveryFailed)
    else Step(StoreChallenge(s, email, Issued(rand, now)), Reply(200, Done))
  }

  /** The user-tier test `user.otp && user.otp === otp && !(user.otpExpires < now)`. */
  predicate ChallengeHolds(c: Option<Challenge>, code: string, now: int) {
    c.Some? && c.value.code == code && !(c.value.expires < now)
  }

  /** The temporary-tier test `tempOTP.otp === otp && tempOTP.expires > now`. */
  predicate TempAccepts(ch: Challenge, code: string, now: int) {
    ch.code == code && ch.expires > now
  }

  /** Whether `/api/verify-otp` accepts: a temporary entry, when there is one, decides alone. */
  predicate OtpAccepted(s: Store, email: string, code: string, now: int) {
    if email in s.tempOtps then TempAccepts(s.tempOtps[email], code, now)
    else email in s.users && ChallengeHolds(s.users[email].otp, code, now)
  }

  /** Removes the challenge that a successful `/api/verify-otp` used. */
  function Consume(s: Store, email: string): (r: Store)
    ensures r.payments == s.payments && r.reviews == s.reviews
    ensures email in s.tempOtps ==> r.users == s.users && r.tempOtps == s.tempOtps - {email}
    ensures email !in s.tempOtps ==> r.tempOtps == s.tempOtps && r.users.Keys == s.users.Keys
    ensures email !in s.tempOtps && email in s.users ==> r.users[email].otp == None
    ensures email !in s.tempOtps && email in s.users ==> r.users == s.users[email := s.users[email].(otp := None)]
    ensures email !in s.tempOtps && email !in s.users ==> r == s
  {
    if email in s.tempOtps then s.(tempOtps := s.tempOtps - {email})
    else if email in s.users then s.(users := s.users[email := s.users[email].(otp := None)])
    else s
  }

  /** POST `/api/verify-otp`. */
  function VerifyOtp(s: Store, email: string, otp: string, now: int): (r: Step)
    ensures r.reply.status in {200, 400}
    ensures r.reply.status == 200 <==> email != "" && otp != "" && OtpAccepted(s, email, otp, now)
    ensures r.reply.status == 200 ==> r.next == Consume(s, email)
    ensures r.reply.status == 400 ==> r.next == s
    ensures email != "" && otp != "" && email in s.tempOtps && r.reply.status == 400 ==> r.reply.reason == InvalidTempOtp
    ensures email != "" && otp != "" && email !in s.tempOtps && (email !in s.users || s.users[email].otp == None)
      ==> r.reply.reason == OtpNotFound
    ensures email != "" && otp != "" && email !in s.tempOtps && email in s.users && s.users[email].otp.Some? ==>
      && (r.reply.reason == OtpMismatch <==> s.users[email].otp.value.code != otp)
      && (r.reply.reason == OtpExpired <==> s.users[email].otp.value.code == otp && s.users[email].otp.value.expires < now)
    ensures Consistent(s) ==> Consistent(r.next)
  {
    if email == "" || otp == "" then Refuse(s, 400, MissingFields)
    else if email in s.tempOtps then
      var ch := s.tempOtps[email];
      if ch.code == otp && ch.expires > now then Step(s.(tempOtps := s.tempOtps - {email}), Reply(200, Done))
      else Refuse(s, 400, InvalidTempOtp)
    else if email !in s.users || s.users[email].otp.None? then Refuse(s, 400, OtpNotFound)
    else
      var ch := s.users[email].otp.value;
      if ch.code != otp then Refuse(s, 400, OtpMismatch)
      else if ch.expires < now then Refuse(s, 400, OtpExpired)
      else Step(s.(users := s.users[email := s.users[email].(otp := None)]), Reply(200, Done))
  }

  /** POST `/api/verify-reset-otp`: checks the user-tier challenge and changes nothing. */
  function VerifyResetOtp(s: Store, email: string, otp: string, now: int): (r: Reply)
    ensures r.status in {200, 400, 404}
    ensures r.status == 200 <==> email != "" && otp != "" && email in s.users && ChallengeHolds(s.users[email].otp, otp, now)
    ensures r.status == 404 <==> email != "" && otp != "" && email !in s.users
  {
    if email == "" || otp == "" then Reply(400, MissingFields)
    else if email !in s.users then Reply(404, UserNotFound)
    else if !ChallengeHolds(s.users[email].otp, otp, now) then Reply(400, InvalidOrExpiredOtp)
    else Reply(200, Done)
  }

  /** The shortest new password `/api/reset-password` accepts. */
  const MinPasswordLength: int := 6

  /** POST `/api/reset-password`: sets the password and removes the challenge it used. */
  function ResetPassword(s: Store, email: string, otp: string, newPassword: string, now: int): (r: Step)
    ensures r.reply.status in {200, 400, 404}
    ensures r.reply.status == 200 <==>
      email != "" && otp != "" && |newPassword| >= MinPasswordLength && email in s.users && ChallengeHolds(s.users[email].otp, otp, now)
    ensures email != "" && otp != "" && newPassword != "" && |newPassword| < MinPasswordLength
      ==> r.reply == Reply(400, PasswordTooShort)
    ensures r.reply.status == 404 <==> email != "" && otp != "" && |newPassword| >= MinPasswordLength && email !in s.users
    ensures r.reply.status != 200 ==> r.next == s
    ensures r.reply.status == 200 ==> r.next == s.(users := s.users[email := s.users[email].(password := Some(Hashed(newPassword)), otp := None)])
    ensures Consistent(s) ==> Consistent(r.next)
  {
    if email == "" || otp == "" || newPassword == "" then Refuse(s, 400, MissingFields)
    else if |newPassword| < MinPasswordLength then Refuse(s, 400, PasswordTooShort)
    else if email !in s.users then Refuse(s, 404, UserNotFound)
    else if !ChallengeHolds(s.users[email].otp, otp, now) then Refuse(s, 400, InvalidOrExpiredOtp)
    else Step(s.(users := s.users[email := s.users[email].(password := Some(Hashed(newPassword)), otp := None)]), Reply(200, Done))
  }

  // ---- payments ----------------------------------------------------------------------

  /** `new Payment(req.body)`: the body's fields, `status` defaulting to pending, dated now. */
  function NewPayment(f: PaymentForm, now: int): (p: Payment)
    ensures f.status == None ==> p.status == "pending"
    ensures f.status.Some? ==> p.status == f.status.value
    ensures p.name == f.name && p.email == f.email && p.phone == f.phone
    ensures p.courseId == f.courseId && p.courseName == f.courseName
    ensures p.paymentMethod == f.paymentMethod && p.txnId == f.txnId && p.amount == f.amount
    ensures p.date == now
  {
    Payment(f.name, f.email, f.phone, f.courseId, f.courseName, f.paymentMethod, f.txnId, f.amount,
            f.status.GetOr("pending"), now)
  }

  /** POST `/api/payments` behind `validatePayment`. */
  function SubmitPayment(s: Store, f: PaymentForm, now: int): (r: Step)
    ensures r.reply.status in {201, 400}
    ensures r.reply.status == 201 <==> ValidatePayment(f) == PaymentAccepted
    ensures r.reply.status == 400 ==> r.next == s
    ensures r.reply.reason == MissingFields <==> ValidatePayment(f) == MissingPaymentField
    ensures r.reply.reason == InvalidPaymentMethod <==> ValidatePayment(f) == UnknownPaymentMethod
    ensures r.reply.status == 201 ==> r.next == s.(payments := s.payments + [NewPayment(f, now)])
    ensures Consistent(s) ==> Consistent(r.next)
  {
    match ValidatePayment(f)
    case MissingPaymentField => Refuse(s, 400, MissingFields)
    case UnknownPaymentMethod => Refuse(s, 400, InvalidPaymentMethod)
    case PaymentAccepted => Step(s.(payments := s.payments + [NewPayment(f, now)]), Reply(201, Done))
  }

  /**
   * `User.findOneAndUpdate({ email }, { $addToSet: { courses: courseId } }, { upsert: true })`:
   * adds the course to that user's list, creating a user with only that course if none exists.
   */
  function Grant(users: map<string, User>, email: string, courseId: string): (r: map<string, User>)
    ensures r.Keys == users.Keys + {email}
    ensures courseId in r[email].courses
    ensures forall c :: c in r[email].courses <==> c == courseId || (email in users && c in users[email].courses)
    ensures email in users ==> r[email] == users[email].(courses := r[email].courses)
    ensures email !in users ==> r[email] == User("", None, [courseId], None)
    ensures forall e | e in users && e != email :: r[e] == users[e]
  {
    users[email := if email in users then users[email].(courses := AddToSet(users[email].courses, courseId))
                   else User("", None, [courseId], None)]
  }

  /** PUT `/api/admin/payments/:id`; the outcome of the approval mail is caught and ignored. */
  function UpdatePaymentStatus(s: Store, id: int, status: string): (r: Step)
    ensures r.reply.status in {200, 400, 404}
    ensures r.reply.status == 400 <==> status !in StatusValues
    ensures r.reply.status == 404 <==> status in StatusValues && !(0 <= id < |s.payments|)
    ensures r.reply.status != 200 ==> r.next == s
    ensures r.reply.status == 200 ==>
      && r.next.payments == s.payments[id := s.payments[id].(status := status)]
      && r.next.users == (if status == "approved" then Grant(s.users, s.payments[id].email, s.payments[id].courseId) else s.users)
      && r.next.tempOtps == s.tempOtps
      && r.next.reviews == s.reviews
    ensures Consistent(s) ==> Consistent(r.next)
  {
    if status !in StatusValues then Refuse(s, 400, InvalidStatus)
    else if !(0 <= id < |s.payments|) then Refuse(s, 404, PaymentNotFound)
    else
      var p := s.payments[id];
      var users := if status == "approved" then Grant(s.users, p.email, p.courseId) else s.users;
      Step(s.(payments := s.payments[id := p.(status := status)], users := users), Reply(200, Done))
  }

  /** The `courseAccessUpdated` broadcast of PUT `/api/admin/payments/:id`, if it sends one. */
  function ApprovalNotice(s: Store, id: int, status: string, now: int): (n: Option<Notification>)
    ensures n.Some? <==> status == "approved" && 0 <= id < |s.payments|
    ensures n.Some? ==>
      && n.value.paymentId == id && n.value.email == s.payments[id].email
      && n.value.courseId == s.payments[id].courseId && n.value.timestamp == now
      && n.value.courseName == s.payments[id].courseName && n.value.userName == s.payments[id].name
  {
    if status == "approved" && 0 <= id < |s.payments| then
      var p := s.payments[id];
      Some(CourseAccessUpdated(p.email, p.courseId, p.courseName, id, p.name, now))
    else None
  }

  function PaymentDate(p: Payment): int { p.date }

  /** The payments the admin listing selects: all of them, or those with the given status. */
  function PaymentsWithStatus(ps: seq<Payment>, status: string): (r: seq<Payment>)
    ensures forall p :: multiset(r)[p] == if status == "" || p.status == status then multiset(ps)[p] else 0
  {
    if status == "" then ps else Filter(ps, (p: Payment) => p.status == status)
  }

  /** GET `/api/admin/payments` (without its text search). */
  function AdminPayments(s: Store, status: string, page: Option<int>, limit: Option<int>): (r: Option<Page<Payment>>)
    ensures r.Some? <==> page.GetOr(DefaultPage) >= 1 && limit.GetOr(DefaultLimit) >= 1
    ensures r.Some? ==> NewestFirst(r.value.items, PaymentDate)
    ensures r.Some? ==> |r.value.items| <= limit.GetOr(DefaultLimit)
    ensures r.Some? ==> forall p | p in r.value.items :: p in s.payments && (status != "" ==> p.status == status)
    ensures r.Some? ==> r.value.totalPages == TotalPages(|PaymentsWithStatus(s.payments, status)|, limit.GetOr(DefaultLimit))
    ensures r == Paginate(SortNewestFirst(PaymentsWithStatus(s.payments, status), PaymentDate), page, limit)
  {
    var sorted := SortNewestFirst(PaymentsWithStatus(s.payments, status), PaymentDate);
    PaginateKeepsOrder(sorted, page, limit, PaymentDate);
    assert forall p | p in sorted :: p in s.payments && (status != "" ==> p.status == status) by {
      forall p | p in sorted ensures p in s.payments && (status != "" ==> p.status == status) {
        assert p in multiset(sorted);
      }
    }
    Paginate(sorted, page, limit)
  }

  // ---- reviews -----------------------------------------------------------------------

  function ReviewDate(v: Review): int { v.date }

  predicate HasReview(rs: seq<Review>, courseId: string, reviewerEmail: string) {
    exists i | 0 <= i < |rs| :: rs[i].courseId == courseId && rs[i].reviewerEmail == reviewerEmail
  }

  /** GET `/api/reviews/:courseId`: the approved reviews of the course, newest first. */
  function CourseReviews(s: Store, courseId: string): (r: seq<Review>)
    ensures forall v :: multiset(r)[v] == if v.courseId == courseId && v.isApproved then multiset(s.reviews)[v] else 0
    ensures NewestFirst(r, ReviewDate)
  {
    SortNewestFirst(Filter(s.reviews, (v: Review) => v.courseId == courseId && v.isApproved), ReviewDate)
  }

  /** POST `/api/reviews`; a new review is visible (`isApproved` defaults to true). */
  function SubmitReview(s: Store, courseId: string, reviewerName: string, reviewerEmail: string,
                        rating: int, reviewText: string, now: int): (r: Step)
    ensures r.reply.status in {201, 400}
    ensures r.reply.status == 201 <==>
      ValidateReview(courseId, reviewerName, reviewerEmail, rating, reviewText) == ReviewAccepted
      && !HasReview(s.reviews, courseId, reviewerEmail)
    ensures r.reply.status == 400 ==> r.next == s
    ensures r.reply.reason == DuplicateReview ==> HasReview(s.reviews, courseId, reviewerEmail)
    ensures r.reply.status == 201 ==>
      r.next == s.(reviews := s.reviews + [Review(courseId, reviewerName, reviewerEmail, rating, reviewText, now, true)])
    ensures Consistent(s) ==> Consistent(r.next)
  {
    match ValidateReview(courseId, reviewerName, reviewerEmail, rating, reviewText)
    case MissingReviewField => Refuse(s, 400, MissingFields)
    case RatingOutOfRange => Refuse(s, 400, InvalidRating)
    case ReviewAccepted =>
      if HasReview(s.reviews, courseId, reviewerEmail) then Refuse(s, 400, DuplicateReview)
      else
        var v := Review(courseId, reviewerName, reviewerEmail, rating, reviewText, now, true);
        Step(s.(reviews := s.reviews + [v]), Reply(201, Done))
  }

  /** PUT `/api/admin/reviews/:id`: sets the approval flag of one review. */
  function SetReviewApproval(s: Store, id: int, isApproved: bool): (r: Step)
    ensures r.reply.status in {200, 404}
    ensures r.reply.status == 404 <==> !(0 <= id < |s.reviews|)
    ensures r.reply.status == 404 ==> r.next == s
    ensures r.reply.status == 200 ==>
      && r.next.reviews == s.reviews[id := s.reviews[id].(isApproved := isApproved)]
      && r.next.users == s.users && r.next.tempOtps == s.tempOtps && r.next.payments == s.payments
    ensures Consistent(s) ==> Consistent(r.next)
  {
    if !(0 <= id < |s.reviews|) then Refuse(s, 404, ReviewNotFound)
    else Step(s.(reviews := s.reviews[id := s.reviews[id].(isApproved := isApproved)]), Reply(200, Done))
  }

  /** Whether the admin review filter `status` keeps `v`: "pending" and "approved" select by flag, anything else keeps all. */
  predicate StatusKeeps(status: string, v: Review) {
    (status == "pending" ==> !v.isApproved) && (status == "approved" ==> v.isApproved)
  }

  /** The reviews the admin listing selects for `status`. */
  function ReviewsWithStatus(rs: seq<Review>, status: string): (r: seq<Review>)
    ensures forall v :: multiset(r)[v] == if StatusKeeps(status, v) then multiset(rs)[v] else 0
  {
    if status == "pending" then Filter(rs, (v: Review) => !v.isApproved)
    else if status == "approved" then Filter(rs, (v: Review) => v.isApproved)
    else rs
  }

  /** GET `/api/admin/reviews`. */
  function AdminReviews(s: Store, status: string, page: Option<int>, limit: Option<int>): (r: Option<Page<Review>>)
    ensures r.Some? <==> page.GetOr(DefaultPage) >= 1 && limit.GetOr(DefaultLimit) >= 1
    ensures r.Some? ==> NewestFirst(r.value.items, ReviewDate)
    ensures r.Some? ==> |r.value.items| <= limit.GetOr(DefaultLimit)
    ensures r.Some? ==> forall v | v in r.value.items :: v in s.reviews && StatusKeeps(status, v)
    ensures r.Some? ==> r.value.totalPages == TotalPages(|ReviewsWithStatus(s.reviews, status)|, limit.GetOr(DefaultLimit))
    ensures r == Paginate(SortNewestFirst(ReviewsWithStatus(s.reviews, status), ReviewDate), page, limit)
  {
    var sorted := SortNewestFirst(ReviewsWithStatus(s.reviews, status), ReviewDate);
    PaginateKeepsOrder(sorted, page, limit, ReviewDate);
    assert forall v | v in sorted :: v in s.reviews && StatusKeeps(status, v) by {
      forall v | v in sorted ensures v in s.reviews && StatusKeeps(status, v) {
        assert v in multiset(sorted);
      }
    }
    Paginate(sorted, page, limit)
  }

  // ---- accounts ----------------------------------------------------------------------

  /** POST `/api/register`: a new user with an empty course list, unless the email is taken. */
  function Register(s: Store, name: string, email: string, password: string): (r: Step)
    ensures r.reply.status in {201, 400}
    ensures r.reply.status == 201 <==> name != "" && email != "" && password != "" && email !in s.users
    ensures r.reply.reason == UserExists <==> name != "" && email != "" && password != "" && email in s.users
    ensures r.reply.status == 400 ==> r.next == s
    ensures r.reply.status == 201 ==> r.next == s.(users := s.users[email := User(name, Some(Hashed(password)), [], None)])
    ensures Consistent(s) ==> Consistent(r.next)
  {
    if name == "" || email == "" || password == "" then Refuse(s, 400, MissingFields)
    else if email in s.users then Refuse(s, 400, UserExists)
    else Step(s.(users := s.users[email := User(name, Some(Hashed(password)), [], None)]), Reply(201, Done))
  }

  /**
   * POST `/api/login`.  A user created by an approved payment has no password, and
   * `bcrypt.compare` throws on it, which the route answers with 500.
   */
  function Login(s: Store, email: string, password: string): (r: Reply)
    ensures r.status in {200, 400, 401, 500}
    ensures r.status == 200 <==> email != "" && password != "" && email in s.users && s.users[email].password == Some(Hashed(password))
    ensures r.status == 500 <==> email != "" && password != "" && email in s.users && s.users[email].password == None
    ensures r.status == 400 <==> email == "" || password == ""
  {
    if email == "" || password == "" then Reply(400, MissingFields)
    else if email !in s.users then Reply(401, InvalidCredentials)
    else match s.users[email].password
      case None => Reply(500, NoPasswordSet)
      case Some(h) => if h == Hashed(password) then Reply(200, Done) else Reply(401, InvalidCredentials)
  }

  /** GET `/api/users/:email/courses`: the course list, or None for the 404 of an unknown email. */
  function UserCourses(s: Store, email: string): (r: Option<seq<string>>)
    ensures r.Some? <==> email in s.users
    ensures r.Some? ==> forall c :: c in r.value <==> c in s.users[email].courses
  {
    if email in s.users then Some(s.users[email].courses) else None
  }
}
