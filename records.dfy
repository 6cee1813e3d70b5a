/**
 * The records that server.js keeps in its document stores (the User, Payment and
 * Review schemas) and the one event it broadcasts.
 */
module Records {
  import opened Wrappers

  /** An OTP challenge: the code and the instant (in ms) at which it stops being valid. */
  datatype Challenge = Challenge(code: string, expires: int)

  /** A stored bcrypt hash; it stands for the hash of `secret` and is compared only for equality. */
  datatype Credential = Hashed(secret: string)

  /**
   * A user document, keyed elsewhere by its email.  `password` is absent for a user that
   * an approved payment created; `otp` holds the `otp`/`otpExpires` pair when set.
   */
  datatype User = User(name: string, password: Option<Credential>, courses: seq<string>, otp: Option<Challenge>)

  /** The body of a payment submission; `status` is present only when the client sends one. */
  datatype PaymentForm = PaymentForm(
    name: string, email: string, phone: string, courseId: string, courseName: string,
    paymentMethod: string, txnId: string, amount: int, status: Option<string>)

  datatype Payment = Payment(
    name: string, email: string, phone: string, courseId: string, courseName: string,
    paymentMethod: string, txnId: string, amount: int, status: string, date: int)

  datatype Review = Review(
    courseId: string, reviewerName: string, reviewerEmail: string, rating: int,
    reviewText: string, date: int, isApproved: bool)

  /** The `courseAccessUpdated` event sent to every connected client when a payment is approved. */
  datatype Notification = CourseAccessUpdated(
    email: string, courseId: string, courseName: string, paymentId: nat, userName: string, timestamp: int)

  predicate NoDuplicates<T(==)>(xs: seq<T>) {
    forall i, j | 0 <= i < j < |xs| :: xs[i] != xs[j]
  }

  /** MongoDB's `$addToSet` on an array field: append `x` unless it is already there. */
  function AddToSet(xs: seq<string>, x: string): (r: seq<string>)
    ensures forall y :: y in r <==> y in xs || y == x
    ensures xs <= r && |r| <= |xs| + 1
    ensures NoDuplicates(xs) ==> NoDuplicates(r)
  {
    if x in xs then xs else xs + [x]
  }

  /** Adding an element that is already present changes nothing, so a repeated add is a no-op. */
  lemma AddToSetIdempotent(xs: seq<string>, x: string)
    ensures AddToSet(AddToSet(xs, x), x) == AddToSet(xs, x)
  {
  }
}
