# Course-platform back end: OTP, payments, reviews and accounts

This project models the request handlers of `server.js`, an Express/Mongoose server for an
online course academy, and proves properties of them. The model covers four parts:

- **OTP lifecycle, with two storage tiers.** `/api/send-otp` and `/api/forgot-password` issue
  a four-digit code that lives five minutes. For a registered address both put the code on the
  user document. Only `/api/send-otp` accepts any other address, and it puts that address's
  code into the process-wide `global.tempOTPs` map; `/api/forgot-password` answers 404 for it.
  `/api/verify-otp` consults a temporary entry first, and that entry alone decides.
  `/api/verify-reset-otp` checks the user's code without using it up.
  `/api/reset-password` uses it up and sets a new password.
- **Payments.** `validatePayment` guards submission. An admin may set any status in
  {approved, rejected, pending}. An approval adds the course to the payer's course list with
  set semantics and creates the account if there is none.
- **Reviews.** There is at most one review per course and reviewer address, and the rating
  must be in [1, 5]. A new review is visible by default. The public listing shows the
  course's approved reviews, newest first.
- **Accounts and listings.** Registration refuses a taken address. The course lookup answers
  404 for an unknown address. The admin listings skip `(page-1)*limit`, take `limit`, and
  report `ceil(count/limit)` pages.

## Layout

The modules follow the program's structure:

- `Wrappers` (`Option`).
- `Records`: the documents, and `$addToSet` as `AddToSet`.
- `Validation`: the email regular expression, `validatePayment` and the review field checks.
- `OtpCode`: the code drawn from `Math.random`, and its decimal text.
- `Listing`: the `date: -1` ordering, the match filters and the page arithmetic.
- `Routes`: each route as a pure transition from the stores before the request to the stores
  after it, plus the reply.
- `Properties`: what a client sees across several requests.
- `Server`: class `Backend`, whose fields are the collections. Each handler updates them in
  place and is proved to agree with its `Routes` function. Every handler also keeps
  `Routes.Consistent`, the invariant that holds between requests.

## Modelling conventions

These conventions apply throughout:

- The clock (`Date.now()`) is the parameter `now`, in milliseconds.
- The `Math.random()` draw is the parameter `rand`, in [0, 1).
- Whether the mail server accepted the message within the timeout is the Boolean `delivered`.
- Whether `EMAIL_USER`/`EMAIL_PASS` are set is the `Backend` constant `mailerConfigured`.
- Request body fields are taken at the types of the Mongoose schema (strings, and integers
  for `amount` and `rating`). An absent field is the empty string, or 0 for a number, because
  the source only tests truthiness. A JSON body may carry other types; see "Left out".
- A document's id is its position in its collection, so an unknown id is an index out of range.
- A bcrypt hash is the opaque value `Hashed(secret)`, and `bcrypt.compare` is equality on it.

Two behaviours of the code are modelled as written, and `Properties` states their
consequences:

- **POST `/api/payments` stores the body as sent** (`new Payment(req.body)`). A submission
  that carries its own `status` keeps it; only a body without one starts as "pending".
- **A temporary OTP entry is deleted only by a successful verification.** An expired or
  failed entry stays in the map. While the entry has not expired, its own code still
  verifies. Once it has expired and its address has an account, every later
  `/api/verify-otp` for that address is refused with "Invalid OTP or expired", even for a
  fresh user-tier code (`Properties.StaleTempEntryBlocksVerification`).

## Model

| member | source | states |
|---|---|---|
| Records.AddToSet | server.js:548-553 | `$addToSet`: the result holds exactly the old courses plus the new one, extends the old list by at most one element, and keeps a repeat-free list repeat-free |
| Records.AddToSetIdempotent | server.js:548-553 | adding the same course twice equals adding it once |
| Validation.EmailCheckMatchesPattern | server.js:115-116 | the email check accepts exactly the strings `local@host.tld` with three non-empty parts free of whitespace and `@` (`/^[^\s@]+@[^\s@]+\.[^\s@]+$/`) |
| Validation.CheckImpliesPattern | server.js:115-116 | every accepted address splits as `local@host.tld` |
| Validation.PatternImpliesCheck | server.js:115-116 | every `local@host.tld` with admissible non-empty parts is accepted |
| Validation.ValidEmailShape | server.js:115-116 | an accepted address has no whitespace and exactly one `@`, which is not its first character |
| Validation.ValidatePayment | server.js:450-462 | accepted iff the seven fields are truthy (a numeric amount of 0 fails) and the method is bkash, nagad, bank or card; a missing field is reported before an unknown method |
| Validation.ValidateReview | server.js:615-634 | a missing field (rating 0 counts as missing) is reported first; after that, a rating outside [1, 5] is refused; acceptance implies 1 <= rating <= 5 |
| OtpCode.Draw | server.js:123 | `Math.floor(1000 + Math.random() * 9000)` lies in [1000, 9999] |
| OtpCode.IssueCode | server.js:123 | the issued text is four digits with no leading zero, and its decimal value is the drawn number |
| OtpCode.Decimal | server.js:123 | `toString()` of a natural number is non-empty, all digits, and has no leading zero unless the number is 0 |
| OtpCode.DecimalRoundTrip | server.js:123 | reading back the decimal text of n gives n |
| OtpCode.DecimalOfValue | server.js:123 | canonical digit text is the decimal text of its value |
| OtpCode.FourDigits | server.js:123 | every number in [1000, 9999] prints as exactly four digits |
| OtpCode.OtpCodeValue | server.js:123 | every four-digit code without a leading zero has a value in [1000, 9999] |
| OtpCode.EveryCodeIssuable | server.js:123 | every such code is issued for some draw |
| Listing.InsertNewest | server.js:495 | inserting into a newest-first list keeps it newest-first and adds exactly that element |
| Listing.SortNewestFirst | server.js:495 | `sort({ date: -1 })`: a permutation of its input with dates non-increasing |
| Listing.Filter | server.js:594-600 | a match query keeps every copy of each matching document and drops every non-matching one |
| Listing.TotalPages | server.js:503 | `Math.ceil(count / limit)`: the least n with count <= n * limit, and 0 exactly when count is 0 |
| Listing.PageOf | server.js:496-497 | `skip((page-1)*limit).limit(limit)`: element i of the page is element (page-1)*limit+i of the list, the page holds at most `limit` items, and it is full unless the list ends first |
| Listing.PageKeepsOrder | server.js:495-497 | a page of a newest-first list is newest-first |
| Listing.ItemOnItsPage | server.js:496-503 | item i is on page i/limit+1, and that page number is within the reported page count |
| Listing.PastLastPageEmpty | server.js:496-503 | a page beyond the reported count is empty |
| Listing.Paginate | server.js:481-505 | the page defaults to 1 and the limit to 10; the reply holds that page, the page count and the requested page number |
| Listing.PaginateKeepsOrder | server.js:495-503 | the paginated items of a newest-first list are newest-first, all drawn from the list, and never more than the limit |
| Routes.StoreChallenge | server.js:168-179 | the code goes on the user document if the address has an account, otherwise into the temporary map, replacing any earlier entry; the new stores are exactly the old ones with that one field or entry set |
| Routes.Issued | server.js:123-179 | a stored challenge carries a valid code and expires at now + 300000 |
| Routes.SendOtp | server.js:104-205 | 400 exactly for a missing or malformed address; 500 when the mailer is unconfigured or delivery fails; 200 stores the challenge; no failure changes any store |
| Routes.ForgotPassword | server.js:207-285 | 400 for a missing address; 404 for an unregistered one; 200 only after delivery, storing the code on the user and never in the temporary map |
| Routes.Consume | server.js:401-437 | success deletes the temporary entry if there is one, otherwise clears the user's code; every other user, every other field of that user and every other entry stay as they were |
| Routes.VerifyOtp | server.js:390-447 | 200 iff a temporary entry exists and matches with expires > now, or there is none and the user's code matches and has not expired; a temporary-tier failure is "Invalid OTP or expired" and changes nothing; user-tier failures are distinct (not found, mismatch, expired) and leave the code in place |
| Routes.VerifyResetOtp | server.js:288-330 | 200 iff the user exists and the code matches with `otpExpires >= now`; 404 iff the user is unknown |
| Routes.ResetPassword | server.js:333-387 | a new password under 6 characters is refused before any lookup; 404 for an unknown user; success sets the password and clears the code; every failure changes nothing |
| Routes.NewPayment | server.js:41-56 | `new Payment(req.body)`: every modelled field of the body is copied (a status sent in the body included), the date is now, and the status is "pending" when the body has none |
| Routes.SubmitPayment | server.js:465-477 | 201 iff `validatePayment` accepts; then the new payment is appended; a refusal stores nothing and gives the reason |
| Routes.Grant | server.js:548-553 | the upsert: the payer's course list gains the course with set semantics, a missing payer is created with only that course, and other users are unchanged |
| Routes.UpdatePaymentStatus | server.js:526-591 | 400 iff the status is not approved, rejected or pending; 404 for an unknown id; otherwise the status is overwritten whatever it was, and only "approved" touches users |
| Routes.ApprovalNotice | server.js:555-567 | a `courseAccessUpdated` event is emitted exactly for a successful approval, carrying the payment id, the payer's email and name, the course id and name, and the time |
| Routes.PaymentsWithStatus | server.js:483-484 | an empty status selects all payments; otherwise exactly those with that status |
| Routes.AdminPayments | server.js:479-510 | the page is exactly page `page` (of `limit` entries) of the selected payments sorted newest first, so it is newest-first, at most `limit` long and drawn from the selection; the page count is the ceiling of their number over the limit |
| Routes.CourseReviews | server.js:594-608 | exactly the course's approved reviews, every copy, newest first |
| Routes.SubmitReview | server.js:611-679 | 201 iff the fields and rating pass and the course has no review from that address; the review is appended with `isApproved` true; a refusal stores nothing |
| Routes.SetReviewApproval | server.js:709-728 | an unknown id is 404; otherwise only that review's flag changes |
| Routes.ReviewsWithStatus | server.js:686-688 | "pending" selects unapproved reviews, "approved" approved ones, and anything else all of them |
| Routes.AdminReviews | server.js:682-706 | the page is exactly page `page` (of `limit` entries) of the selected reviews sorted newest first, so it is newest-first, at most `limit` long and drawn from the selection; the page count is the ceiling of their number over the limit |
| Routes.Register | server.js:742-780 | 201 iff all three fields are present and the address is free, creating the user with its password and no courses; a taken address is "User already exists" |
| Routes.Login | server.js:783-815 | 200 iff the stored hash matches; an unknown address or a wrong password is 401; an account without a password (created by an approval) is 500 |
| Routes.UserCourses | server.js:818-828 | the user's course list, or none (the 404) exactly for an unknown address |
| Properties.TempCodeIsSingleUse | server.js:401-411 | a code sent to an address without an account verifies once before expiry; the repeat is "not found" |
| Properties.UserCodeIsSingleUse | server.js:413-439 | for a registered address with no temporary entry, a user-tier code verifies once, even at its expiry instant; the repeat is "not found" |
| Properties.WrongCodeKeepsChallenge | server.js:401-439 | when a registered address has no temporary entry and the check happens before the code expires, a wrong code leaves the stores unchanged and the right code still verifies afterwards |
| Properties.ExpiryInstant | server.js:401-439 | at exactly now + 300000 the temporary tier refuses and the user tier accepts |
| Properties.ExpiredCodeFails | server.js:401-439 | after the expiry instant no code verifies on either tier |
| Properties.UndeliveredCodeIsNotStored | server.js:159-261 | a failed delivery stores no challenge |
| Properties.TempEntryShadowsUserTier | server.js:401-411 | while a temporary entry exists, a valid user-tier code that the temporary entry does not itself accept is refused and nothing changes |
| Properties.StaleTempEntryBlocksVerification | server.js:168-411 | an expired temporary entry survives a new send; after that send `/api/verify-otp` refuses the new code at every later instant, while `/api/verify-reset-otp` accepts it |
| Properties.ResetFlow | server.js:207-387 | after forgot-password, verify-reset succeeds and can be repeated; reset then consumes the code, so a later verify-reset or reset fails, and the new password logs in |
| Properties.GrantIdempotent | server.js:548-553 | granting the same course twice equals granting it once |
| Properties.ApprovalIdempotent | server.js:526-553 | approving the same payment twice leaves the stores as the first approval left them |
| Properties.ApprovedPaymentGrantsCourse | server.js:465-553 | a valid submission is stored (pending unless the body names a status); after approval the payer's course list contains the course |
| Properties.RejectionKeepsGrantedCourse | server.js:537-553 | rejecting an approved payment overwrites its status but leaves the granted course in place |
| Properties.UpsertedAccountNeedsReset | server.js:548-553 | an account created by an approval cannot log in (500) until a password reset gives it a password |
| Properties.SecondReviewRefused | server.js:636-646 | a second review of the same course from the same address is refused and stores nothing |
| Properties.NewReviewIsListed | server.js:594-656 | a newly accepted review appears in the course's listing at once |
| Properties.ApprovalChangesListing | server.js:594-600 | setting a review's flag changes each course listing by exactly that review: its old version leaves and its new version is listed if approved and of that course |
| Properties.HiddenReviewIsNotListed | server.js:709-713 | hiding a review removes exactly that review from every course listing; all other listed reviews stay |
| Properties.ApprovedReviewIsListed | server.js:709-713 | approving a review lists it for its course, and every review listed before stays listed |
| Properties.RegisterThenLogin | server.js:742-828 | a registered account has no courses and logs in with its password only; registering the same address again is refused |
| Server.Backend.constructor | server.js:174 | a server process starts on any consistent database contents with an empty temporary OTP map, so a restart loses temporary entries and keeps user-tier codes |
| Server.Backend.SendOtp | server.js:104-205 | leaves the fields as `Routes.SendOtp` prescribes and keeps the invariant |
| Server.Backend.ForgotPassword | server.js:207-285 | leaves the fields as `Routes.ForgotPassword` prescribes and keeps the invariant |
| Server.Backend.VerifyOtp | server.js:390-447 | deletes the temporary entry or clears the user's code exactly as `Routes.VerifyOtp` prescribes, and keeps the invariant |
| Server.Backend.VerifyResetOtp | server.js:288-330 | answers as `Routes.VerifyResetOtp` and changes nothing |
| Server.Backend.ResetPassword | server.js:333-387 | leaves the fields as `Routes.ResetPassword` prescribes and keeps the invariant |
| Server.Backend.SubmitPayment | server.js:450-477 | appends the payment exactly as `Routes.SubmitPayment` prescribes and keeps the invariant |
| Server.Backend.UpdatePaymentStatus | server.js:526-591 | updates the payment and grants the course as `Routes.UpdatePaymentStatus` prescribes, keeps the invariant, and logs the broadcast exactly on approval |
| Server.Backend.SubmitReview | server.js:611-679 | appends the review exactly as `Routes.SubmitReview` prescribes and keeps the invariant |
| Server.Backend.SetReviewApproval | server.js:709-728 | sets the flag as `Routes.SetReviewApproval` prescribes and keeps the invariant |
| Server.Backend.Register | server.js:742-780 | adds the user as `Routes.Register` prescribes and keeps the invariant |
| Server.Backend.Login | server.js:783-815 | answers as `Routes.Login` and changes nothing |
| Server.Backend.UserCourses | server.js:818-828 | answers as `Routes.UserCourses` and changes nothing |

## Left out

- HTTP plumbing (Express routing, CORS, body parsing, the JSON bodies and message texts) is
  not modelled. Each route answers with an HTTP status and a reason.
- The database layer is not modelled. Collections are maps and sequences, and ids are
  positions, so the 500 that Mongoose raises for a malformed ObjectId is not modelled.
- GET `/api/admin/payments/:id` and GET `/api/courses` read one document or all documents
  and carry no logic of their own, so they are not modelled.
- Routes.AdminPayments: the `search` filter (a case-insensitive regular-expression match via
  MongoDB) is not modelled; the listing covers the query without `search`.
- Routes.AdminPayments and Routes.AdminReviews: the `page` and `limit` query values are
  integers here. `page` or `limit` below 1 gives no page; what MongoDB does with a negative
  skip or a zero limit is not modelled. String-to-number coercion of query values is not
  modelled either.
- Listing.SortNewestFirst: ties between equal dates may come out in any order. MongoDB
  guarantees no order for them either.
- Mail delivery (nodemailer, the templates, the 25-second `Promise.race` and the
  classification of error messages) is reduced to the Boolean `delivered`.
- Server.Backend.UpdatePaymentStatus: the approval mail's outcome is caught and ignored by the
  source, so the method takes no mail input.
- socket.io is only the ghost log `broadcasts`; the connection handlers are not modelled.
- bcrypt, salting and JWT signing are not modelled. A hash is `Hashed(password)`, and the
  token in the register and login replies is omitted.
- `Math.random` supplies a real number, not an IEEE double. The code's distribution over
  [1000, 9999] is not modelled, only which codes can occur (`OtpCode.EveryCodeIssuable`).
- Routes.ResetPassword: `newPassword.length` counts UTF-16 code units; the model counts
  characters.
- Routes.VerifyOtp: a code sent as a JSON number never equals the stored string under `===`.
  The model takes every code as a string.
- Routes.VerifyOtp: keys such as "constructor" that a plain JavaScript object inherits are not
  modelled in `global.tempOTPs`.
- Routes.SubmitPayment: body fields are taken at their schema types. In the source a string
  amount such as "0" passes the truthiness test of `validatePayment` and is cast to 0 by the
  schema on save, so a zero-amount payment can be stored (the model, and
  `Routes.Consistent`, exclude it). A non-numeric amount string also passes validation and
  then makes `payment.save()` throw, giving a 500 that the model does not return.
- Routes.SubmitPayment: `userId`, a client-supplied `date` and other extra body fields are not
  modelled; only `status` is carried over from the body.
- Routes.SetReviewApproval: an `isApproved` absent from the body (an update that sets nothing)
  is not modelled; the flag is a Boolean.
- Routes.SubmitReview: `Number.parseInt` is not modelled; the rating is an integer. A rating
  sent as the string "0" is truthy in the source and gets the range message (server.js:629),
  not the missing-field one the model gives for 0.
- Concurrency is not modelled. The model is sequential, so check-then-insert races (duplicate
  registrations or reviews) are out of scope.
- The unused `resetToken` fields and the `Course` model are not modelled.
