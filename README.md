# Edemy LMS server: record-store model of the webhook and user handlers

This project models, in Dafny, the request-handling core of the Edemy
learning-management server. The core is the identity-provider (Clerk) and
payment-provider (Stripe) webhooks in `LMS/server/controllers/webhooks.js`
and the user endpoints in `LMS/server/controllers/userController.js`. The
handlers read and write four record kinds: User, Course, Purchase and
CourseProgress. Here those live in an in-memory record store with one map
per kind; progress is keyed by the `(userId, courseId)` pair it is looked
up by.

The model has three layers:

- Value-level building blocks, each with its own contract and lemmas:
  - `Profile`: the shared email, name and avatar derivation, including
    JavaScript's `String.prototype.trim` over the full ECMAScript
    white-space set.
  - `Pricing`: the `toFixed(2)` amount, and the charged
    `Math.floor(amount) * 100`.
  - `Ratings`: `findIndex` and the rating upsert.
  - `Progress`: the lecture-completion step.
- `Handlers`: one pure function per handler. Each maps a store snapshot
  (`Records.Db`) and the handler's inputs to the reply and the new store.
  The reply is the first response the handler sends. The properties the
  code promises are stated as `ensures` clauses and lemmas over these
  functions.
- `Store.RecordStore`: a class whose four map fields the handler methods
  update step by step, as the source does. Each method's postcondition
  equates its reply and new contents with the matching `Handlers` function.
  Each method also keeps the store invariant `Records.WellFormed`: every
  record sits under its own id, and no user, course or purchase has the
  empty id, so a lookup of a missing id finds nothing.

Calls into code that is not modelled become inputs:

- Svix or Stripe signature verification: a `verified` boolean.
- The `checkout.sessions.list` lookup: the optional purchase id found in the
  session metadata.
- `clerkClient.users.getUser`: an optional profile, `None` when the fetch
  fails.
- `checkout.sessions.create`: an optional session URL.
- The id MongoDB assigns to a new Purchase: a parameter.

An identifier the request does not carry (`undefined`) is written as `""`.

Behaviour the model keeps exactly as the code has it, although a reader might
expect otherwise:

- The payment-success handler has no terminal-status guard and does no
  de-duplication. A repeated delivery enrolls again, and a completed
  purchase can still be marked failed (`Handlers.RepeatedSuccessEnrollsTwice`,
  `Handlers.StatusIsNotTerminal`, `Store.DuplicateDeliveryScenario`).
- `purchaseCourse` answers "Data Not Found" for a missing user but still
  creates the Purchase and requests a checkout. A missing course stops it
  before any Purchase exists, because the course is dereferenced first.
- The 1–5 rating check in `addUserRating` does not return. An out-of-range
  rating from an enrolled user is still stored (`Handlers.OutOfRangeRatingIsStored`).
- `completed` is set to true on every newly recorded lecture, not when the
  course is finished.
- The charge `Math.floor(amount) * 100` drops the cents of the amount
  (`Pricing.UnitAmountDropsCents`).

## Model

| member | source | states |
|---|---|---|
| `Profile.Trim` | LMS/server/controllers/webhooks.js:126 | `.trim()` returns the contiguous middle of the string. Both its ends are non-white-space (or it is empty), and every character cut away on either side is ECMAScript white space. |
| `Profile.TrimIdempotent` | LMS/server/controllers/webhooks.js:126 | Trimming twice gives the same string as trimming once. |
| `Profile.TrimEmptyIffBlank` | LMS/server/controllers/webhooks.js:126 | The trimmed string is empty exactly when every character is white space, which is when `\|\| "User"` takes over. |
| `Profile.OrEmpty` | LMS/server/controllers/webhooks.js:133 | `v \|\| ""`: a present value is kept, and an absent one becomes `""`. |
| `Profile.FirstEmail` | LMS/server/controllers/webhooks.js:119-121 | The email is the first address when the list is present and non-empty, and `""` otherwise. |
| `Profile.DisplayName` | LMS/server/controllers/webhooks.js:124-126 | The display name is never empty and never starts or ends with white space. It is `"User"` whenever both name parts are absent or blank, and otherwise exactly `Trim(first + " " + last)` of the two parts (absent ones as `""`). |
| `Profile.DisplayNameOfTrimmedParts` | LMS/server/controllers/webhooks.js:124-126 | With trimmed parts, the name is `first + " " + last`, or the single non-empty part, or `"User"` when both are empty. |
| `Profile.Derive` | LMS/server/controllers/webhooks.js:173-177 | One derivation gives the email, name and avatar for `user.created`, `user.updated`, and read repair of a profile that has an address list. The name is never empty. |
| `Profile.NewUser` | LMS/server/controllers/webhooks.js:129-135 | A created user has the event's id, the derived email, name and image, and an empty `enrolledCourses`. |
| `Profile.ApplyProfile` | LMS/server/controllers/webhooks.js:173-180 | An update replaces only email, name and imageUrl. It keeps the id and `enrolledCourses`. |
| `Pricing.ToFixed2` | LMS/server/controllers/userController.js:122 | `Number(x.toFixed(2))` is a whole number of cents within half a cent of `x`; on an exact half cent it is the one of larger magnitude. It is non-negative for non-negative `x` and leaves a value already in cents unchanged. |
| `Pricing.PurchaseAmount` | LMS/server/controllers/userController.js:122 | The amount is `price − discount·price/100` rounded to cents, a half cent away from zero. For a price in cents and a discount of 0–100 %, it lies between 0 and the price. |
| `Pricing.UnitAmount` | LMS/server/controllers/userController.js:138 | `Math.floor(amount) * 100` is the largest multiple of 100 not above `amount·100`. It equals `amount·100` exactly when the amount is whole. |
| `Pricing.DiscountedPriceExample` | LMS/server/controllers/userController.js:122-138 | Price 100 with discount 20 gives amount 80.00 and a charge of 8000. |
| `Pricing.HalfCentRoundsUpExample` | LMS/server/controllers/userController.js:122 | Price 12.5 with discount 1 is exactly 12.375, and the stored amount is 12.38, not 12.37. |
| `Pricing.UnitAmountDropsCents` | LMS/server/controllers/userController.js:138 | Price 99.99 with discount 10 gives amount 89.99 but a charge of 8900, not 8999. |
| `Ratings.FindRating` | LMS/server/controllers/userController.js:233 | `findIndex` returns the first index with the user's id, or −1 exactly when no entry has it. |
| `Ratings.UpsertRating` | LMS/server/controllers/userController.js:233-239 | The user's first entry gets the new rating in place; with no entry, exactly one is appended at the end. Every other index is unchanged, and afterwards the user's entry holds the new rating. |
| `Ratings.UpsertKeepsOnePerUser` | LMS/server/controllers/userController.js:233-239 | A list with at most one rating per user keeps that property after an upsert. |
| `Ratings.UpsertTwice` | LMS/server/controllers/userController.js:233-239 | Rating again gives the same list as if only the second rating had been given. |
| `Progress.RecordLecture` | LMS/server/controllers/userController.js:167-185 | An already-recorded lecture reports "already completed" and leaves the record unchanged. A new lecture is appended at the end and sets `completed`. With no record, a new one holds exactly `[lectureId]`. The old list is always a prefix of the new one. |
| `Progress.RecordLectureIdempotent` | LMS/server/controllers/userController.js:169-172 | Recording the same lecture a second time reports it as already completed and changes nothing. |
| `Progress.RecordAllMonotone` | LMS/server/controllers/userController.js:174-176 | Across any sequence of completions, the earlier lecture list stays a prefix and every recorded lecture is present at the end. |
| `Handlers.OnUserCreated` | LMS/server/controllers/webhooks.js:108-157 | A known id gives "User already exists" with no change. An empty id gives 400 with no record. Otherwise exactly one `NewUser` is added. The store stays well formed. |
| `Handlers.OnUserUpdated` | LMS/server/controllers/webhooks.js:170-191 | An unknown id gives 404 with no change. A known user gets only the derived email, name and image, and every other record is untouched. |
| `Handlers.OnUserDeleted` | LMS/server/controllers/webhooks.js:193-196 | The user is removed if present, nothing else changes, and the reply is a success either way. |
| `Handlers.ClerkWebhooks` | LMS/server/controllers/webhooks.js:65-209 | A failed verification gives 400 with no change, and an unhandled event type gives 400 with no change. Otherwise the work goes to the three event handlers. Courses, purchases and progress never change. |
| `Handlers.PaymentSucceeded` | LMS/server/controllers/webhooks.js:300-362 | Nothing changes when there is no session, no purchase, or a missing user or course. Otherwise the user id is appended to `enrolledStudents`, the course id to `enrolledCourses`, and the status becomes completed, whatever it was. |
| `Handlers.PaymentFailed` | LMS/server/controllers/webhooks.js:364-389 | A found purchase becomes failed. Users, courses and progress never change. |
| `Handlers.StripeWebhooks` | LMS/server/controllers/webhooks.js:281-406 | A failed verification gives 400 with no change. Every verified request is answered `{received: true}` after the matching handler runs. |
| `Handlers.PaymentSucceededEnrolls` | LMS/server/controllers/webhooks.js:345-357 | After success, the user lists the course, the course lists the user, and the purchase is completed. |
| `Handlers.RepeatedSuccessEnrollsTwice` | LMS/server/controllers/webhooks.js:341-357 | A second delivery appends again on both sides, giving `[…, c, c]` and `[…, u, u]`. There is no de-duplication. |
| `Handlers.StatusIsNotTerminal` | LMS/server/controllers/webhooks.js:355-385 | A completed purchase can become failed, and a failed one completed. |
| `Handlers.GetUserData` | LMS/server/controllers/userController.js:9-72 | No user id gives 401 with no change. A stored user is returned unchanged. A missing user is created as `NewUser(userId, profile)`. It is 404 with no change when the fetch failed or the profile has no address list, because indexing the absent list throws into the same catch. |
| `Handlers.UserEnrolledCourses` | LMS/server/controllers/userController.js:76-100 | This returns the stored user's course ids, or not found exactly when the user is absent. |
| `Handlers.NewPurchase` | LMS/server/controllers/userController.js:119-125 | The created Purchase is for the course and the caller, at `PurchaseAmount` of the course's price and discount, and starts pending. |
| `Handlers.CheckoutFor` | LMS/server/controllers/userController.js:132-151 | The single line item charges a multiple of 100 within one unit below `amount·100`. The session carries the purchase id as metadata. |
| `Handlers.PurchaseCourse` | LMS/server/controllers/userController.js:105-159 | A missing course gives no Purchase and no checkout. A missing user is answered "Data Not Found", but a Purchase is still created. An empty or already used purchase id makes the create fail with no change. Otherwise exactly one pending Purchase is added at the discounted amount, and the checkout carries its id. |
| `Handlers.UpdateUserCourseProgress` | LMS/server/controllers/userController.js:163-190 | An already-recorded lecture changes nothing. Otherwise only the pair's record changes, no record loses a lecture, and the store stays well formed. |
| `Handlers.GetUserCourseProgress` | LMS/server/controllers/userController.js:194-203 | This returns the pair's record exactly when one exists. |
| `Handlers.AddUserRating` | LMS/server/controllers/userController.js:208-248 | Invalid details are answered first but do not stop the upsert. A missing course, or a user who is missing or not enrolled, changes nothing. Otherwise only that course's ratings change, by `UpsertRating`. |
| `Handlers.AddUserRatingKeepsOnePerUser` | LMS/server/controllers/userController.js:233-239 | A store where every course has at most one rating per user keeps that property. |
| `Handlers.RateThenRerate` | LMS/server/controllers/userController.js:233-239 | Rating 3 then 5 leaves the same ratings as rating 5 once, with one entry for the user, holding 5. |
| `Handlers.OutOfRangeRatingIsStored` | LMS/server/controllers/userController.js:217-220 | An enrolled user's rating of 6 is answered "Invalid details" and is stored anyway. |
| `Handlers.RatingWithoutCourseIdChangesNothing` | LMS/server/controllers/userController.js:217-225 | A rating without a course id finds no course in a well-formed store. It is answered "Invalid details" and nothing is stored. |
| `Handlers.PurchaseThenPaymentSucceeds` | LMS/server/controllers/userController.js:119-151 | Buying a course priced 100 at 20 % off creates a pending Purchase of 80.00 and charges 8000. The success event then gives `enrolledCourses = ["c1"]`, `enrolledStudents = ["u1"]` and status completed. |
| `Handlers.PurchaseThenPaymentFails` | LMS/server/controllers/webhooks.js:364-389 | A failure event on a fresh pending Purchase marks it failed and enrolls nobody. |
| `Store.RecordStore.ClerkWebhooks` | LMS/server/controllers/webhooks.js:65-209 | The in-place user create, update and delete match `Handlers.ClerkWebhooks`, and the method keeps `Valid()`. |
| `Store.RecordStore.HandlePaymentSuccess` | LMS/server/controllers/webhooks.js:300-362 | The lookup chain with early returns, the two pushes and the status write match `Handlers.PaymentSucceeded`. |
| `Store.RecordStore.HandlePaymentFailed` | LMS/server/controllers/webhooks.js:364-389 | The status write matches `Handlers.PaymentFailed`. |
| `Store.RecordStore.StripeWebhooks` | LMS/server/controllers/webhooks.js:281-406 | The verification and dispatch match `Handlers.StripeWebhooks`. |
| `Store.RecordStore.GetUserData` | LMS/server/controllers/userController.js:9-72 | The read repair matches `Handlers.GetUserData`. |
| `Store.RecordStore.UserEnrolledCourses` | LMS/server/controllers/userController.js:76-100 | This read-only lookup matches `Handlers.UserEnrolledCourses`. |
| `Store.RecordStore.PurchaseCourse` | LMS/server/controllers/userController.js:105-159 | The Purchase creation and checkout request match `Handlers.PurchaseCourse`. |
| `Store.RecordStore.UpdateUserCourseProgress` | LMS/server/controllers/userController.js:163-190 | The in-place push and `completed = true`, or the create, match `Handlers.UpdateUserCourseProgress`. |
| `Store.RecordStore.GetUserCourseProgress` | LMS/server/controllers/userController.js:194-203 | This read-only lookup matches `Handlers.GetUserCourseProgress`. |
| `Store.RecordStore.AddUserRating` | LMS/server/controllers/userController.js:208-248 | The in-place rating assignment or push matches `Handlers.AddUserRating`. |

## Left out

- `LMS/server/server.js`: Express routing, CORS and raw-body middleware, the database and Cloudinary connections, and the listen call. These are plumbing with no logic.
- Signature verification (Svix `whook.verify`, Stripe `constructEvent`): modelled only as the `verified` input. The clerk handler's missing-body and unparsable-payload 400 replies are folded into it.
- `checkout.sessions.list`, `checkout.sessions.create` and `clerkClient.users.getUser`: foreign SDK calls. Only their results are inputs: the purchase id from session metadata, the session URL, and the fetched profile.
- The checkout currency (`CURRENCY` from the environment, lower-cased, default `usd`) and `mode: 'payment'`: configuration passed straight to the provider, so `Handlers.CheckoutRequest` has no currency field.
- Mongoose mechanics: failing `save`/`create` calls and the 500 replies of the catch blocks, ObjectId casting (ids are strings compared by equality), and the `.populate('enrolledCourses')` join. `Handlers.UserEnrolledCourses` returns course ids, not course documents.
- How MongoDB generates a new Purchase id: it is a parameter. An id already in use is treated like a failed `Purchase.create`.
- The Purchase and CourseProgress schemas: the initial status `pending` and the initial `completed = false` are assumed defaults. Schema validators are assumed absent, for example on the rating range.
- Floating point: prices, discounts and amounts are exact reals, and `toFixed` is modelled for every real. JavaScript switches to exponent notation at 1e21 or more; that case is not modelled.
- Request values are taken at their modelled types. A rating is an integer, so JSON strings and fractions coerced by `<` are not covered. An email-address entry is its address string, so an entry without `email_address` is not distinguished from one with it.
- Concurrency between duplicate webhook deliveries: the code does nothing about it, and each delivery is modelled as one atomic step.
- `console.log` output, exact HTTP status codes, and response-body shapes. Also the crashes from calling `res.json` a second time after a missing `return`: only the first response and the effect on the store are modelled.
- The commented-out earlier handlers at `LMS/server/controllers/webhooks.js:1-56` and `:214-279`.
