/** What every request handler does to the record store, stated on a value
    snapshot of the store. Each function returns the reply (the first
    response the handler sends) and the store afterwards. Results of calls
    into the identity and payment providers are parameters: whether a
    webhook signature verified, the purchase id found by the checkout
    session lookup, the profile fetched from the identity provider and the
    checkout session URL. */
module Handlers {
  import opened Records
  import opened Profile
  import opened Pricing
  import opened Ratings
  import opened Progress

  /** A verified identity-provider webhook event. */
  datatype ClerkEvent =
    | UserCreatedEvent(id: string, profile: ProviderProfile)
    | UserUpdatedEvent(id: string, profile: ProviderProfile)
    | UserDeletedEvent(id: string)
    | UnhandledClerkEvent

  /** The type of a verified payment-provider webhook event. */
  datatype StripeEvent = PaymentIntentSucceeded | PaymentIntentFailed | UnhandledStripeEvent

  /** What purchaseCourse asks the payment provider to create: one line item
      of `unitAmount` minor units and the purchase id as session metadata. */
  datatype CheckoutRequest = CheckoutRequest(
    successUrl: string,
    cancelUrl: string,
    productName: string,
    unitAmount: int,
    quantity: nat,
    purchaseId: string)

  /** The first response a handler sends; the HTTP status the source uses
      is noted where it is not 200. */
  datatype Reply =
    | VerificationFailed            // 400
    | UserAlreadyExists
    | MissingUserId                 // 400
    | UserCreated
    | UserNotFound                  // 404
    | UserUpdated
    | UserDeleted
    | UnhandledEvent                // 400
    | Received
    | Unauthorized                  // 401
    | UserData(user: User)
    | UserCreationFailed            // 404
    | EnrolledCourses(courseIds: seq<string>)
    | DataNotFound
    | SessionUrl(url: string)
    | PurchaseError
    | LectureAlreadyCompleted
    | ProgressUpdated
    | ProgressData(record: Option<CourseProgress>)
    | InvalidDetails
    | CourseNotFound
    | NotPurchased
    | RatingAdded

  datatype Step = Step(reply: Reply, db: Db)

  /** purchaseCourse also hands a checkout request to the payment provider. */
  datatype PurchaseStep = PurchaseStep(reply: Reply, db: Db, checkout: Option<CheckoutRequest>)

  // ---------------------------------------------------------------- clerkWebhooks

  /** `user.created`: a known id is answered "User already exists" and
      nothing changes; an empty id is refused; otherwise exactly one User is
      added, with the derived profile and no enrollments. */
  function OnUserCreated(db: Db, id: string, profile: ProviderProfile): (r: Step)
    ensures id in db.users ==> r == Step(UserAlreadyExists, db)
    ensures id !in db.users && id == "" ==> r == Step(MissingUserId, db)
    ensures id !in db.users && id != "" ==>
      && r.reply == UserCreated
      && r.db == db.(users := db.users[id := NewUser(id, profile)])
    ensures WellFormed(db) ==> WellFormed(r.db)
  {
    if id in db.users then Step(UserAlreadyExists, db)
    else
      var user := NewUser(id, profile);
      if user.id == "" then Step(MissingUserId, db)
      else
        PutUserKeepsWellFormed(db, user);
        Step(UserCreated, db.(users := db.users[id := user]))
  }

  /** `user.updated`: an unknown id is answered 404 with no change; a known
      user gets the derived email, name and avatar and keeps its id and
      enrollments, and every other record is left alone. */
  function OnUserUpdated(db: Db, id: string, profile: ProviderProfile): (r: Step)
    ensures id !in db.users ==> r == Step(UserNotFound, db)
    ensures id in db.users ==>
      && r.reply == UserUpdated
      && r.db.courses == db.courses && r.db.purchases == db.purchases && r.db.progress == db.progress
      && r.db.users.Keys == db.users.Keys
      && r.db.users[id] == ApplyProfile(db.users[id], profile)
      && r.db.users[id].enrolledCourses == db.users[id].enrolledCourses
      && (forall k :: k in db.users && k != id ==> r.db.users[k] == db.users[k])
    ensures WellFormed(db) ==> WellFormed(r.db)
  {
    if id !in db.users then Step(UserNotFound, db)
    else
      var user := ApplyProfile(db.users[id], profile);
      assert WellFormed(db) ==> user.id == id != "";
      PutUserKeepsWellFormed(db, user);
      Step(UserUpdated, db.(users := db.users[id := user]))
  }

  /** `user.deleted`: the user is gone afterwards, whether or not it was
      there; no other record changes and the reply is a success either way. */
  function OnUserDeleted(db: Db, id: string): (r: Step)
    ensures r.reply == UserDeleted
    ensures r.db.courses == db.courses && r.db.purchases == db.purchases && r.db.progress == db.progress
    ensures r.db.users.Keys == db.users.Keys - {id}
    ensures forall k :: k in r.db.users ==> r.db.users[k] == db.users[k]
    ensures WellFormed(db) ==> WellFormed(r.db)
  {
    Step(UserDeleted, db.(users := db.users - {id}))
  }

  /** The identity-provider webhook. A request that fails verification and
      an unrecognised event type change nothing; only users are ever
      touched; the store stays well formed. */
  function ClerkWebhooks(db: Db, verified: bool, ev: ClerkEvent): (r: Step)
    ensures !verified ==> r == Step(VerificationFailed, db)
    ensures verified && ev.UnhandledClerkEvent? ==> r == Step(UnhandledEvent, db)
    ensures verified && ev.UserCreatedEvent? ==> r == OnUserCreated(db, ev.id, ev.profile)
    ensures verified && ev.UserUpdatedEvent? ==> r == OnUserUpdated(db, ev.id, ev.profile)
    ensures verified && ev.UserDeletedEvent? ==> r == OnUserDeleted(db, ev.id)
    ensures r.db.courses == db.courses && r.db.purchases == db.purchases && r.db.progress == db.progress
    ensures WellFormed(db) ==> WellFormed(r.db)
  {
    if !verified then Step(VerificationFailed, db)
    else
      match ev
      case UserCreatedEvent(id, profile) => OnUserCreated(db, id, profile)
      case UserUpdatedEvent(id, profile) => OnUserUpdated(db, id, profile)
      case UserDeletedEvent(id) => OnUserDeleted(db, id)
      case UnhandledClerkEvent => Step(UnhandledEvent, db)
  }

  // --------------------------------------------------------------- stripeWebhooks

  /** The session lookup found purchase `pid`, and the purchase's user and
      course both exist. */
  predicate CanEnroll(db: Db, pid: string) {
    pid in db.purchases && db.purchases[pid].userId in db.users && db.purchases[pid].courseId in db.courses
  }

  /** handlePaymentSuccess. Without a session, without the purchase, or
      without its user or course, nothing changes. Otherwise the user's id is
      appended to the course's students, the course's id to the user's
      courses, and the purchase becomes completed; nothing is
      de-duplicated and the purchase's current status is not consulted. */
  function PaymentSucceeded(db: Db, sessionPurchaseId: Option<string>): (r: Db)
    ensures r.progress == db.progress
    ensures !(sessionPurchaseId.Some? && CanEnroll(db, sessionPurchaseId.value)) ==> r == db
    ensures sessionPurchaseId.Some? && CanEnroll(db, sessionPurchaseId.value) ==>
      var p := db.purchases[sessionPurchaseId.value];
      var u := db.users[p.userId];
      var c := db.courses[p.courseId];
      && r.courses == db.courses[p.courseId := c.(enrolledStudents := c.enrolledStudents + [u.id])]
      && r.users == db.users[p.userId := u.(enrolledCourses := u.enrolledCourses + [c.id])]
      && r.purchases == db.purchases[sessionPurchaseId.value := p.(status := Completed)]
    ensures WellFormed(db) ==> WellFormed(r)
  {
    match sessionPurchaseId
    case None => db
    case Some(pid) =>
      if pid !in db.purchases then db
      else
        var p := db.purchases[pid];
        if p.userId !in db.users || p.courseId !in db.courses then db
        else
          var u := db.users[p.userId];
          var c := db.courses[p.courseId];
          db.(courses := db.courses[p.courseId := c.(enrolledStudents := c.enrolledStudents + [u.id])],
              users := db.users[p.userId := u.(enrolledCourses := u.enrolledCourses + [c.id])],
              purchases := db.purchases[pid := p.(status := Completed)])
  }

  /** handlePaymentFailed: a found purchase becomes failed, whatever its
      status was; users, courses and progress never change. */
  function PaymentFailed(db: Db, sessionPurchaseId: Option<string>): (r: Db)
    ensures r.users == db.users && r.courses == db.courses && r.progress == db.progress
    ensures sessionPurchaseId.Some? && sessionPurchaseId.value in db.purchases ==>
      r.purchases == db.purchases[sessionPurchaseId.value :=
                                   db.purchases[sessionPurchaseId.value].(status := Failed)]
    ensures !(sessionPurchaseId.Some? && sessionPurchaseId.value in db.purchases) ==> r == db
    ensures WellFormed(db) ==> WellFormed(r)
  {
    match sessionPurchaseId
    case None => db
    case Some(pid) =>
      if pid !in db.purchases then db
      else db.(purchases := db.purchases[pid := db.purchases[pid].(status := Failed)])
  }

  /** The payment-provider webhook: a request that fails verification is
      refused with no change; every verified one is acknowledged, after the
      success or failure handler ran or an unknown event type was ignored. */
  function StripeWebhooks(db: Db, verified: bool, ev: StripeEvent, sessionPurchaseId: Option<string>): (r: Step)
    ensures !verified ==> r == Step(VerificationFailed, db)
    ensures verified ==> r.reply == Received
    ensures verified && ev.PaymentIntentSucceeded? ==> r.db == PaymentSucceeded(db, sessionPurchaseId)
    ensures verified && ev.PaymentIntentFailed? ==> r.db == PaymentFailed(db, sessionPurchaseId)
    ensures verified && ev.UnhandledStripeEvent? ==> r.db == db
    ensures WellFormed(db) ==> WellFormed(r.db)
  {
    if !verified then Step(VerificationFailed, db)
    else
      match ev
      case PaymentIntentSucceeded => Step(Received, PaymentSucceeded(db, sessionPurchaseId))
      case PaymentIntentFailed => Step(Received, PaymentFailed(db, sessionPurchaseId))
      case UnhandledStripeEvent => Step(Received, db)
  }

  /** A successful payment links user and course in both directions and
      completes the purchase. */
  lemma PaymentSucceededEnrolls(db: Db, pid: string)
    requires WellFormed(db) && CanEnroll(db, pid)
    ensures var r := PaymentSucceeded(db, Some(pid));
            var p := db.purchases[pid];
            && r.users[p.userId].enrolledCourses == db.users[p.userId].enrolledCourses + [p.courseId]
            && r.courses[p.courseId].enrolledStudents == db.courses[p.courseId].enrolledStudents + [p.userId]
            && r.purchases[pid].status == Completed
  {
  }

  /** No de-duplication and no terminal-status guard: delivering the same
      success event twice enrolls the user twice on both sides, and the
      purchase stays completed. */
  lemma RepeatedSuccessEnrollsTwice(db: Db, pid: string)
    requires WellFormed(db) && CanEnroll(db, pid)
    ensures var r := PaymentSucceeded(PaymentSucceeded(db, Some(pid)), Some(pid));
            var p := db.purchases[pid];
            && r.users[p.userId].enrolledCourses == db.users[p.userId].enrolledCourses + [p.courseId, p.courseId]
            && r.courses[p.courseId].enrolledStudents == db.courses[p.courseId].enrolledStudents + [p.userId, p.userId]
            && r.purchases[pid].status == Completed
  {
    var once := PaymentSucceeded(db, Some(pid));
    PaymentSucceededEnrolls(db, pid);
    assert CanEnroll(once, pid);
    PaymentSucceededEnrolls(once, pid);
    var p := db.purchases[pid];
    assert once.purchases[pid].userId == p.userId && once.purchases[pid].courseId == p.courseId;
  }

  /** A completed purchase can still become failed, and a failed one
      completed: the status transitions are not terminal. */
  lemma StatusIsNotTerminal(db: Db, pid: string)
    requires pid in db.purchases
    ensures db.purchases[pid].status == Completed ==>
      PaymentFailed(db, Some(pid)).purchases[pid].status == Failed
    ensures db.purchases[pid].status == Failed && CanEnroll(db, pid) ==>
      PaymentSucceeded(db, Some(pid)).purchases[pid].status == Completed
  {
  }

  // ------------------------------------------------------------------ getUserData

  /** getUserData with read repair. No authenticated id is refused with no
      change; a stored user is returned as it is; a missing one is created
      from the fetched provider profile (exactly one new User, on the
      authenticated id, with the derived fields and no enrollments), or the
      request fails with no change when the fetch failed or the profile has
      no address list (indexing the absent list throws into the same catch). */
  function GetUserData(db: Db, userId: string, fetched: Option<ProviderProfile>): (r: Step)
    ensures userId == "" ==> r == Step(Unauthorized, db)
    ensures userId != "" && userId in db.users ==> r == Step(UserData(db.users[userId]), db)
    ensures userId != "" && userId !in db.users && (fetched.None? || fetched.value.emailAddresses.None?) ==>
      r == Step(UserCreationFailed, db)
    ensures userId != "" && userId !in db.users && fetched.Some? && fetched.value.emailAddresses.Some? ==>
      && r.reply == UserData(NewUser(userId, fetched.value))
      && r.db == db.(users := db.users[userId := NewUser(userId, fetched.value)])
    ensures WellFormed(db) ==> WellFormed(r.db)
  {
    if userId == "" then Step(Unauthorized, db)
    else if userId in db.users then Step(UserData(db.users[userId]), db)
    else
      match fetched
      case None => Step(UserCreationFailed, db)
      case Some(profile) =>
        if profile.emailAddresses.None? then Step(UserCreationFailed, db)
        else
          var user := NewUser(userId, profile);
          PutUserKeepsWellFormed(db, user);
          Step(UserData(user), db.(users := db.users[userId := user]))
  }

  /** userEnrolledCourses, without the join to the course documents: the
      stored user's course ids, or not found. */
  function UserEnrolledCourses(db: Db, userId: string): (r: Reply)
    ensures userId in db.users <==> r.EnrolledCourses?
    ensures userId in db.users ==> r.courseIds == db.users[userId].enrolledCourses
    ensures userId !in db.users ==> r == UserNotFound
  {
    if userId in db.users then EnrolledCourses(db.users[userId].enrolledCourses) else UserNotFound
  }

  // ---------------------------------------------------------------- purchaseCourse

  /** The Purchase record purchaseCourse creates: pending, for the course's
      id and the caller's id, at the discounted amount. */
  function NewPurchase(id: string, course: Course, userId: string): (p: Purchase)
    ensures p.id == id && p.courseId == course.id && p.userId == userId && p.status == Pending
    ensures p.amount == PurchaseAmount(course.price, course.discount)
  {
    Purchase(id, course.id, userId, PurchaseAmount(course.price, course.discount), Pending)
  }

  /** The checkout request for a purchase: one item named after the course,
      charged `Math.floor(amount) * 100` minor units (a multiple of 100, not
      above the amount, less than one unit short of it), carrying the
      purchase id as metadata and leading back to the origin. */
  function CheckoutFor(course: Course, purchase: Purchase, origin: string): (req: CheckoutRequest)
    ensures req.purchaseId == purchase.id && req.quantity == 1 && req.productName == course.title
    ensures req.unitAmount == UnitAmount(purchase.amount)
    ensures req.unitAmount % 100 == 0
    ensures req.unitAmount as real <= purchase.amount * 100.0 < req.unitAmount as real + 100.0
    ensures req.successUrl == origin + "/loading/my-enrollments" && req.cancelUrl == origin + "/"
  {
    CheckoutRequest(origin + "/loading/my-enrollments", origin + "/", course.title,
                    UnitAmount(purchase.amount), 1, purchase.id)
  }

  /** purchaseCourse. A missing course stops it with no new Purchase (the
      course is dereferenced before the create); a missing user is answered
      "Data Not Found" but, with the course present, a Purchase is still
      created and a checkout requested. Exactly one Purchase is added, under
      the new id, and that id is what the checkout request carries. A
      purchase id that is empty or already in use makes the create fail with
      no change. */
  function PurchaseCourse(db: Db, userId: string, courseId: string, origin: string,
                          newId: string, sessionUrl: Option<string>): (r: PurchaseStep)
    ensures r.db.users == db.users && r.db.courses == db.courses && r.db.progress == db.progress
    ensures userId !in db.users ==> r.reply == DataNotFound
    ensures courseId !in db.courses ==> r == PurchaseStep(DataNotFound, db, None)
    ensures courseId in db.courses && (newId == "" || newId in db.purchases) ==>
      r.db == db && r.checkout.None? && r.reply == (if userId in db.users then PurchaseError else DataNotFound)
    ensures courseId in db.courses && newId != "" && newId !in db.purchases ==>
      var p := NewPurchase(newId, db.courses[courseId], userId);
      && r.db.purchases == db.purchases[newId := p]
      && r.checkout == Some(CheckoutFor(db.courses[courseId], p, origin))
      && (userId in db.users ==> r.reply == if sessionUrl.Some? then SessionUrl(sessionUrl.value) else PurchaseError)
    ensures WellFormed(db) && courseId in db.courses && newId != "" && newId !in db.purchases ==>
      r.db.purchases[newId].courseId == courseId
    ensures WellFormed(db) ==> WellFormed(r.db)
  {
    if courseId !in db.courses then PurchaseStep(DataNotFound, db, None)
    else
      var first := if userId !in db.users then Some(DataNotFound) else None;
      if newId == "" || newId in db.purchases then PurchaseStep(if first.Some? then first.value else PurchaseError, db, None)
      else
        var c := db.courses[courseId];
        var p := NewPurchase(newId, c, userId);
        var reply := if first.Some? then first.value
                     else if sessionUrl.Some? then SessionUrl(sessionUrl.value)
                     else PurchaseError;
        PurchaseStep(reply, db.(purchases := db.purchases[newId := p]), Some(CheckoutFor(c, p, origin)))
  }

  // ------------------------------------------------------- course progress handlers

  /** The progress record of the pair, if there is one. */
  function ProgressOf(db: Db, userId: string, courseId: string): Option<CourseProgress> {
    if (userId, courseId) in db.progress then Some(db.progress[(userId, courseId)]) else None
  }

  /** updateUserCourseProgress. A lecture already recorded is answered
      "Lecture Already Completed" with no change; otherwise only the pair's
      record changes (created, or extended at the end), no record loses a
      lecture, and the store stays well formed. */
  function UpdateUserCourseProgress(db: Db, userId: string, courseId: string, lectureId: string): (r: Step)
    ensures r.db.users == db.users && r.db.courses == db.courses && r.db.purchases == db.purchases
    ensures r.reply == LectureAlreadyCompleted || r.reply == ProgressUpdated
    ensures r.reply == LectureAlreadyCompleted <==>
      (userId, courseId) in db.progress && lectureId in db.progress[(userId, courseId)].lectureCompleted
    ensures r.reply == LectureAlreadyCompleted ==> r.db == db
    ensures r.db.progress.Keys == db.progress.Keys + {(userId, courseId)}
    ensures forall k :: k in db.progress && k != (userId, courseId) ==> r.db.progress[k] == db.progress[k]
    ensures r.db.progress[(userId, courseId)] ==
      RecordLecture(ProgressOf(db, userId, courseId), userId, courseId, lectureId).record
    ensures forall k :: k in db.progress ==>
      |db.progress[k].lectureCompleted| <= |r.db.progress[k].lectureCompleted| &&
      r.db.progress[k].lectureCompleted[..|db.progress[k].lectureCompleted|] == db.progress[k].lectureCompleted
    ensures WellFormed(db) ==> WellFormed(r.db)
  {
    var key := (userId, courseId);
    var step := RecordLecture(ProgressOf(db, userId, courseId), userId, courseId, lectureId);
    if step.alreadyCompleted then Step(LectureAlreadyCompleted, db)
    else Step(ProgressUpdated, db.(progress := db.progress[key := step.record]))
  }

  /** getUserCourseProgress: the pair's record or none; it never changes the store. */
  function GetUserCourseProgress(db: Db, userId: string, courseId: string): (r: Reply)
    ensures r.ProgressData?
    ensures r.record.Some? <==> (userId, courseId) in db.progress
    ensures r.record.Some? ==> r.record.value == db.progress[(userId, courseId)]
  {
    ProgressData(ProgressOf(db, userId, courseId))
  }

  // ----------------------------------------------------------------- addUserRating

  /** The validation of addUserRating (`!rating` is covered by `rating < 1`). */
  predicate InvalidRatingRequest(userId: string, courseId: string, rating: int) {
    courseId == "" || userId == "" || rating < 1 || rating > 5
  }

  /** The user exists and has the course among its enrolled courses. */
  predicate IsEnrolled(db: Db, userId: string, courseId: string) {
    userId in db.users && courseId in db.users[userId].enrolledCourses
  }

  /** addUserRating. Invalid details are answered first but do not stop the
      handler. A missing course, or a user that is missing or not enrolled in
      it, changes nothing. Otherwise only that course's ratings change: the
      user's entry gets the rating in place or one entry is appended. */
  function AddUserRating(db: Db, userId: string, courseId: string, rating: int): (r: Step)
    ensures r.db.users == db.users && r.db.purchases == db.purchases && r.db.progress == db.progress
    ensures InvalidRatingRequest(userId, courseId, rating) ==> r.reply == InvalidDetails
    ensures courseId !in db.courses || !IsEnrolled(db, userId, courseId) ==> r.db == db
    ensures !InvalidRatingRequest(userId, courseId, rating) && courseId !in db.courses ==> r.reply == CourseNotFound
    ensures !InvalidRatingRequest(userId, courseId, rating) && courseId in db.courses && !IsEnrolled(db, userId, courseId) ==>
      r.reply == NotPurchased
    ensures courseId in db.courses && IsEnrolled(db, userId, courseId) ==>
      var c := db.courses[courseId];
      && (!InvalidRatingRequest(userId, courseId, rating) ==> r.reply == RatingAdded)
      && r.db.courses == db.courses[courseId := c.(ratings := UpsertRating(c.ratings, userId, rating))]
    ensures WellFormed(db) ==> WellFormed(r.db)
  {
    var first := if InvalidRatingRequest(userId, courseId, rating) then Some(InvalidDetails) else None;
    if courseId !in db.courses then
      Step(if first.Some? then first.value else CourseNotFound, db)
    else if !IsEnrolled(db, userId, courseId) then
      Step(if first.Some? then first.value else NotPurchased, db)
    else
      var c := db.courses[courseId];
      var rated := c.(ratings := UpsertRating(c.ratings, userId, rating));
      Step(if first.Some? then first.value else RatingAdded, db.(courses := db.courses[courseId := rated]))
  }

  /** A rating keeps every course at most one rating per user, and rating
      again only replaces the earlier value. */
  lemma AddUserRatingKeepsOnePerUser(db: Db, userId: string, courseId: string, rating: int)
    requires forall k :: k in db.courses ==> OnePerUser(db.courses[k].ratings)
    ensures var r := AddUserRating(db, userId, courseId, rating);
            forall k :: k in r.db.courses ==> OnePerUser(r.db.courses[k].ratings)
  {
    if courseId in db.courses {
      UpsertKeepsOnePerUser(db.courses[courseId].ratings, userId, rating);
    }
  }

  /** Rating 3 and then 5 leaves one entry for the user, holding 5. */
  lemma RateThenRerate(db: Db, userId: string, courseId: string)
    requires courseId in db.courses && IsEnrolled(db, userId, courseId)
    requires OnePerUser(db.courses[courseId].ratings)
    ensures var r := AddUserRating(AddUserRating(db, userId, courseId, 3).db, userId, courseId, 5);
            var rs := r.db.courses[courseId].ratings;
            && r.db.courses[courseId].ratings == AddUserRating(db, userId, courseId, 5).db.courses[courseId].ratings
            && OnePerUser(rs)
            && FindRating(rs, userId) >= 0 && rs[FindRating(rs, userId)].rating == 5
  {
    var c := db.courses[courseId];
    UpsertTwice(c.ratings, userId, 3, 5);
    UpsertKeepsOnePerUser(c.ratings, userId, 5);
  }

  /** The 1 to 5 check does not return: an enrolled user's out-of-range rating
      is answered "Invalid details" and stored all the same. */
  lemma OutOfRangeRatingIsStored(db: Db, userId: string, courseId: string)
    requires userId != "" && courseId in db.courses && IsEnrolled(db, userId, courseId)
    ensures var r := AddUserRating(db, userId, courseId, 6);
            var rs := r.db.courses[courseId].ratings;
            && r.reply == InvalidDetails
            && FindRating(rs, userId) >= 0 && rs[FindRating(rs, userId)].rating == 6
  {
  }

  /** A request without a course id finds no course in a well-formed store:
      it is answered "Invalid details" and nothing is stored. */
  lemma RatingWithoutCourseIdChangesNothing(db: Db, userId: string, rating: int)
    requires WellFormed(db)
    ensures AddUserRating(db, userId, "", rating) == Step(InvalidDetails, db)
  {
  }

  // --------------------------------------------------------- end-to-end scenarios

  /** A user buys a course priced 100 with a 20 percent discount: the
      Purchase is created pending at 80.00, 8000 minor units are charged, and
      the success event then enrolls the user and completes the purchase. */
  lemma PurchaseThenPaymentSucceeds(db: Db, origin: string, url: string)
    requires WellFormed(db)
    requires "u1" in db.users && db.users["u1"].enrolledCourses == []
    requires "c1" in db.courses && db.courses["c1"].price == 100.0 && db.courses["c1"].discount == 20.0
    requires db.courses["c1"].enrolledStudents == []
    requires "p1" !in db.purchases
    ensures var s1 := PurchaseCourse(db, "u1", "c1", origin, "p1", Some(url));
            && s1.reply == SessionUrl(url)
            && s1.db.purchases["p1"].amount == 80.0
            && s1.db.purchases["p1"].status == Pending
            && s1.checkout.Some? && s1.checkout.value.unitAmount == 8000
            && var s2 := StripeWebhooks(s1.db, true, PaymentIntentSucceeded, Some("p1"));
               && s2.reply == Received
               && s2.db.users["u1"].enrolledCourses == ["c1"]
               && s2.db.courses["c1"].enrolledStudents == ["u1"]
               && s2.db.purchases["p1"].status == Completed
  {
    DiscountedPriceExample();
    var s1 := PurchaseCourse(db, "u1", "c1", origin, "p1", Some(url));
    assert CanEnroll(s1.db, "p1");
    PaymentSucceededEnrolls(s1.db, "p1");
  }

  /** A failed payment on a fresh pending purchase marks it failed and
      enrolls nobody. */
  lemma PurchaseThenPaymentFails(db: Db, userId: string, courseId: string, origin: string, url: string, newId: string)
    requires WellFormed(db) && courseId in db.courses && newId != "" && newId !in db.purchases
    ensures var s1 := PurchaseCourse(db, userId, courseId, origin, newId, Some(url));
            var s2 := StripeWebhooks(s1.db, true, PaymentIntentFailed, Some(newId));
            && s1.db.purchases[newId].status == Pending
            && s2.db.purchases[newId].status == Failed
            && s2.db.users == db.users && s2.db.courses == db.courses
  {
  }
}
