/** The record store as the handlers use it: four collections updated in
    place. Every handler is a method that performs the source's lookups,
    early returns and updates step by step; its postcondition ties the reply
    and the new contents to the matching function of module Handlers, whose
    properties are proved there. */
module Store {
  import opened Records
  import opened Profile
  import opened Ratings
  import opened Progress
  import opened Handlers

  class RecordStore {
    var users: map<string, User>
    var courses: map<string, Course>
    var purchases: map<string, Purchase>
    var progress: map<(string, string), CourseProgress>

    /** The current contents as a value. */
    function Snapshot(): Db
      reads this
    {
      Db(users, courses, purchases, progress)
    }

    predicate Valid()
      reads this
    {
      WellFormed(Snapshot())
    }

    constructor (db: Db)
      requires WellFormed(db)
      ensures Valid() && Snapshot() == db
    {
      users, courses, purchases, progress := db.users, db.courses, db.purchases, db.progress;
    }

    /** clerkWebhooks */
    method ClerkWebhooks(verified: bool, ev: ClerkEvent) returns (reply: Reply)
      requires Valid()
      modifies this
      ensures Valid()
      ensures Step(reply, Snapshot()) == Handlers.ClerkWebhooks(old(Snapshot()), verified, ev)
    {
      if !verified {
        return VerificationFailed;
      }
      match ev {
        case UserCreatedEvent(id, profile) =>
          if id in users {
            return UserAlreadyExists;
          }
          var user := NewUser(id, profile);
          if user.id == "" {
            return MissingUserId;
          }
          ghost var next := Handlers.ClerkWebhooks(Snapshot(), verified, ev);
          assert WellFormed(next.db);
          users := users[id := user];
          reply := UserCreated;
          assert Snapshot() == next.db;
        case UserUpdatedEvent(id, profile) =>
          if id !in users {
            return UserNotFound;
          }
          ghost var next := Handlers.ClerkWebhooks(Snapshot(), verified, ev);
          assert WellFormed(next.db);
          users := users[id := ApplyProfile(users[id], profile)];
          reply := UserUpdated;
          assert Snapshot() == next.db;
        case UserDeletedEvent(id) =>
          users := users - {id};
          reply := UserDeleted;
        case UnhandledClerkEvent =>
          reply := UnhandledEvent;
      }
    }

    /** handlePaymentSuccess */
    method HandlePaymentSuccess(sessionPurchaseId: Option<string>)
      requires Valid()
      modifies this
      ensures Valid()
      ensures Snapshot() == PaymentSucceeded(old(Snapshot()), sessionPurchaseId)
    {
      if sessionPurchaseId.None? {
        return;
      }
      var purchaseId := sessionPurchaseId.value;
      if purchaseId !in purchases {
        return;
      }
      var purchase := purchases[purchaseId];
      if purchase.userId !in users || purchase.courseId !in courses {
        return;
      }
      var user := users[purchase.userId];
      var course := courses[purchase.courseId];
      courses := courses[purchase.courseId := course.(enrolledStudents := course.enrolledStudents + [user.id])];
      users := users[purchase.userId := user.(enrolledCourses := user.enrolledCourses + [course.id])];
      purchases := purchases[purchaseId := purchase.(status := Completed)];
    }

    /** handlePaymentFailed */
    method HandlePaymentFailed(sessionPurchaseId: Option<string>)
      requires Valid()
      modifies this
      ensures Valid()
      ensures Snapshot() == PaymentFailed(old(Snapshot()), sessionPurchaseId)
    {
      if sessionPurchaseId.None? {
        return;
      }
      var purchaseId := sessionPurchaseId.value;
      if purchaseId !in purchases {
        return;
      }
      purchases := purchases[purchaseId := purchases[purchaseId].(status := Failed)];
    }

    /** stripeWebhooks */
    method StripeWebhooks(verified: bool, ev: StripeEvent, sessionPurchaseId: Option<string>)
      returns (reply: Reply)
      requires Valid()
      modifies this
      ensures Valid()
      ensures Step(reply, Snapshot()) == Handlers.StripeWebhooks(old(Snapshot()), verified, ev, sessionPurchaseId)
    {
      if !verified {
        return VerificationFailed;
      }
      match ev {
        case PaymentIntentSucceeded => HandlePaymentSuccess(sessionPurchaseId);
        case PaymentIntentFailed => HandlePaymentFailed(sessionPurchaseId);
        case UnhandledStripeEvent =>
      }
      reply := Received;
    }

    /** getUserData */
    method GetUserData(userId: string, fetched: Option<ProviderProfile>) returns (reply: Reply)
      requires Valid()
      modifies this
      ensures Valid()
      ensures Step(reply, Snapshot()) == Handlers.GetUserData(old(Snapshot()), userId, fetched)
    {
      if userId == "" {
        return Unauthorized;
      }
      if userId !in users {
        if fetched.None? || fetched.value.emailAddresses.None? {
          return UserCreationFailed;
        }
        ghost var next := Handlers.GetUserData(Snapshot(), userId, fetched);
        assert WellFormed(next.db);
        users := users[userId := NewUser(userId, fetched.value)];
        assert Snapshot() == next.db;
      }
      reply := UserData(users[userId]);
    }

    /** userEnrolledCourses: reads only. */
    method UserEnrolledCourses(userId: string) returns (reply: Reply)
      ensures reply == Handlers.UserEnrolledCourses(Snapshot(), userId)
    {
      if userId !in users {
        return UserNotFound;
      }
      reply := EnrolledCourses(users[userId].enrolledCourses);
    }

    /** purchaseCourse; `newId` is the id the store assigns to the new
        Purchase and `sessionUrl` what the payment provider returns. */
    method PurchaseCourse(userId: string, courseId: string, origin: string, newId: string,
                          sessionUrl: Option<string>)
      returns (reply: Reply, checkout: Option<CheckoutRequest>)
      requires Valid()
      modifies this
      ensures Valid()
      ensures PurchaseStep(reply, Snapshot(), checkout)
           == Handlers.PurchaseCourse(old(Snapshot()), userId, courseId, origin, newId, sessionUrl)
    {
      var first: Option<Reply> := None;
      if userId !in users || courseId !in courses {
        first := Some(DataNotFound);
      }
      checkout := None;
      if courseId !in courses {
        return first.value, None;
      }
      var course := courses[courseId];
      if newId == "" || newId in purchases {
        reply := if first.Some? then first.value else PurchaseError;
        return;
      }
      var purchase := NewPurchase(newId, course, userId);
      purchases := purchases[newId := purchase];
      checkout := Some(CheckoutFor(course, purchase, origin));
      reply := if first.Some? then first.value
               else if sessionUrl.Some? then SessionUrl(sessionUrl.value)
               else PurchaseError;
    }

    /** updateUserCourseProgress */
    method UpdateUserCourseProgress(userId: string, courseId: string, lectureId: string)
      returns (reply: Reply)
      requires Valid()
      modifies this
      ensures Valid()
      ensures Step(reply, Snapshot())
           == Handlers.UpdateUserCourseProgress(old(Snapshot()), userId, courseId, lectureId)
    {
      var key := (userId, courseId);
      if key in progress {
        var record := progress[key];
        if lectureId in record.lectureCompleted {
          return LectureAlreadyCompleted;
        }
        progress := progress[key := record.(lectureCompleted := record.lectureCompleted + [lectureId],
                                            completed := true)];
      } else {
        progress := progress[key := CourseProgress(userId, courseId, false, [lectureId])];
      }
      reply := ProgressUpdated;
    }

    /** getUserCourseProgress: reads only. */
    method GetUserCourseProgress(userId: string, courseId: string) returns (reply: Reply)
      ensures reply == Handlers.GetUserCourseProgress(Snapshot(), userId, courseId)
    {
      var key := (userId, courseId);
      reply := ProgressData(if key in progress then Some(progress[key]) else None);
    }

    /** addUserRating */
    method AddUserRating(userId: string, courseId: string, rating: int) returns (reply: Reply)
      requires Valid()
      modifies this
      ensures Valid()
      ensures Step(reply, Snapshot()) == Handlers.AddUserRating(old(Snapshot()), userId, courseId, rating)
    {
      var first: Option<Reply> := None;
      if courseId == "" || userId == "" || rating < 1 || rating > 5 {
        first := Some(InvalidDetails);
      }
      if courseId !in courses {
        return if first.Some? then first.value else CourseNotFound;
      }
      var course := courses[courseId];
      if userId !in users || courseId !in users[userId].enrolledCourses {
        return if first.Some? then first.value else NotPurchased;
      }
      var i := FindRating(course.ratings, userId);
      if i > -1 {
        course := course.(ratings := course.ratings[i := course.ratings[i].(rating := rating)]);
      } else {
        course := course.(ratings := course.ratings + [Rating(userId, rating)]);
      }
      courses := courses[courseId := course];
      reply := if first.Some? then first.value else RatingAdded;
    }
  }

  /** A client of the store: one purchase whose success event is delivered
      twice ends with the enrollment recorded twice on both sides. */
  method DuplicateDeliveryScenario() {
    var user := User("u1", "a@example.com", "Ada", "", []);
    var course := Course("c1", "Dafny", 100.0, 20.0, [], []);
    var store := new RecordStore(Db(map["u1" := user], map["c1" := course], map[], map[]));
    var reply, checkout := store.PurchaseCourse("u1", "c1", "https://lms.example", "p1", Some("https://pay.example/s"));
    assert reply == SessionUrl("https://pay.example/s");
    assert CanEnroll(store.Snapshot(), "p1");
    reply := store.StripeWebhooks(true, PaymentIntentSucceeded, Some("p1"));
    assert store.users["u1"].enrolledCourses == ["c1"];
    assert CanEnroll(store.Snapshot(), "p1");
    reply := store.StripeWebhooks(true, PaymentIntentSucceeded, Some("p1"));
    assert store.users["u1"].enrolledCourses == ["c1", "c1"];
    assert store.courses["c1"].enrolledStudents == ["u1", "u1"];
    assert store.purchases["p1"].status == Completed;
  }
}
