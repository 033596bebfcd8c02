/** The four record kinds of the learning-management server and a value
    snapshot of the whole record store. Identifiers are strings; an
    identifier the request does not carry at all (JavaScript `undefined`)
    is written as the empty string. */
module Records {

  datatype Option<+T> = None | Some(value: T)

  /** Purchase.status. A freshly created Purchase is Pending. */
  datatype PurchaseStatus = Pending | Completed | Failed

  /** A User record; `id` is the identity provider's user id. */
  datatype User = User(
    id: string,
    email: string,
    name: string,
    imageUrl: string,
    enrolledCourses: seq<string>)

  /** One entry of Course.courseRatings. */
  datatype Rating = Rating(userId: string, rating: int)

  /** A Course record; prices are currency units, the discount a percentage. */
  datatype Course = Course(
    id: string,
    title: string,
    price: real,
    discount: real,
    enrolledStudents: seq<string>,
    ratings: seq<Rating>)

  datatype Purchase = Purchase(
    id: string,
    courseId: string,
    userId: string,
    amount: real,
    status: PurchaseStatus)

  /** Per (user, course) lecture-completion record. */
  datatype CourseProgress = CourseProgress(
    userId: string,
    courseId: string,
    completed: bool,
    lectureCompleted: seq<string>)

  /** The record store: every collection keyed by its primary key; progress
      is keyed by the (userId, courseId) pair it is looked up by. */
  datatype Db = Db(
    users: map<string, User>,
    courses: map<string, Course>,
    purchases: map<string, Purchase>,
    progress: map<(string, string), CourseProgress>)

  /** Every record sits under its own identifier, and no user, course or
      purchase has the empty identifier: the store never assigns one, so a
      lookup of a missing id (written "") misses in every collection. */
  predicate WellFormed(db: Db) {
    && (forall k :: k in db.users ==> k != "" && db.users[k].id == k)
    && (forall k :: k in db.courses ==> k != "" && db.courses[k].id == k)
    && (forall k :: k in db.purchases ==> k != "" && db.purchases[k].id == k)
    && (forall k :: k in db.progress ==>
          db.progress[k].userId == k.0 && db.progress[k].courseId == k.1)
  }

  /** Storing a user under its own non-empty id keeps the store well formed. */
  lemma PutUserKeepsWellFormed(db: Db, u: User)
    ensures WellFormed(db) && u.id != "" ==> WellFormed(db.(users := db.users[u.id := u]))
  {
  }
}
