/** The rating upsert of addUserRating: find the entry for the user with
    `findIndex`, overwrite its rating in place, or append a new entry. */
module Ratings {
  import opened Records

  /** `ratings.findIndex(r => r.userId === userId)`: the first index holding
      an entry for `userId`, or -1 when there is none. */
  function FindRating(ratings: seq<Rating>, userId: string): (i: int)
    ensures -1 <= i < |ratings|
    ensures i >= 0 ==> ratings[i].userId == userId
    ensures i >= 0 ==> forall j :: 0 <= j < i ==> ratings[j].userId != userId
    ensures i == -1 ==> forall j :: 0 <= j < |ratings| ==> ratings[j].userId != userId
  {
    if |ratings| == 0 then -1
    else if ratings[0].userId == userId then 0
    else
      var k := FindRating(ratings[1..], userId);
      if k == -1 then -1 else k + 1
  }

  /** Replace the rating of the user's entry, or append one entry. Entries of
      other users are untouched, and afterwards the first entry for the user
      carries the new rating. */
  function UpsertRating(ratings: seq<Rating>, userId: string, rating: int): (r: seq<Rating>)
    ensures FindRating(ratings, userId) >= 0 ==> |r| == |ratings|
    ensures FindRating(ratings, userId) == -1 ==> r == ratings + [Rating(userId, rating)]
    ensures forall j :: 0 <= j < |ratings| && j != FindRating(ratings, userId) ==> r[j] == ratings[j]
    ensures FindRating(r, userId) >= 0 && r[FindRating(r, userId)] == Rating(userId, rating)
    ensures FindRating(r, userId) == (if FindRating(ratings, userId) >= 0 then FindRating(ratings, userId) else |ratings|)
  {
    var i := FindRating(ratings, userId);
    if i > -1 then
      var r := ratings[i := ratings[i].(rating := rating)];
      FindRatingStable(ratings, r, userId, i);
      r
    else
      var r := ratings + [Rating(userId, rating)];
      FindRatingStable(ratings, r, userId, |ratings|);
      r
  }

  /** Two rating lists that agree on every index below `i` and hold an entry
      for `userId` at `i` give the same search result `i`. */
  lemma FindRatingStable(a: seq<Rating>, b: seq<Rating>, userId: string, i: int)
    requires 0 <= i < |b| && i <= |a| && b[i].userId == userId
    requires forall j :: 0 <= j < i ==> a[j] == b[j] && a[j].userId != userId
    ensures FindRating(b, userId) == i
  {
  }

  /** The course holds at most one rating per user. */
  predicate OnePerUser(ratings: seq<Rating>) {
    forall i, j :: 0 <= i < j < |ratings| ==> ratings[i].userId != ratings[j].userId
  }

  /** A list with at most one rating per user keeps that property. */
  lemma UpsertKeepsOnePerUser(ratings: seq<Rating>, userId: string, rating: int)
    requires OnePerUser(ratings)
    ensures OnePerUser(UpsertRating(ratings, userId, rating))
  {
    var r := UpsertRating(ratings, userId, rating);
    var k := FindRating(ratings, userId);
    forall i, j | 0 <= i < j < |r| ensures r[i].userId != r[j].userId {
      assert r[i].userId == ratings[i].userId || i == k;
      if j < |ratings| {
        assert r[j].userId == ratings[j].userId;
      } else {
        assert k == -1 && r[j].userId == userId;
      }
    }
  }

  /** Rating the same course twice leaves the entries as if only the second
      rating had been given: one entry for the user, holding the later value. */
  lemma UpsertTwice(ratings: seq<Rating>, userId: string, first: int, second: int)
    ensures UpsertRating(UpsertRating(ratings, userId, first), userId, second)
         == UpsertRating(ratings, userId, second)
  {
    var k := FindRating(ratings, userId);
    var once := UpsertRating(ratings, userId, first);
    var twice := UpsertRating(once, userId, second);
    var direct := UpsertRating(ratings, userId, second);
    if k >= 0 {
      assert |twice| == |direct|;
      forall j | 0 <= j < |twice| ensures twice[j] == direct[j] {
        if j == k {
          assert twice[j] == Rating(userId, second);
        }
      }
    } else {
      assert FindRating(once, userId) == |ratings|;
      assert |twice| == |direct| == |ratings| + 1;
      forall j | 0 <= j < |twice| ensures twice[j] == direct[j] {
        if j == |ratings| {
          assert twice[j] == Rating(userId, second);
        }
      }
    }
  }
}
