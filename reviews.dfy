/** `routes/reviews.js`: a signed-in user's reviews of an article, with a rating from 1 to 5,
    at most one per user and article, editable by the author for ten minutes and deletable by
    the author at any time. */
module Reviews {
  import opened Tables
  import opened Database

  /** The rating check of the create and edit routes. */
  predicate ValidRating(rating: int) {
    1 <= rating <= 5
  }

  /** How long, in milliseconds, a review stays editable: ten minutes. */
  const EditWindow: int := 10 * 60 * 1000

  /** The edit route refuses once more than `EditWindow` has passed since the review was
      written; at exactly ten minutes the edit still goes through. */
  predicate Editable(review: ReviewRow, now: int) {
    now - review.reviewDate <= EditWindow
  }

  /** `select ... from reviews where reviewId = id limit 1` */
  function ReviewIndex(reviews: seq<ReviewRow>, id: int): (r: Option<nat>)
    ensures r.Some? ==> r.value < |reviews| && reviews[r.value].reviewId == id
    ensures r.None? <==> forall j :: 0 <= j < |reviews| ==> reviews[j].reviewId != id
  {
    ReviewFrom(reviews, id, 0)
  }

  function ReviewFrom(reviews: seq<ReviewRow>, id: int, k: nat): (r: Option<nat>)
    requires k <= |reviews|
    ensures r.Some? ==> k <= r.value < |reviews| && reviews[r.value].reviewId == id
    ensures r.None? <==> forall j :: k <= j < |reviews| ==> reviews[j].reviewId != id
    decreases |reviews| - k
  {
    if k == |reviews| then None
    else if reviews[k].reviewId == id then Some(k)
    else ReviewFrom(reviews, id, k + 1)
  }

  predicate SameAuthorAndArticle(r: ReviewRow, userId: int, a: string) {
    r.userId == userId && r.articleNumber == a
  }

  /** `select ... from reviews where articleNumber = a and userId = u limit 1` */
  function UserReview(reviews: seq<ReviewRow>, userId: int, a: string): (r: Option<nat>)
    ensures r.Some? ==> r.value < |reviews| && SameAuthorAndArticle(reviews[r.value], userId, a)
    ensures r.None? <==> forall j :: 0 <= j < |reviews| ==> !SameAuthorAndArticle(reviews[j], userId, a)
  {
    UserReviewFrom(reviews, userId, a, 0)
  }

  function UserReviewFrom(reviews: seq<ReviewRow>, userId: int, a: string, k: nat): (r: Option<nat>)
    requires k <= |reviews|
    ensures r.Some? ==> k <= r.value < |reviews| && SameAuthorAndArticle(reviews[r.value], userId, a)
    ensures r.None? <==> forall j :: k <= j < |reviews| ==> !SameAuthorAndArticle(reviews[j], userId, a)
    decreases |reviews| - k
  {
    if k == |reviews| then None
    else if SameAuthorAndArticle(reviews[k], userId, a) then Some(k)
    else UserReviewFrom(reviews, userId, a, k + 1)
  }

  // ---- POST /reviews ----

  /** The checks before the lookup: 400 without an article number, a rating or a comment, and
      400 for a rating outside 1..5. */
  function CreateChecks(articleNumber: Option<string>, rating: Option<int>, comment: Option<string>): (r: Option<Failure>)
    ensures r.None? <==> Present(articleNumber) && rating.Some? && comment.Some? && ValidRating(rating.value)
    ensures r.Some? ==> r == Some(BadRequest)
  {
    if !Present(articleNumber) || rating.None? || comment.None? then Some(BadRequest)
    else if !ValidRating(rating.value) then Some(BadRequest)
    else None
  }

  /** The create route as written: the duplicate lookup calls `and`, which the file does not
      import, so the handler throws there and its catch answers 500 for every request that
      passes the field and rating checks. No row is inserted. */
  function CreateAsWritten(articleNumber: Option<string>, rating: Option<int>, comment: Option<string>): Result<ReviewRow> {
    match CreateChecks(articleNumber, rating, comment)
    case Some(f) => Fail(f)
    case None => Fail(ServerError)
  }

  /** As written, no review can be created at all: a fully valid first review is refused. */
  lemma CreateAsWrittenRefusesAll(articleNumber: Option<string>, rating: Option<int>, comment: Option<string>)
    ensures CreateAsWritten(articleNumber, rating, comment).Fail?
    ensures CreateChecks(articleNumber, rating, comment).None? ==>
      CreateAsWritten(articleNumber, rating, comment) == Fail(ServerError)
  {
  }

  /** The create route as intended: after the checks, 400 when the user already reviewed the
      article, else the new row with the next id and the current time. */
  function NewReview(reviews: seq<ReviewRow>, nextId: int, userId: int, articleNumber: Option<string>,
                     rating: Option<int>, comment: Option<string>, now: int): Result<ReviewRow> {
    match CreateChecks(articleNumber, rating, comment)
    case Some(f) => Fail(f)
    case None =>
      if UserReview(reviews, userId, articleNumber.value).Some? then Fail(BadRequest)
      else Ok(ReviewRow(nextId, userId, articleNumber.value, rating.value, comment.value, now))
  }

  /** The intended create admits exactly the valid first review of the user for the article,
      stores it with a valid rating, and keeps one review per user and article. */
  lemma NewReviewShape(reviews: seq<ReviewRow>, nextId: int, userId: int, articleNumber: Option<string>,
                       rating: Option<int>, comment: Option<string>, now: int)
    requires OneReviewEach(reviews)
    ensures var r := NewReview(reviews, nextId, userId, articleNumber, rating, comment, now);
      && (r.Ok? <==>
            && CreateChecks(articleNumber, rating, comment).None?
            && forall j :: 0 <= j < |reviews| ==> !SameAuthorAndArticle(reviews[j], userId, articleNumber.value))
      && (r.Fail? ==> r == Fail(BadRequest))
      && (r.Ok? ==> ValidRating(r.value.rating) && r.value.userId == userId && r.value.reviewDate == now
                    && OneReviewEach(reviews + [r.value]))
  {
    var r := NewReview(reviews, nextId, userId, articleNumber, rating, comment, now);
    if r.Ok? {
      var rs := reviews + [r.value];
      forall i, j | 0 <= i < j < |rs|
        ensures !(rs[i].userId == rs[j].userId && rs[i].articleNumber == rs[j].articleNumber)
      {
        if j == |reviews| {
          assert !SameAuthorAndArticle(reviews[i], userId, articleNumber.value);
        }
      }
    }
  }

  /** A second create for the same user and article is refused, whatever its rating and
      comment. */
  lemma SecondReviewRefused(reviews: seq<ReviewRow>, nextId: int, userId: int, a: string,
                            rating: Option<int>, comment: Option<string>, now: int,
                            rating': Option<int>, comment': Option<string>, now': int)
    requires NewReview(reviews, nextId, userId, Some(a), rating, comment, now).Ok?
    ensures var rs := reviews + [NewReview(reviews, nextId, userId, Some(a), rating, comment, now).value];
      NewReview(rs, nextId + 1, userId, Some(a), rating', comment', now').Fail?
  {
    var rs := reviews + [NewReview(reviews, nextId, userId, Some(a), rating, comment, now).value];
    assert SameAuthorAndArticle(rs[|reviews|], userId, a);
  }

  /** `POST /reviews`, as intended. */
  method CreateReview(db: Db, userId: int, articleNumber: Option<string>, rating: Option<int>,
                      comment: Option<string>, now: int) returns (r: Result<ReviewRow>)
    requires db.Valid()
    modifies db`reviews, db`nextReviewId
    ensures db.Valid()
    ensures r == NewReview(old(db.reviews), old(db.nextReviewId), userId, articleNumber, rating, comment, now)
    ensures r.Fail? ==> unchanged(db)
    ensures r.Ok? ==> db.reviews == old(db.reviews) + [r.value] && db.nextReviewId == old(db.nextReviewId) + 1
  {
    r := NewReview(db.reviews, db.nextReviewId, userId, articleNumber, rating, comment, now);
    if r.Ok? {
      NewReviewShape(db.reviews, db.nextReviewId, userId, articleNumber, rating, comment, now);
      db.reviews := db.reviews + [r.value];
      db.nextReviewId := db.nextReviewId + 1;
    }
  }

  // ---- PUT /reviews/:reviewId ----

  /** `update reviews set rating = v, comment = c where reviewId = id` */
  function SetReview(reviews: seq<ReviewRow>, id: int, rating: int, comment: string): (r: seq<ReviewRow>)
    ensures |r| == |reviews|
    ensures forall i :: 0 <= i < |reviews| ==>
      r[i] == if reviews[i].reviewId == id then reviews[i].(rating := rating, comment := comment) else reviews[i]
  {
    seq(|reviews|, i requires 0 <= i < |reviews| =>
      if reviews[i].reviewId == id then reviews[i].(rating := rating, comment := comment) else reviews[i])
  }

  /** The outcome of the edit route: 400 without a rating or a comment or for a rating outside
      1..5, 404 without the review, 403 for another user's review, 403 once the edit window
      has passed; else the review with its new rating and comment. */
  function EditOutcome(reviews: seq<ReviewRow>, caller: int, id: int, rating: Option<int>,
                       comment: Option<string>, now: int): Result<ReviewRow> {
    if rating.None? || comment.None? || !ValidRating(rating.value) then Fail(BadRequest)
    else match ReviewIndex(reviews, id)
      case None => Fail(NotFound)
      case Some(k) =>
        if reviews[k].userId != caller then Fail(Forbidden)
        else if !Editable(reviews[k], now) then Fail(Forbidden)
        else Ok(reviews[k].(rating := rating.value, comment := comment.value))
  }

  /** An accepted edit is the author's, within ten minutes of writing, and leaves everything
      but the rating and comment of that review as it was. */
  lemma EditShape(reviews: seq<ReviewRow>, caller: int, id: int, rating: Option<int>, comment: Option<string>, now: int)
    requires OneReviewEach(reviews)
    ensures var r := EditOutcome(reviews, caller, id, rating, comment, now);
      r.Ok? ==>
        && rating.Some? && comment.Some? && ValidRating(rating.value)
        && ReviewIndex(reviews, id).Some?
        && var old_ := reviews[ReviewIndex(reviews, id).value];
        && old_.userId == caller && now - old_.reviewDate <= 600000
        && r.value == ReviewRow(id, caller, old_.articleNumber, rating.value, comment.value, old_.reviewDate)
        && OneReviewEach(SetReview(reviews, id, rating.value, comment.value))
  {
  }

  /** `PUT /reviews/:reviewId` */
  method EditReview(db: Db, caller: int, id: int, rating: Option<int>, comment: Option<string>, now: int)
    returns (r: Result<ReviewRow>)
    requires db.Valid()
    modifies db`reviews
    ensures db.Valid()
    ensures r == EditOutcome(old(db.reviews), caller, id, rating, comment, now)
    ensures r.Fail? ==> unchanged(db)
    ensures r.Ok? ==> db.reviews == SetReview(old(db.reviews), id, rating.value, comment.value)
  {
    if rating.None? || comment.None? || !ValidRating(rating.value) {
      return Fail(BadRequest);
    }
    var k := ReviewIndex(db.reviews, id);
    if k.None? {
      return Fail(NotFound);
    }
    var review := db.reviews[k.value];
    if review.userId != caller {
      return Fail(Forbidden);
    }
    if now - review.reviewDate > EditWindow {
      return Fail(Forbidden);
    }
    EditShape(db.reviews, caller, id, rating, comment, now);
    db.reviews := SetReview(db.reviews, id, rating.value, comment.value);
    r := Ok(review.(rating := rating.value, comment := comment.value));
  }

  // ---- DELETE /reviews/:reviewId ----

  /** `delete from reviews where reviewId = id` */
  function DropReview(reviews: seq<ReviewRow>, id: int): (r: seq<ReviewRow>)
    ensures forall x :: x in r <==> x in reviews && x.reviewId != id
    ensures |r| <= |reviews|
  {
    if reviews == [] then []
    else (if reviews[0].reviewId != id then [reviews[0]] else []) + DropReview(reviews[1..], id)
  }

  lemma OneReviewCons(x: ReviewRow, tail: seq<ReviewRow>)
    requires OneReviewEach(tail)
    requires forall y :: y in tail ==> !SameAuthorAndArticle(y, x.userId, x.articleNumber)
    ensures OneReviewEach([x] + tail)
  {
    var r := [x] + tail;
    forall i, j | 0 <= i < j < |r| ensures !(r[i].userId == r[j].userId && r[i].articleNumber == r[j].articleNumber) {
      assert r[j] == tail[j - 1] && tail[j - 1] in tail;
      if i > 0 {
        assert r[i] == tail[i - 1];
      }
    }
  }

  /** Deleting keeps one review per user and article. */
  lemma {:induction false} DropReviewKeeps(reviews: seq<ReviewRow>, id: int)
    requires OneReviewEach(reviews)
    ensures OneReviewEach(DropReview(reviews, id))
  {
    if reviews != [] {
      var rest := reviews[1..];
      assert OneReviewEach(rest) by {
        forall i, j | 0 <= i < j < |rest|
          ensures !(rest[i].userId == rest[j].userId && rest[i].articleNumber == rest[j].articleNumber)
        {
          assert rest[i] == reviews[i + 1] && rest[j] == reviews[j + 1];
        }
      }
      DropReviewKeeps(rest, id);
      var tail := DropReview(rest, id);
      forall y | y in tail ensures !SameAuthorAndArticle(y, reviews[0].userId, reviews[0].articleNumber) {
        var j :| 0 <= j < |rest| && rest[j] == y;
        assert reviews[j + 1] == y;
      }
      if reviews[0].reviewId != id {
        OneReviewCons(reviews[0], tail);
      }
    }
  }

  /** The outcome of the delete route: 404 without the review, 403 for another user's review.
      The time since writing plays no part. */
  function DeleteOutcome(reviews: seq<ReviewRow>, caller: int, id: int): (r: Result<()>)
    ensures r.Ok? <==> exists k :: 0 <= k < |reviews| && reviews[k].reviewId == id && ReviewIndex(reviews, id) == Some(k) && reviews[k].userId == caller
  {
    match ReviewIndex(reviews, id)
    case None => Fail(NotFound)
    case Some(k) => if reviews[k].userId != caller then Fail(Forbidden) else Ok(())
  }

  /** The author can delete a review whose edit window has passed, which the edit route
      refuses. */
  lemma DeleteAfterWindow(reviews: seq<ReviewRow>, caller: int, id: int, rating: int, comment: string, now: int)
    requires ReviewIndex(reviews, id).Some?
    requires reviews[ReviewIndex(reviews, id).value].userId == caller
    requires !Editable(reviews[ReviewIndex(reviews, id).value], now)
    requires ValidRating(rating)
    ensures DeleteOutcome(reviews, caller, id) == Ok(())
    ensures EditOutcome(reviews, caller, id, Some(rating), Some(comment), now) == Fail(Forbidden)
  {
  }

  /** `DELETE /reviews/:reviewId` */
  method DeleteReview(db: Db, caller: int, id: int) returns (r: Result<()>)
    requires db.Valid()
    modifies db`reviews
    ensures db.Valid()
    ensures r == DeleteOutcome(old(db.reviews), caller, id)
    ensures r.Fail? ==> unchanged(db)
    ensures r.Ok? ==> db.reviews == DropReview(old(db.reviews), id)
  {
    var k := ReviewIndex(db.reviews, id);
    if k.None? {
      return Fail(NotFound);
    }
    if db.reviews[k.value].userId != caller {
      return Fail(Forbidden);
    }
    DropReviewKeeps(db.reviews, id);
    db.reviews := DropReview(db.reviews, id);
    r := Ok(());
  }
}
