/** The comment rating engine: a per-(user, comment) toggle over the rating
    rows. Likes and dislikes are never stored; they are counted from the rows,
    so a comment's tally is consistent with its ratings in every state. */
module Ratings {
  import opened Model

  type RatingRows = map<(UserId, CommentId), RatingValue>

  /** The likes and dislikes of one comment, as the rating response carries them. */
  datatype Tally = Tally(likes: nat, dislikes: nat)

  /** The other rating value. */
  function Flip(v: RatingValue): RatingValue {
    match v
    case Like => Dislike
    case Dislike => Like
  }

  /** The bucket of a tally that counts value `v`. */
  function Votes(t: Tally, v: RatingValue): nat {
    match v
    case Like => t.likes
    case Dislike => t.dislikes
  }

  /** The rating rows on comment `c` that hold value `v`. */
  function RowsWith(ratings: RatingRows, c: CommentId, v: RatingValue): set<(UserId, CommentId)> {
    set k | k in ratings && k.1 == c && ratings[k] == v
  }

  /** How many users gave comment `c` the value `v`. */
  function Count(ratings: RatingRows, c: CommentId, v: RatingValue): nat {
    |RowsWith(ratings, c, v)|
  }

  /** The derived like and dislike counts of comment `c`. */
  function TallyOf(ratings: RatingRows, c: CommentId): (t: Tally)
    ensures Votes(t, Like) == Count(ratings, c, Like)
    ensures Votes(t, Dislike) == Count(ratings, c, Dislike)
  {
    Tally(Count(ratings, c, Like), Count(ratings, c, Dislike))
  }

  /** `rateComment`: a missing user or comment fails and changes nothing;
      otherwise the (user, comment) row is created, toggled off when the same
      value is sent again, or changed in place to the new value. No other row
      changes, and the answer is the comment's tally after the change. */
  function RateComment(db: Db, user: UserId, comment: CommentId, v: RatingValue): (r: Result<(Db, Tally)>)
    ensures user !in db.users ==> r == Err(NotFound(UserEntity))
    ensures user in db.users && comment !in db.comments ==> r == Err(NotFound(CommentEntity))
    ensures r.Ok? <==> user in db.users && comment in db.comments
    ensures r.Ok? ==> r.value.0 == db.(ratings := r.value.0.ratings)
    ensures r.Ok? ==> r.value.0.ratings - {(user, comment)} == db.ratings - {(user, comment)}
    ensures r.Ok? && (user, comment) !in db.ratings ==>
              (user, comment) in r.value.0.ratings && r.value.0.ratings[(user, comment)] == v
    ensures r.Ok? && (user, comment) in db.ratings && db.ratings[(user, comment)] == v ==>
              (user, comment) !in r.value.0.ratings
    ensures r.Ok? && (user, comment) in db.ratings && db.ratings[(user, comment)] != v ==>
              (user, comment) in r.value.0.ratings && r.value.0.ratings[(user, comment)] == v
    ensures r.Ok? ==> r.value.1 == TallyOf(r.value.0.ratings, comment)
  {
    if user !in db.users then Err(NotFound(UserEntity))
    else if comment !in db.comments then Err(NotFound(CommentEntity))
    else
      var key := (user, comment);
      var ratings :=
        if key in db.ratings then
          if db.ratings[key] == v then db.ratings - {key}  // same value again: toggle off
          else db.ratings[key := v]                        // other value: change in place
        else db.ratings[key := v];                         // first rating
      Ok((db.(ratings := ratings), TallyOf(ratings, comment)))
  }

  /** `getCommentRating`: the comment's tally, or a failure when the comment is
      missing. The user id of the request does not take part. */
  function GetCommentRating(db: Db, comment: CommentId, user: UserId): (r: Result<Tally>)
    ensures r.Ok? <==> comment in db.comments
    ensures r.Err? ==> r.error == NotFound(CommentEntity)
    ensures r.Ok? ==> Votes(r.value, Like) == Count(db.ratings, comment, Like)
    ensures r.Ok? ==> Votes(r.value, Dislike) == Count(db.ratings, comment, Dislike)
  {
    if comment !in db.comments then Err(NotFound(CommentEntity))
    else Ok(TallyOf(db.ratings, comment))
  }

  /** `deleteRating`: removes the (user, comment) row if there is one; nothing
      else changes, and without a row nothing changes at all. */
  function DeleteRating(db: Db, user: UserId, comment: CommentId): (r: Db)
    ensures (user, comment) !in r.ratings
    ensures r.ratings - {(user, comment)} == db.ratings - {(user, comment)}
    ensures r == db.(ratings := r.ratings)
    ensures (user, comment) !in db.ratings ==> r == db
  {
    var key := (user, comment);
    if key in db.ratings then db.(ratings := db.ratings - {key}) else db
  }

  // ---------------------------------------------------------------------------
  // How a row change moves the derived counts

  /** Dropping a row takes one vote away from that row's comment and value. */
  lemma CountAfterRemove(ratings: RatingRows, key: (UserId, CommentId), c: CommentId, w: RatingValue)
    ensures Count(ratings - {key}, c, w) ==
            Count(ratings, c, w) - (if key in ratings && key.1 == c && ratings[key] == w then 1 else 0)
  {
    var a := RowsWith(ratings, c, w);
    assert RowsWith(ratings - {key}, c, w) == a - {key};
    if key in a {
      assert |a - {key}| == |a| - 1;
    } else {
      assert a - {key} == a;
    }
  }

  /** Writing a row adds one vote to its comment and value, on top of the
      rows without that key. */
  lemma CountAfterPut(ratings: RatingRows, key: (UserId, CommentId), v: RatingValue, c: CommentId, w: RatingValue)
    ensures Count(ratings[key := v], c, w) ==
            Count(ratings - {key}, c, w) + (if key.1 == c && v == w then 1 else 0)
  {
    var b := RowsWith(ratings - {key}, c, w);
    var after := RowsWith(ratings[key := v], c, w);
    assert key !in b;
    assert after - {key} == b by {
      forall k | k != key ensures k in after <==> k in b {
        assert k in ratings[key := v] <==> k in ratings - {key};
      }
    }
    if key.1 == c && v == w {
      assert after == b + {key};
    } else {
      assert after == b;
    }
  }

  /** A rating moves exactly one vote of the rated comment: a first rating adds
      one to its bucket, a repeated rating takes one away from it, and a changed
      rating moves one vote from the old bucket to the new one. */
  lemma RateCommentTally(db: Db, user: UserId, comment: CommentId, v: RatingValue)
    requires user in db.users && comment in db.comments
    ensures var before := TallyOf(db.ratings, comment);
            var after := RateComment(db, user, comment, v).value.1;
            && ((user, comment) !in db.ratings ==>
                  Votes(after, v) == Votes(before, v) + 1 && Votes(after, Flip(v)) == Votes(before, Flip(v)))
            && ((user, comment) in db.ratings && db.ratings[(user, comment)] == v ==>
                  Votes(after, v) + 1 == Votes(before, v) && Votes(after, Flip(v)) == Votes(before, Flip(v)))
            && ((user, comment) in db.ratings && db.ratings[(user, comment)] != v ==>
                  Votes(after, v) == Votes(before, v) + 1 && Votes(after, Flip(v)) + 1 == Votes(before, Flip(v)))
  {
    var key := (user, comment);
    CountAfterRemove(db.ratings, key, comment, v);
    CountAfterRemove(db.ratings, key, comment, Flip(v));
    CountAfterPut(db.ratings, key, v, comment, v);
    CountAfterPut(db.ratings, key, v, comment, Flip(v));
  }

  /** Rating one comment leaves the tally of every other comment as it was. */
  lemma RateCommentKeepsOtherTallies(db: Db, user: UserId, comment: CommentId, v: RatingValue, other: CommentId)
    requires user in db.users && comment in db.comments && other != comment
    ensures TallyOf(RateComment(db, user, comment, v).value.0.ratings, other) == TallyOf(db.ratings, other)
  {
    var key := (user, comment);
    CountAfterRemove(db.ratings, key, other, Like);
    CountAfterRemove(db.ratings, key, other, Dislike);
    CountAfterPut(db.ratings, key, v, other, Like);
    CountAfterPut(db.ratings, key, v, other, Dislike);
  }

  /** Toggle: from a state without a rating for the pair, rating twice with the
      same value gives back the original store and the original tally. */
  lemma RateTwiceRestores(db: Db, user: UserId, comment: CommentId, v: RatingValue)
    requires user in db.users && comment in db.comments && (user, comment) !in db.ratings
    ensures var first := RateComment(db, user, comment, v);
            first.Ok? && RateComment(first.value.0, user, comment, v) == Ok((db, TallyOf(db.ratings, comment)))
  {
    assert db.ratings[(user, comment) := v] - {(user, comment)} == db.ratings;
  }

  /** A third identical rating has the same effect as the first one. */
  lemma RateThriceRepeatsFirst(db: Db, user: UserId, comment: CommentId, v: RatingValue)
    requires user in db.users && comment in db.comments && (user, comment) !in db.ratings
    ensures var first := RateComment(db, user, comment, v);
            var second := RateComment(first.value.0, user, comment, v);
            second.Ok? && RateComment(second.value.0, user, comment, v) == first
  {
    RateTwiceRestores(db, user, comment, v);
  }

  /** The tally a rating answers with is the tally a later read of the same
      comment reports. */
  lemma RateThenGet(db: Db, user: UserId, comment: CommentId, v: RatingValue, reader: UserId)
    requires user in db.users && comment in db.comments
    ensures var r := RateComment(db, user, comment, v);
            GetCommentRating(r.value.0, comment, reader) == Ok(r.value.1)
  {
  }

  /** A successful `rateComment` keeps the store consistent: the only row it
      can add names a stored comment, whose id the allocator handed out. */
  lemma RateCommentKeepsValid(db: Db, user: UserId, comment: CommentId, v: RatingValue)
    requires Valid(db)
    requires RateComment(db, user, comment, v).Ok?
    ensures Valid(RateComment(db, user, comment, v).value.0)
  {
  }

  /** `deleteRating` keeps the store consistent: it only drops a row. */
  lemma DeleteRatingKeepsValid(db: Db, user: UserId, comment: CommentId)
    requires Valid(db)
    ensures Valid(DeleteRating(db, user, comment))
  {
  }

  /** `deleteRating` is idempotent. */
  lemma DeleteRatingIdempotent(db: Db, user: UserId, comment: CommentId)
    ensures DeleteRating(DeleteRating(db, user, comment), user, comment) == DeleteRating(db, user, comment)
  {
  }

  /** `deleteRating` of an existing row has the effect of the toggle-off path of
      `rateComment`, and takes one vote away from that row's bucket. */
  lemma DeleteRatingIsToggleOff(db: Db, user: UserId, comment: CommentId)
    requires user in db.users && comment in db.comments && (user, comment) in db.ratings
    ensures var v := db.ratings[(user, comment)];
            var r := RateComment(db, user, comment, v);
            && r.Ok? && r.value.0 == DeleteRating(db, user, comment)
            && Votes(TallyOf(DeleteRating(db, user, comment).ratings, comment), v) + 1
               == Votes(TallyOf(db.ratings, comment), v)
  {
    RateCommentTally(db, user, comment, db.ratings[(user, comment)]);
  }

  /** The worked example of the rating engine: on a comment nobody rated, user
      1 likes, likes again, user 2 dislikes, then user 1 dislikes; the answers
      are 1/0, 0/0, 0/1 and 0/2. */
  lemma RatingExample(db: Db)
    requires 1 in db.users && 2 in db.users && 7 in db.comments && db.ratings == map[]
    ensures var s1 := RateComment(db, 1, 7, Like);
            && s1 == Ok((s1.value.0, Tally(1, 0)))
            && var s2 := RateComment(s1.value.0, 1, 7, Like);
            && s2 == Ok((s2.value.0, Tally(0, 0)))
            && var s3 := RateComment(s2.value.0, 2, 7, Dislike);
            && s3 == Ok((s3.value.0, Tally(0, 1)))
            && var s4 := RateComment(s3.value.0, 1, 7, Dislike);
            && s4 == Ok((s4.value.0, Tally(0, 2)))
  {
    assert RowsWith(db.ratings, 7, Like) == {};
    assert RowsWith(db.ratings, 7, Dislike) == {};
    var s1 := RateComment(db, 1, 7, Like);
    RateCommentTally(db, 1, 7, Like);
    var s2 := RateComment(s1.value.0, 1, 7, Like);
    RateCommentTally(s1.value.0, 1, 7, Like);
    var s3 := RateComment(s2.value.0, 2, 7, Dislike);
    RateCommentTally(s2.value.0, 2, 7, Dislike);
    assert (1, 7) !in s2.value.0.ratings;
    var s4 := RateComment(s3.value.0, 1, 7, Dislike);
    RateCommentTally(s3.value.0, 1, 7, Dislike);
  }
}
