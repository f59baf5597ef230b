/** The entities of the video site's backend that the comment, rating and
    upload services read and write, held in one immutable store `Db`.

    The relational store is modelled as maps from identifiers to entity
    values; a JPA transaction becomes one pure transition `Db -> Db`.
 */
module Model {

  type UserId = nat
  type VideoId = nat
  type CommentId = nat

  /** An opaque creation time, supplied by the caller (the source reads the clock). */
  type Timestamp = int

  datatype Option<+T> = None | Some(value: T)

  /** A registered user; only the avatar URL is ever changed here. */
  datatype User = User(avatar: Option<string>)

  /** A video, its uploader and the ordered list of its comments. */
  datatype Video = Video(uploader: UserId, comments: seq<CommentId>)

  /** A comment: its text, author and video, the comment it answers (if any)
      and the ordered list of its replies. */
  datatype Comment = Comment(
    content: string,
    createdAt: Timestamp,
    author: UserId,
    video: VideoId,
    parent: Option<CommentId>,
    replies: seq<CommentId>)

  /** The value of a comment rating: a like or a dislike. */
  datatype RatingValue = Like | Dislike

  /** The whole persistent state. A rating row is keyed by its (user, comment)
      pair, so at most one rating per pair exists by construction. */
  datatype Db = Db(
    users: map<UserId, User>,
    videos: map<VideoId, Video>,
    comments: map<CommentId, Comment>,
    ratings: map<(UserId, CommentId), RatingValue>,
    nextCommentId: nat)

  /** Which lookup failed. */
  datatype Entity = UserEntity | VideoEntity | CommentEntity | ParentCommentEntity

  /** The service layer's failures (runtime exceptions in the source). */
  datatype Error = NotFound(entity: Entity) | NotAuthorized

  datatype Result<+T> = Ok(value: T) | Err(error: Error)

  /** No element occurs twice in `s`. */
  predicate NoDup<T(==)>(s: seq<T>) {
    forall i, j :: 0 <= i < j < |s| ==> s[i] != s[j]
  }

  /** `java.util.List.remove(Object)`: drop the first occurrence of `x`, if any.
      Which occurrence goes, and that the rest keep their order, is
      `RemoveFirstIsSplice`. */
  function RemoveFirst<T(==)>(s: seq<T>, x: T): (r: seq<T>)
    ensures x !in s ==> r == s
    ensures x in s ==> |r| == |s| - 1
    ensures multiset(r) == multiset(s) - multiset{x}
  {
    if s == [] then []
    else if s[0] == x then
      assert s == [s[0]] + s[1..];
      s[1..]
    else
      assert s == [s[0]] + s[1..];
      [s[0]] + RemoveFirst(s[1..], x)
  }

  /** `i` is the position of the first occurrence of `x` in `s`. */
  predicate FirstAt<T(==)>(s: seq<T>, x: T, i: int) {
    0 <= i < |s| && s[i] == x && x !in s[..i]
  }

  /** The position of the first occurrence of `x`: a witness that `FirstAt`
      can always be met when `x` is in `s`. */
  function IndexOf<T(==)>(s: seq<T>, x: T): (i: nat)
    requires x in s
    ensures FirstAt(s, x, i)
  {
    if s[0] == x then 0
    else
      assert s == [s[0]] + s[1..];
      var j := IndexOf(s[1..], x);
      assert s[..j + 1] == [s[0]] + s[1..][..j];
      j + 1
  }

  /** Removing `x` cuts out exactly its first occurrence: the elements before
      and after it stay, in their order. */
  lemma {:induction false} RemoveFirstIsSplice<T>(s: seq<T>, x: T, i: int)
    requires FirstAt(s, x, i)
    ensures RemoveFirst(s, x) == s[..i] + s[i + 1..]
  {
    if i == 0 {
      assert s[..0] + s[0 + 1..] == s[1..];
    } else {
      var u := s[1..];
      assert s[0] != x by { assert s[0] == s[..i][0]; }
      assert FirstAt(u, x, i - 1) by {
        assert u[..i - 1] == s[1..i];
        assert s[..i] == [s[0]] + s[1..i];
      }
      RemoveFirstIsSplice(u, x, i - 1);
      assert RemoveFirst(s, x) == [s[0]] + RemoveFirst(u, x);
      assert s[..i] == [s[0]] + u[..i - 1];
      assert s[i + 1..] == u[i - 1 + 1..];
    }
  }

  /** On a duplicate-free list, removing the first occurrence removes `x`
      altogether, keeps every other element, and keeps the list duplicate-free. */
  lemma {:induction false} RemoveFirstUnique<T>(s: seq<T>, x: T)
    requires NoDup(s)
    ensures NoDup(RemoveFirst(s, x))
    ensures x !in RemoveFirst(s, x)
    ensures forall y :: y in RemoveFirst(s, x) <==> y in s && y != x
  {
    if s != [] {
      NoDupTail(s);
      assert s == [s[0]] + s[1..];
      if s[0] != x {
        RemoveFirstUnique(s[1..], x);
        NoDupCons(s[0], RemoveFirst(s[1..], x));
      }
    }
  }

  /** The tail of a duplicate-free list is duplicate-free and lacks its head. */
  lemma NoDupTail<T>(s: seq<T>)
    requires NoDup(s) && s != []
    ensures NoDup(s[1..]) && s[0] !in s[1..]
  {
  }

  /** Putting a new element in front of a duplicate-free list keeps it duplicate-free. */
  lemma NoDupCons<T>(a: T, r: seq<T>)
    requires NoDup(r) && a !in r
    ensures NoDup([a] + r)
  {
  }

  /** A list of comment ids with no duplicates, all below the allocator bound. */
  predicate Linked(s: seq<CommentId>, bound: nat) {
    && NoDup(s)
    && forall x :: x in s ==> x < bound
  }

  /** Every id the store holds comes from the allocator: comment ids, the
      parent ids comments name, and the comment ids of rating rows. */
  ghost predicate Allocated(db: Db) {
    && (forall id :: id in db.comments ==> id < db.nextCommentId)
    && (forall id :: id in db.comments && db.comments[id].parent.Some? ==> db.comments[id].parent.value < db.nextCommentId)
    && (forall k :: k in db.ratings ==> k.1 < db.nextCommentId)
  }

  /** Every comment is listed where it belongs: its video exists and lists
      it, and a stored parent lists it among its replies. */
  ghost predicate ListsComplete(db: Db) {
    && (forall id :: id in db.comments ==> db.comments[id].video in db.videos)
    && (forall id :: id in db.comments ==> id in db.videos[db.comments[id].video].comments)
    && (forall id :: id in db.comments && db.comments[id].parent.Some? && db.comments[id].parent.value in db.comments ==>
          id in db.comments[db.comments[id].parent.value].replies)
  }

  /** A video lists only stored comments on it. */
  ghost predicate VideoListsSound(db: Db) {
    forall v, k :: v in db.videos && k in db.videos[v].comments ==> k in db.comments && db.comments[k].video == v
  }

  /** A reply list names only stored comments whose parent owns the list. */
  ghost predicate ReplyListsSound(db: Db) {
    forall p, k :: p in db.comments && k in db.comments[p].replies ==> k in db.comments && db.comments[k].parent == Some(p)
  }

  /** No list holds an id twice or an id the allocator has not handed out. */
  ghost predicate ListsLinked(db: Db) {
    && (forall v :: v in db.videos ==> Linked(db.videos[v].comments, db.nextCommentId))
    && (forall id :: id in db.comments ==> Linked(db.comments[id].replies, db.nextCommentId))
  }

  /** The integrity the service layer relies on. With `ListsComplete` and
      the two soundness predicates together, a comment's reply list holds exactly its stored
      replies and a video's list exactly its stored comments. A reply whose
      parent was deleted, and a rating of a deleted comment, are allowed:
      deleting a comment orphans both (see `Comments.DeleteComment`). */
  ghost predicate Valid(db: Db) {
    Allocated(db) && ListsComplete(db) && VideoListsSound(db) && ReplyListsSound(db) && ListsLinked(db)
  }
}
