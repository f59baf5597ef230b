/** The comment tree manager: creating, listing and deleting comments over an
    arena of comments indexed by id, each with an optional parent id. The
    parent of a reply is not required to lie on the same video. */
module Comments {
  import opened Model
  import Ratings

  /** What a client sends to create a comment. */
  datatype CommentRequest = CommentRequest(
    content: string,
    user: UserId,
    video: VideoId,
    parent: Option<CommentId>)

  /** The comment a successful request creates at time `now`. */
  function Fresh(req: CommentRequest, now: Timestamp): Comment {
    Comment(req.content, now, req.user, req.video, req.parent, [])
  }

  /** The arena after `id` is appended to its parent's replies, when that
      parent is stored: the reply list mirrors the parent links. */
  function Link(comments: map<CommentId, Comment>, id: CommentId, parent: Option<CommentId>): map<CommentId, Comment> {
    if parent.Some? && parent.value in comments then
      var p := comments[parent.value];
      comments[parent.value := p.(replies := p.replies + [id])]
    else comments
  }

  /** `addComment`: the user, the video and (when one is named) the parent
      comment must exist, checked in that order; on success a comment with a
      newly allocated id is stored, appended to its video's comment list and to
      its parent's replies, and nothing else changes. */
  function AddComment(db: Db, req: CommentRequest, now: Timestamp): (r: Result<(Db, CommentId)>)
    ensures req.user !in db.users ==> r == Err(NotFound(UserEntity))
    ensures req.user in db.users && req.video !in db.videos ==> r == Err(NotFound(VideoEntity))
    ensures req.user in db.users && req.video in db.videos && req.parent.Some? && req.parent.value !in db.comments ==>
              r == Err(NotFound(ParentCommentEntity))
    ensures r.Ok? <==>
              req.user in db.users && req.video in db.videos && (req.parent.Some? ==> req.parent.value in db.comments)
    ensures r.Ok? ==> var (db', id) := r.value;
              && id == db.nextCommentId
              && db'.nextCommentId == id + 1
              && db'.comments.Keys == db.comments.Keys + {id}
              && db'.comments[id] == Fresh(req, now)
              && (forall k :: k in db.comments && k != id && Some(k) != req.parent ==> db'.comments[k] == db.comments[k])
              && (req.parent.Some? && req.parent.value != id ==>
                    var p := req.parent.value;
                    db'.comments[p] == db.comments[p].(replies := db.comments[p].replies + [id]))
              && req.video in db'.videos
              && db'.videos[req.video].comments == db.videos[req.video].comments + [id]
              && db'.videos.Keys == db.videos.Keys
              && (forall v :: v in db.videos && v != req.video ==> db'.videos[v] == db.videos[v])
              && db'.users == db.users
              && db'.ratings == db.ratings
  {
    if req.user !in db.users then Err(NotFound(UserEntity))
    else if req.video !in db.videos then Err(NotFound(VideoEntity))
    else if req.parent.Some? && req.parent.value !in db.comments then Err(NotFound(ParentCommentEntity))
    else
      var id := db.nextCommentId;
      var video := db.videos[req.video];
      var db' := db.(
        comments := Link(db.comments, id, req.parent)[id := Fresh(req, now)],
        videos := db.videos[req.video := video.(comments := video.comments + [id])],
        nextCommentId := id + 1);
      Ok((db', id))
  }

  /** Appending an id above every element of a linked list keeps it linked
      under the next bound. */
  lemma LinkedAppend(s: seq<CommentId>, bound: nat)
    requires Linked(s, bound)
    ensures Linked(s + [bound], bound + 1)
  {
    var t := s + [bound];
    forall i, j | 0 <= i < j < |t| ensures t[i] != t[j] {
      if j == |s| {
        assert t[i] == s[i];
        assert s[i] in s;
      } else {
        assert t[i] == s[i] && t[j] == s[j];
      }
    }
  }

  /** A successful `addComment` keeps the store consistent and uses an id no
      comment had before. */
  lemma AddCommentKeepsValid(db: Db, req: CommentRequest, now: Timestamp)
    requires Valid(db)
    requires AddComment(db, req, now).Ok?
    ensures AddComment(db, req, now).value.0.comments.Keys == db.comments.Keys + {db.nextCommentId}
    ensures db.nextCommentId !in db.comments
    ensures Valid(AddComment(db, req, now).value.0)
  {
    AddKeepsAllocated(db, req, now);
    AddKeepsListsComplete(db, req, now);
    AddKeepsVideoListsSound(db, req, now);
    AddKeepsReplyListsSound(db, req, now);
    AddKeepsListsLinked(db, req, now);
  }

  /** After `addComment` every id the store holds still comes from the
      allocator. */
  lemma AddKeepsAllocated(db: Db, req: CommentRequest, now: Timestamp)
    requires Valid(db)
    requires AddComment(db, req, now).Ok?
    ensures Allocated(AddComment(db, req, now).value.0)
  {
    var (db', id) := AddComment(db, req, now).value;
    forall k | k in db'.comments
      ensures k < db'.nextCommentId
      ensures db'.comments[k].parent.Some? ==> db'.comments[k].parent.value < db'.nextCommentId
    {
      if k != id {
        assert db'.comments[k].parent == db.comments[k].parent;
      }
    }
  }

  /** After `addComment` every comment, the new one included, is still listed
      by its video and by its stored parent. */
  lemma AddKeepsListsComplete(db: Db, req: CommentRequest, now: Timestamp)
    requires Valid(db)
    requires AddComment(db, req, now).Ok?
    ensures ListsComplete(AddComment(db, req, now).value.0)
  {
    var (db', id) := AddComment(db, req, now).value;
    forall k | k in db'.comments
      ensures db'.comments[k].video in db'.videos
      ensures k in db'.videos[db'.comments[k].video].comments
    {
      if k != id {
        var c := db.comments[k];
        assert db'.comments[k].video == c.video;
        assert k in db.videos[c.video].comments;
        if c.video == req.video {
          assert k in db.videos[c.video].comments + [id];
        }
      }
    }
  }

  /** After `addComment` a video still lists only stored comments on it. */
  lemma AddKeepsVideoListsSound(db: Db, req: CommentRequest, now: Timestamp)
    requires Valid(db)
    requires AddComment(db, req, now).Ok?
    ensures VideoListsSound(AddComment(db, req, now).value.0)
  {
    var (db', id) := AddComment(db, req, now).value;
    forall v, k | v in db'.videos && k in db'.videos[v].comments
      ensures k in db'.comments && db'.comments[k].video == v
    {
      if k != id {
        if v == req.video {
          assert k in db.videos[v].comments + [id];
        }
        assert k in db.comments && db.comments[k].video == v;
      }
    }
  }

  /** After `addComment` a reply list still names only stored comments whose
      parent owns the list. */
  lemma AddKeepsReplyListsSound(db: Db, req: CommentRequest, now: Timestamp)
    requires Valid(db)
    requires AddComment(db, req, now).Ok?
    ensures ReplyListsSound(AddComment(db, req, now).value.0)
  {
    var (db', id) := AddComment(db, req, now).value;
    forall p, k | p in db'.comments && k in db'.comments[p].replies
      ensures k in db'.comments && db'.comments[k].parent == Some(p)
    {
      if p != id && k != id {
        if Some(p) == req.parent {
          assert k in db.comments[p].replies + [id];
        }
        assert k in db.comments[p].replies;
        assert k in db.comments && db.comments[k].parent == Some(p);
      }
    }
  }

  /** After `addComment` no list holds an id twice or one not yet handed out. */
  lemma AddKeepsListsLinked(db: Db, req: CommentRequest, now: Timestamp)
    requires Valid(db)
    requires AddComment(db, req, now).Ok?
    ensures ListsLinked(AddComment(db, req, now).value.0)
  {
    var (db', id) := AddComment(db, req, now).value;
    forall v | v in db'.videos ensures Linked(db'.videos[v].comments, db'.nextCommentId) {
      assert Linked(db.videos[v].comments, id);
      if v == req.video {
        LinkedAppend(db.videos[v].comments, id);
      }
    }
    forall k | k in db'.comments ensures Linked(db'.comments[k].replies, db'.nextCommentId) {
      if k != id {
        var c := db.comments[k];
        assert Linked(c.replies, id);
        if Some(k) == req.parent {
          LinkedAppend(c.replies, id);
        }
      }
    }
  }

  /** A comment just added has no ratings yet: every rating row names an id
      the allocator had already handed out, so none names the new one, and its
      tally reads 0/0 whoever asks. */
  lemma AddedCommentHasNoRatings(db: Db, req: CommentRequest, now: Timestamp)
    requires Valid(db)
    requires AddComment(db, req, now).Ok?
    ensures var (db', id) := AddComment(db, req, now).value;
            && (forall u :: (u, id) !in db'.ratings)
            && (forall u :: Ratings.GetCommentRating(db', id, u) == Ok(Ratings.Tally(0, 0)))
  {
  }

  /** `getCommentById`. */
  function GetCommentById(db: Db, id: CommentId): (r: Result<Comment>)
    ensures r.Ok? <==> id in db.comments
    ensures r.Ok? ==> r.value == db.comments[id]
    ensures r.Err? ==> r.error == NotFound(CommentEntity)
  {
    if id in db.comments then Ok(db.comments[id]) else Err(NotFound(CommentEntity))
  }

  /** A comment just added is found by its id with the request's content,
      author, video and parent. */
  lemma AddThenGet(db: Db, req: CommentRequest, now: Timestamp)
    requires AddComment(db, req, now).Ok?
    ensures var (db', id) := AddComment(db, req, now).value;
            var r := GetCommentById(db', id);
            && r.Ok?
            && r.value.content == req.content
            && r.value.author == req.user
            && r.value.video == req.video
            && r.value.parent == req.parent
            && r.value.createdAt == now
  {
  }

  // ---------------------------------------------------------------------------
  // Listing

  /** The repository queries behind the three listing operations. */
  datatype Query =
    | TopLevel                  // findAll, then keep comments without a parent
    | TopLevelOf(video: VideoId) // findByVideo_IdAndParentCommentIsNull
    | AuthoredBy(user: UserId)   // findByUser_Id

  predicate Matches(q: Query, c: Comment) {
    match q
    case TopLevel => c.parent.None?
    case TopLevelOf(v) => c.video == v && c.parent.None?
    case AuthoredBy(u) => c.author == u
  }

  /** Runs a query over the arena in repository order (ascending id): the answer
      holds exactly the matching comments, each once, in that order. */
  method Select(db: Db, q: Query) returns (r: seq<CommentId>)
    requires Valid(db)
    ensures forall i :: 0 <= i < |r| ==> r[i] in db.comments && Matches(q, db.comments[r[i]])
    ensures forall id :: id in db.comments && Matches(q, db.comments[id]) ==> id in r
    ensures forall i, j :: 0 <= i < j < |r| ==> r[i] < r[j]
  {
    r := [];
    var next: nat := 0;
    while next < db.nextCommentId
      invariant next <= db.nextCommentId
      invariant forall i :: 0 <= i < |r| ==> r[i] < next && r[i] in db.comments && Matches(q, db.comments[r[i]])
      invariant forall id :: id in db.comments && Matches(q, db.comments[id]) && id < next ==> id in r
      invariant forall i, j :: 0 <= i < j < |r| ==> r[i] < r[j]
    {
      if next in db.comments && Matches(q, db.comments[next]) {
        r := r + [next];
      }
      next := next + 1;
    }
  }

  /** `getAllComments`: every top-level comment of every video, and no reply,
      in repository order. */
  method GetAllComments(db: Db) returns (r: seq<CommentId>)
    requires Valid(db)
    ensures forall i :: 0 <= i < |r| ==> r[i] in db.comments && db.comments[r[i]].parent.None?
    ensures forall id :: id in db.comments && db.comments[id].parent.None? ==> id in r
    ensures forall i, j :: 0 <= i < j < |r| ==> r[i] < r[j]
  {
    r := Select(db, TopLevel);
  }

  /** `getVideoComments`: the top-level comments of one video. An unknown video
      has none; it is not an error. */
  method GetVideoComments(db: Db, video: VideoId) returns (r: seq<CommentId>)
    requires Valid(db)
    ensures forall i :: 0 <= i < |r| ==>
              r[i] in db.comments && db.comments[r[i]].video == video && db.comments[r[i]].parent.None?
    ensures forall id :: id in db.comments && db.comments[id].video == video && db.comments[id].parent.None? ==> id in r
    ensures forall i, j :: 0 <= i < j < |r| ==> r[i] < r[j]
    ensures r != [] ==> video in db.videos
  {
    r := Select(db, TopLevelOf(video));
    if r != [] {
      assert db.comments[r[0]].video == video;
    }
  }

  /** `getUserComments`: fails for an unknown user; otherwise every comment the
      user wrote, replies included. */
  method GetUserComments(db: Db, user: UserId) returns (r: Result<seq<CommentId>>)
    requires Valid(db)
    ensures r.Err? <==> user !in db.users
    ensures r.Err? ==> r.error == NotFound(UserEntity)
    ensures r.Ok? ==> forall i :: 0 <= i < |r.value| ==>
              r.value[i] in db.comments && db.comments[r.value[i]].author == user
    ensures r.Ok? ==> forall id :: id in db.comments && db.comments[id].author == user ==> id in r.value
    ensures r.Ok? ==> forall i, j :: 0 <= i < j < |r.value| ==> r.value[i] < r.value[j]
  {
    if user !in db.users {
      return Err(NotFound(UserEntity));
    }
    var ids := Select(db, AuthoredBy(user));
    r := Ok(ids);
  }

  // ---------------------------------------------------------------------------
  // Deleting

  /** Whether `requester` may delete comment `id`: its author or the uploader
      of its video. */
  predicate MayDelete(db: Db, id: CommentId, requester: UserId)
    requires id in db.comments && db.comments[id].video in db.videos
  {
    requester == db.comments[id].author || requester == db.videos[db.comments[id].video].uploader
  }

  /** The arena after unlinking `id` from its parent's replies, when that parent
      is still stored. */
  function Unlink(comments: map<CommentId, Comment>, id: CommentId, parent: Option<CommentId>): map<CommentId, Comment> {
    if parent.Some? && parent.value in comments then
      var p := comments[parent.value];
      comments[parent.value := p.(replies := RemoveFirst(p.replies, id))]
    else comments
  }

  /** The store after comment `id` is unlinked from its parent's replies and
      its video's comment list and removed from the arena. */
  function Detach(db: Db, id: CommentId): Db
    requires id in db.comments && db.comments[id].video in db.videos
  {
    var c := db.comments[id];
    var video := db.videos[c.video];
    db.(
      comments := Unlink(db.comments, id, c.parent) - {id},
      videos := db.videos[c.video := video.(comments := RemoveFirst(video.comments, id))])
  }

  /** What `Detach` does to the arena: only the comment itself goes, and only
      its parent's reply list changes, losing exactly that comment. */
  lemma DetachComments(db: Db, id: CommentId)
    requires id in db.comments && db.comments[id].video in db.videos
    requires var p := db.comments[id].parent;
             p.Some? && p.value in db.comments ==> NoDup(db.comments[p.value].replies)
    ensures var c := db.comments[id]; var db' := Detach(db, id);
            && db'.comments.Keys == db.comments.Keys - {id}
            && (forall k :: k in db'.comments && Some(k) != c.parent ==> db'.comments[k] == db.comments[k])
            && (c.parent.Some? && c.parent.value in db'.comments ==>
                  var p := c.parent.value;
                  && db'.comments[p] == db.comments[p].(replies := db'.comments[p].replies)
                  && multiset(db'.comments[p].replies) == multiset(db.comments[p].replies) - multiset{id}
                  && id !in db'.comments[p].replies)
  {
    var c := db.comments[id];
    var unlinked := Unlink(db.comments, id, c.parent);
    var after := Detach(db, id).comments;
    assert after == unlinked - {id};
    assert unlinked.Keys == db.comments.Keys;
    forall k | k in after && Some(k) != c.parent ensures after[k] == db.comments[k] {
      assert unlinked[k] == db.comments[k];
    }
    if c.parent.Some? && c.parent.value in db.comments {
      var p := c.parent.value;
      RemoveFirstUnique(db.comments[p].replies, id);
      assert unlinked[p] == db.comments[p].(replies := RemoveFirst(db.comments[p].replies, id));
    }
  }

  /** What `Detach` does to the videos: only the comment's own video changes,
      and its list loses exactly that comment. */
  lemma DetachVideos(db: Db, id: CommentId)
    requires id in db.comments && db.comments[id].video in db.videos
    requires NoDup(db.videos[db.comments[id].video].comments)
    ensures var c := db.comments[id]; var db' := Detach(db, id);
            && db'.videos.Keys == db.videos.Keys
            && db'.videos[c.video].uploader == db.videos[c.video].uploader
            && multiset(db'.videos[c.video].comments) == multiset(db.videos[c.video].comments) - multiset{id}
            && id !in db'.videos[c.video].comments
            && (forall v :: v in db.videos && v != c.video ==> db'.videos[v] == db.videos[v])
  {
    RemoveFirstUnique(db.videos[db.comments[id].video].comments, id);
  }

  /** `deleteComment`: fails when the comment is missing, and when the requester
      is neither its author nor its video's uploader, changing nothing. Otherwise
      the comment leaves its parent's replies, its video's comment list and the
      arena; every other comment, video, user and rating stays as it was. The
      delete does not cascade: the comment's replies and its rating rows are
      orphaned (`DeleteOrphansReplies`). */
  function DeleteComment(db: Db, id: CommentId, requester: UserId): (r: Result<Db>)
    requires Valid(db)
    ensures r == Err(NotFound(CommentEntity)) <==> id !in db.comments
    ensures r == Err(NotAuthorized) <==> id in db.comments && !MayDelete(db, id, requester)
    ensures r.Ok? <==> id in db.comments && MayDelete(db, id, requester)
    ensures r.Ok? ==> var c := db.comments[id]; var db' := r.value;
              && db'.comments.Keys == db.comments.Keys - {id}
              && (forall k :: k in db'.comments && Some(k) != c.parent ==> db'.comments[k] == db.comments[k])
              && (c.parent.Some? && c.parent.value in db'.comments ==>
                    var p := c.parent.value;
                    && db'.comments[p] == db.comments[p].(replies := db'.comments[p].replies)
                    && multiset(db'.comments[p].replies) == multiset(db.comments[p].replies) - multiset{id}
                    && id !in db'.comments[p].replies)
    ensures r.Ok? ==> var c := db.comments[id]; var db' := r.value;
              && db'.videos.Keys == db.videos.Keys
              && db'.videos[c.video].uploader == db.videos[c.video].uploader
              && multiset(db'.videos[c.video].comments) == multiset(db.videos[c.video].comments) - multiset{id}
              && id !in db'.videos[c.video].comments
              && (forall v :: v in db.videos && v != c.video ==> db'.videos[v] == db.videos[v])
    ensures r.Ok? ==> r.value.users == db.users && r.value.ratings == db.ratings
    ensures r.Ok? ==> r.value.nextCommentId == db.nextCommentId
  {
    if id !in db.comments then Err(NotFound(CommentEntity))
    else if !MayDelete(db, id, requester) then Err(NotAuthorized)
    else
      var c := db.comments[id];
      assert Linked(db.videos[c.video].comments, db.nextCommentId);
      assert c.parent.Some? && c.parent.value in db.comments ==>
             Linked(db.comments[c.parent.value].replies, db.nextCommentId);
      DetachComments(db, id);
      DetachVideos(db, id);
      Ok(Detach(db, id))
  }

  /** A successful delete keeps the store consistent. */
  lemma DeleteCommentKeepsValid(db: Db, id: CommentId, requester: UserId)
    requires Valid(db)
    requires DeleteComment(db, id, requester).Ok?
    ensures Valid(DeleteComment(db, id, requester).value)
  {
    assert DeleteComment(db, id, requester).value == Detach(db, id);
    DetachKeepsValid(db, id);
  }

  /** After a delete no list names the deleted comment any more: no video's
      comment list and no reply list. */
  lemma DeleteLeavesNoReference(db: Db, id: CommentId, requester: UserId)
    requires Valid(db)
    requires DeleteComment(db, id, requester).Ok?
    ensures var db' := DeleteComment(db, id, requester).value;
            && (forall v :: v in db'.videos ==> id !in db'.videos[v].comments)
            && (forall p :: p in db'.comments ==> id !in db'.comments[p].replies)
  {
  }

  /** A delete cuts the comment out of its video's list and out of its
      parent's replies at the one place it occurs there; the other ids keep
      their order. */
  lemma DeleteCommentKeepsOrder(db: Db, id: CommentId, requester: UserId)
    requires Valid(db)
    requires DeleteComment(db, id, requester).Ok?
    ensures var c := db.comments[id]; var list := db.videos[c.video].comments;
            && id in list
            && DeleteComment(db, id, requester).value.videos[c.video].comments
               == list[..IndexOf(list, id)] + list[IndexOf(list, id) + 1..]
    ensures var c := db.comments[id]; var db' := DeleteComment(db, id, requester).value;
            c.parent.Some? && c.parent.value in db'.comments ==>
              var replies := db.comments[c.parent.value].replies;
              id in replies &&
              db'.comments[c.parent.value].replies == replies[..IndexOf(replies, id)] + replies[IndexOf(replies, id) + 1..]
  {
    DeleteIsDetach(db, id, requester);
    ValidListsComment(db, id);
    DetachSplices(db, id);
  }

  /** A successful delete is `Detach`. */
  lemma DeleteIsDetach(db: Db, id: CommentId, requester: UserId)
    requires Valid(db)
    requires DeleteComment(db, id, requester).Ok?
    ensures id in db.comments && db.comments[id].video in db.videos
    ensures DeleteComment(db, id, requester).value == Detach(db, id)
  {
  }

  /** In a consistent store a comment is listed by its video, and by its
      parent while that parent is stored. */
  lemma ValidListsComment(db: Db, id: CommentId)
    requires Valid(db) && id in db.comments
    ensures id in db.videos[db.comments[id].video].comments
    ensures var p := db.comments[id].parent;
            p.Some? && p.value in db.comments ==> id in db.comments[p.value].replies
  {
  }

  /** `Detach` cuts the comment out of its video's list and out of its stored
      parent's replies, at the first occurrence in each. */
  lemma DetachSplices(db: Db, id: CommentId)
    requires id in db.comments && db.comments[id].video in db.videos
    requires id in db.videos[db.comments[id].video].comments
    requires var p := db.comments[id].parent;
             p.Some? && p.value in db.comments ==> id in db.comments[p.value].replies
    ensures var c := db.comments[id]; var list := db.videos[c.video].comments;
            Detach(db, id).videos[c.video].comments == list[..IndexOf(list, id)] + list[IndexOf(list, id) + 1..]
    ensures var c := db.comments[id]; var db' := Detach(db, id);
            c.parent.Some? && c.parent.value in db'.comments ==>
              var replies := db.comments[c.parent.value].replies;
              id in replies &&
              db'.comments[c.parent.value].replies == replies[..IndexOf(replies, id)] + replies[IndexOf(replies, id) + 1..]
  {
    var c := db.comments[id];
    DetachSplicesVideo(db, id);
    if c.parent.Some? && c.parent.value in Detach(db, id).comments {
      DetachSplicesParent(db, id);
    }
  }

  /** The video half of `DetachSplices`. */
  lemma DetachSplicesVideo(db: Db, id: CommentId)
    requires id in db.comments && db.comments[id].video in db.videos
    requires id in db.videos[db.comments[id].video].comments
    ensures var list := db.videos[db.comments[id].video].comments;
            Detach(db, id).videos[db.comments[id].video].comments == list[..IndexOf(list, id)] + list[IndexOf(list, id) + 1..]
  {
    var list := db.videos[db.comments[id].video].comments;
    RemoveFirstIsSplice(list, id, IndexOf(list, id));
  }

  /** The parent half of `DetachSplices`. */
  lemma DetachSplicesParent(db: Db, id: CommentId)
    requires id in db.comments && db.comments[id].video in db.videos
    requires var p := db.comments[id].parent; p.Some? && p.value in Detach(db, id).comments
    requires id in db.comments[db.comments[id].parent.value].replies
    ensures var p := db.comments[id].parent.value; var replies := db.comments[p].replies;
            Detach(db, id).comments[p].replies == replies[..IndexOf(replies, id)] + replies[IndexOf(replies, id) + 1..]
  {
    var replies := db.comments[db.comments[id].parent.value].replies;
    RemoveFirstIsSplice(replies, id, IndexOf(replies, id));
  }

  /** Deleting a comment orphans what refers to it: its replies stay stored and
      still name it as their parent, its rating rows stay, and reading its
      rating fails from then on. */
  lemma DeleteOrphansReplies(db: Db, id: CommentId, requester: UserId)
    requires Valid(db)
    requires DeleteComment(db, id, requester).Ok?
    ensures var db' := DeleteComment(db, id, requester).value;
            && id !in db'.comments
            && (forall k :: k in db.comments && k != id && db.comments[k].parent == Some(id) ==>
                  k in db'.comments && db'.comments[k].parent == Some(id))
            && (forall u :: (u, id) in db.ratings ==> (u, id) in db'.ratings)
            && (forall u :: Ratings.GetCommentRating(db', id, u) == Err(NotFound(CommentEntity)))
  {
  }

  /** Unlinking and removing a stored comment keeps the store consistent. */
  lemma DetachKeepsValid(db: Db, id: CommentId)
    requires Valid(db) && id in db.comments
    ensures Valid(Detach(db, id))
  {
    DetachKeepsAllocated(db, id);
    DetachKeepsListsComplete(db, id);
    DetachKeepsVideoListsSound(db, id);
    DetachKeepsReplyListsSound(db, id);
    DetachKeepsListsLinked(db, id);
  }

  /** After `Detach` every id the store holds still comes from the allocator. */
  lemma DetachKeepsAllocated(db: Db, id: CommentId)
    requires Valid(db) && id in db.comments
    ensures Allocated(Detach(db, id))
  {
    var db' := Detach(db, id);
    forall k | k in db'.comments
      ensures k < db'.nextCommentId
      ensures db'.comments[k].parent.Some? ==> db'.comments[k].parent.value < db'.nextCommentId
    {
      DetachOther(db, id, k);
    }
  }

  /** After `Detach` a video still lists only stored comments on it: the
      removed comment was listed by its own video only, and that list lost it. */
  lemma DetachKeepsVideoListsSound(db: Db, id: CommentId)
    requires Valid(db) && id in db.comments
    ensures VideoListsSound(Detach(db, id))
  {
    var c := db.comments[id];
    var db' := Detach(db, id);
    var list := db.videos[c.video].comments;
    assert Linked(list, db.nextCommentId);
    RemoveFirstUnique(list, id);
    forall v, k | v in db'.videos && k in db'.videos[v].comments
      ensures k in db'.comments && db'.comments[k].video == v
    {
      assert k in db.videos[v].comments && k != id;
      assert k in db.comments && db.comments[k].video == v;
      assert k in Unlink(db.comments, id, c.parent);
      DetachOther(db, id, k);
    }
  }

  /** After `Detach` a reply list still names only stored comments whose
      parent owns the list: the removed comment was listed by its parent only,
      and that list lost it. */
  lemma DetachKeepsReplyListsSound(db: Db, id: CommentId)
    requires Valid(db) && id in db.comments
    ensures ReplyListsSound(Detach(db, id))
  {
    forall p | p in Detach(db, id).comments
      ensures forall k :: k in Detach(db, id).comments[p].replies ==>
                k in Detach(db, id).comments && Detach(db, id).comments[k].parent == Some(p)
    {
      DetachRepliesSound(db, id, p);
    }
  }

  /** Every entry of one reply list left after `Detach` names a stored comment
      whose parent is the list's owner. */
  lemma DetachRepliesSound(db: Db, id: CommentId, p: CommentId)
    requires Valid(db) && id in db.comments
    requires p in Detach(db, id).comments
    ensures forall k :: k in Detach(db, id).comments[p].replies ==>
              k in Detach(db, id).comments && Detach(db, id).comments[k].parent == Some(p)
  {
    var c := db.comments[id];
    DetachOther(db, id, p);
    var replies := db.comments[p].replies;
    if Some(p) == c.parent {
      assert Linked(replies, db.nextCommentId);
      RemoveFirstUnique(replies, id);
    }
    forall k | k in Detach(db, id).comments[p].replies
      ensures k in Detach(db, id).comments && Detach(db, id).comments[k].parent == Some(p)
    {
      assert k in replies && k != id;
      assert k in Unlink(db.comments, id, c.parent);
    }
  }

  /** What `Detach` does to a stored comment other than the removed one: only
      the parent of the removed comment changes, and only in its replies. */
  lemma DetachOther(db: Db, id: CommentId, k: CommentId)
    requires id in db.comments && db.comments[id].video in db.videos
    requires k in Detach(db, id).comments
    ensures k in db.comments && k != id
    ensures var c := db.comments[id];
            Detach(db, id).comments[k] ==
              if Some(k) == c.parent then db.comments[k].(replies := RemoveFirst(db.comments[k].replies, id))
              else db.comments[k]
  {
  }

  /** After `Detach` no list holds an id twice or one not yet handed out. */
  lemma DetachKeepsListsLinked(db: Db, id: CommentId)
    requires Valid(db) && id in db.comments
    ensures ListsLinked(Detach(db, id))
  {
    var c := db.comments[id];
    var db' := Detach(db, id);
    var list := db.videos[c.video].comments;
    assert Linked(list, db.nextCommentId);
    RemoveFirstUnique(list, id);
    forall v | v in db'.videos ensures Linked(db'.videos[v].comments, db'.nextCommentId) {
      assert Linked(db.videos[v].comments, db.nextCommentId);
    }
    forall k | k in db'.comments ensures Linked(db'.comments[k].replies, db'.nextCommentId) {
      DetachOther(db, id, k);
      var before := db.comments[k];
      assert Linked(before.replies, db.nextCommentId);
      if Some(k) == c.parent {
        RemoveFirstUnique(before.replies, id);
      }
    }
  }

  /** After `Detach` every comment left is still listed by its video and by
      its parent when that parent is left. */
  lemma DetachKeepsListsComplete(db: Db, id: CommentId)
    requires Valid(db) && id in db.comments
    ensures ListsComplete(Detach(db, id))
  {
    var c := db.comments[id];
    var db' := Detach(db, id);
    var list := db.videos[c.video].comments;
    assert Linked(list, db.nextCommentId);
    RemoveFirstUnique(list, id);
    forall k | k in db'.comments
      ensures db'.comments[k].video in db'.videos
      ensures k in db'.videos[db'.comments[k].video].comments
    {
      DetachOther(db, id, k);
      assert k in db.videos[db.comments[k].video].comments;
    }
    DetachKeepsRepliesListed(db, id);
  }

  /** Every reply left after `Detach` whose parent is left is still listed by
      that parent. */
  lemma DetachKeepsRepliesListed(db: Db, id: CommentId)
    requires Valid(db) && id in db.comments
    ensures var db' := Detach(db, id);
            forall k :: k in db'.comments && db'.comments[k].parent.Some? && db'.comments[k].parent.value in db'.comments ==>
              k in db'.comments[db'.comments[k].parent.value].replies
  {
    var c := db.comments[id];
    var db' := Detach(db, id);
    forall k | k in db'.comments && db'.comments[k].parent.Some? && db'.comments[k].parent.value in db'.comments
      ensures k in db'.comments[db'.comments[k].parent.value].replies
    {
      DetachOther(db, id, k);
      var q := db'.comments[k].parent.value;
      DetachOther(db, id, q);
      assert k in db.comments[q].replies;
      if Some(q) == c.parent {
        assert Linked(db.comments[q].replies, db.nextCommentId);
        RemoveFirstUnique(db.comments[q].replies, id);
      }
    }
  }

  /** Adding a comment and letting its author delete it again gives back the
      store as it was, except that the used id is not handed out again. */
  lemma AddThenDeleteRestores(db: Db, req: CommentRequest, now: Timestamp)
    requires Valid(db)
    requires AddComment(db, req, now).Ok?
    ensures var (db', id) := AddComment(db, req, now).value;
            Valid(db') && DeleteComment(db', id, req.user) == Ok(db.(nextCommentId := db.nextCommentId + 1))
  {
    AddCommentKeepsValid(db, req, now);
    var id := db.nextCommentId;
    assert Linked(db.videos[req.video].comments, id);
    assert req.parent.Some? ==> Linked(db.comments[req.parent.value].replies, id);
    DetachUndoesAdd(db, req, now);
  }

  /** Unlinking and removing a just-added comment undoes the addition, when the
      new id occurred in none of the lists it is unlinked from. */
  lemma DetachUndoesAdd(db: Db, req: CommentRequest, now: Timestamp)
    requires AddComment(db, req, now).Ok?
    requires db.nextCommentId !in db.comments
    requires db.nextCommentId !in db.videos[req.video].comments
    requires req.parent.Some? ==> db.nextCommentId !in db.comments[req.parent.value].replies
    ensures Detach(AddComment(db, req, now).value.0, db.nextCommentId) == db.(nextCommentId := db.nextCommentId + 1)
  {
    var db' := AddComment(db, req, now).value.0;
    var after := Detach(db', db.nextCommentId);
    DetachUndoesAddVideos(db, req, now);
    DetachUndoesAddComments(db, req, now);
    assert after.users == db.users && after.ratings == db.ratings;
    assert after.nextCommentId == db.nextCommentId + 1;
  }

  /** The video half of `DetachUndoesAdd`. */
  lemma DetachUndoesAddVideos(db: Db, req: CommentRequest, now: Timestamp)
    requires AddComment(db, req, now).Ok?
    requires db.nextCommentId !in db.videos[req.video].comments
    ensures Detach(AddComment(db, req, now).value.0, db.nextCommentId).videos == db.videos
  {
    var (db', id) := AddComment(db, req, now).value;
    assert db'.comments[id].video == req.video;
    var video := db.videos[req.video];
    var appended := db'.videos[req.video];
    assert appended == video.(comments := video.comments + [id]);
    RemoveFirstAppended(video.comments, id);
    assert appended.(comments := RemoveFirst(appended.comments, id)) == video;
    assert db'.videos[req.video := video] == db.videos;
  }

  /** The arena half of `DetachUndoesAdd`. */
  lemma DetachUndoesAddComments(db: Db, req: CommentRequest, now: Timestamp)
    requires AddComment(db, req, now).Ok?
    requires db.nextCommentId !in db.comments
    requires req.parent.Some? ==> db.nextCommentId !in db.comments[req.parent.value].replies
    ensures Detach(AddComment(db, req, now).value.0, db.nextCommentId).comments == db.comments
  {
    var (db', id) := AddComment(db, req, now).value;
    var unlinked := Unlink(db'.comments, id, req.parent);
    assert db'.comments[id].parent == req.parent;
    if req.parent.Some? {
      var p := req.parent.value;
      RemoveFirstAppended(db.comments[p].replies, id);
      assert unlinked == db'.comments[p := db.comments[p]];
    }
    assert unlinked - {id} == db.comments;
  }

  /** Removing a value that was appended to a list that did not hold it gives
      back the list. */
  lemma {:induction false} RemoveFirstAppended(s: seq<CommentId>, x: CommentId)
    requires x !in s
    ensures RemoveFirst(s + [x], x) == s
  {
    if s == [] {
      assert [] + [x] == [x];
    } else {
      assert (s + [x])[1..] == s[1..] + [x];
      RemoveFirstAppended(s[1..], x);
      assert [s[0]] + s[1..] == s;
    }
  }
}
