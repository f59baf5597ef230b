# Comments, ratings and uploads of a video-sharing backend, in Dafny

This project models three pieces of a Spring video-sharing backend:

- the comment rating engine (`CommentRatingService`);
- the comment tree manager (`CommentService`);
- the decision logic of the upload controller (`FileUploadController`).

Each one is a pure transition over an immutable store. The store is
`Model.Db`, which holds maps from ids to users, videos and comments, a
rating table and a comment-id allocator. One `@Transactional` service call
becomes one function from store to `Result`. An exception in the source
becomes an `Err`, and the store is left as it was.

- `model.dfy` (`Model`): ids, entities, errors, the store and its integrity
  predicate `Valid`. `Valid` is made of `Allocated`, `ListsComplete`,
  `VideoListsSound`, `ReplyListsSound` and `ListsLinked`. It also has
  `RemoveFirst`, the `List.remove(Object)` that the delete path uses.
- `ratings.dfy` (`Ratings`): `rateComment`, `getCommentRating` and
  `deleteRating`. The rating table is `map<(UserId, CommentId), RatingValue>`,
  so one (user, comment) pair has at most one rating by construction. Likes
  and dislikes are *derived*. They are the number of rows of that comment
  holding `Like` or `Dislike` (`Ratings.TallyOf`), never stored counters. So
  the counts agree with the rows in every state, including after the branch
  that changes a value in place. That branch touches no counter in the source.
- `comments.dfy` (`Comments`): adding, listing, fetching and deleting
  comments over an arena indexed by id. Each comment has an optional parent
  id and a list of reply ids; the reply list mirrors the parent links. A
  reply's parent is not required to lie on the same video, and the source
  does not check it either.
- `uploads.dfy` (`Uploads`): `uploadAvatar`, `uploadAvatarForUser`,
  `setAvatarUrl`, `uploadVideo` and `uploadThumbnail`. Each answer records
  whether the media gateway was called, and with which folder. That makes
  "rejected before any upload" something a contract can state.

In these places the code behaves in ways worth noting, and the model
follows it:

- The code answers 400 (not 404) when the avatar's target user is missing
  or the gateway fails.
- `setAvatarUrl` checks the URL (400) before it checks authentication (401).
- The code never checks that a reply's parent is on the same video.
- `uploadAvatar` applies no permission check to an explicit `userId`. An
  authenticated non-admin can change another user's avatar through it,
  though `uploadAvatarForUser` refuses exactly that request with 403
  (`Uploads.ExplicitUserIdSkipsPermission`).

## Model

| member | source | states |
|---|---|---|
| `Model.RemoveFirst` | be/src/main/java/com/example/hcmiuweb/services/CommentService.java:124-130 | Removing an element from a list drops one occurrence of it, if there is one, and keeps every other element (a multiset difference); the list is one shorter exactly when the element was in it. |
| `Model.RemoveFirstIsSplice` | be/src/main/java/com/example/hcmiuweb/services/CommentService.java:124-130 | The occurrence removed is the first one: the elements before it and after it stay, in their order. |
| `Model.RemoveFirstUnique` | be/src/main/java/com/example/hcmiuweb/services/CommentService.java:124-130 | On a duplicate-free list, the removed element is gone, the others stay, and the list stays duplicate-free. |
| `Ratings.RateComment` | be/src/main/java/com/example/hcmiuweb/services/CommentRatingService.java:34-96 | A missing user or comment fails first and changes nothing. Otherwise: no prior rating creates one with the requested value; the same value removes it; a different value replaces it. No other row and no other part of the store changes. The answer is the comment's tally afterwards. |
| `Ratings.GetCommentRating` | be/src/main/java/com/example/hcmiuweb/services/CommentRatingService.java:98-108 | Fails only when the comment is missing; otherwise answers the comment's like and dislike counts. It is read-only. |
| `Ratings.DeleteRating` | be/src/main/java/com/example/hcmiuweb/services/CommentRatingService.java:110-119 | Removes just the (user, comment) row. Without such a row the store is unchanged. |
| `Ratings.CountAfterRemove` | be/src/main/java/com/example/hcmiuweb/services/CommentRatingService.java:53-56 | Removing a rating row takes exactly one vote from that row's comment and value and none from any other bucket. |
| `Ratings.CountAfterPut` | be/src/main/java/com/example/hcmiuweb/services/CommentRatingService.java:81-87 | Writing a rating row adds exactly one vote to its comment and value, on top of the rows without that key. |
| `Ratings.RateCommentTally` | be/src/main/java/com/example/hcmiuweb/services/CommentRatingService.java:47-95 | A first rating adds one vote to its bucket. A repeated one takes one away. A changed one moves one vote from the old bucket to the new one. |
| `Ratings.RateCommentKeepsOtherTallies` | be/src/main/java/com/example/hcmiuweb/services/CommentRatingService.java:44-95 | Rating one comment leaves every other comment's likes and dislikes unchanged. |
| `Ratings.RateTwiceRestores` | be/src/main/java/com/example/hcmiuweb/services/CommentRatingService.java:48-88 | Toggle: with no prior rating, rating twice with the same value gives back the original store and tally. |
| `Ratings.RateThriceRepeatsFirst` | be/src/main/java/com/example/hcmiuweb/services/CommentRatingService.java:48-95 | A third identical rating reproduces the first one's effect and answer. |
| `Ratings.RateThenGet` | be/src/main/java/com/example/hcmiuweb/services/CommentRatingService.java:62-107 | The tally a rating answers with is what a following `getCommentRating` reports. |
| `Ratings.DeleteRatingIdempotent` | be/src/main/java/com/example/hcmiuweb/services/CommentRatingService.java:110-119 | Deleting a rating twice is the same as deleting it once. |
| `Ratings.DeleteRatingIsToggleOff` | be/src/main/java/com/example/hcmiuweb/services/CommentRatingService.java:110-119 | Deleting an existing rating has the effect of the toggle-off path of rating, and removes one vote from that rating's bucket. |
| `Ratings.RateCommentKeepsValid` | be/src/main/java/com/example/hcmiuweb/services/CommentRatingService.java:36-95 | A successful rating keeps the store consistent: the only row it can add names a stored comment, so its id came from the allocator. |
| `Ratings.DeleteRatingKeepsValid` | be/src/main/java/com/example/hcmiuweb/services/CommentRatingService.java:110-119 | Deleting a rating keeps the store consistent. |
| `Ratings.RatingExample` | be/src/main/java/com/example/hcmiuweb/services/CommentRatingService.java:34-96 | Worked example: like, like again, another user's dislike, then a dislike answer 1/0, 0/0, 0/1 and 0/2. |
| `Comments.AddComment` | be/src/main/java/com/example/hcmiuweb/services/CommentService.java:36-66 | Fails for a missing user, then a missing video, then a named but missing parent, creating nothing. On success it stores a comment with the request's content, author, video and parent, and no replies, under the next id. The id is appended to the video's comment list and to the parent's replies. No other comment, video, user or rating changes. |
| `Comments.AddCommentKeepsValid` | be/src/main/java/com/example/hcmiuweb/services/CommentService.java:53-63 | The new id was not in use before, and the store stays consistent. Every comment is listed by its video and by its stored parent. Every list names only stored comments that belong there. No list holds an id twice. Every comment's video exists, and every id held, rating rows included, came from the allocator. |
| `Comments.AddedCommentHasNoRatings` | be/src/main/java/com/example/hcmiuweb/services/CommentService.java:53-63 | A comment just added has no rating row, so `getCommentRating` on it reports 0 likes and 0 dislikes to anyone. |
| `Comments.GetCommentById` | be/src/main/java/com/example/hcmiuweb/services/CommentService.java:106-111 | Answers the stored comment, or fails exactly when the id is missing. |
| `Comments.AddThenGet` | be/src/main/java/com/example/hcmiuweb/services/CommentService.java:53-60 | A comment just added is found by its id, with the request's content, author, video, parent and the given time. |
| `Comments.Select` | be/src/main/java/com/example/hcmiuweb/services/CommentService.java:68-103 | A repository query returns exactly the matching comments, each once, in ascending id order. |
| `Comments.GetAllComments` | be/src/main/java/com/example/hcmiuweb/services/CommentService.java:68-78 | Returns every comment without a parent and no reply, as an order-preserving selection of all comments. |
| `Comments.GetVideoComments` | be/src/main/java/com/example/hcmiuweb/services/CommentService.java:80-89 | Returns exactly the top-level comments of the video. An unknown video gives an empty list, not an error. |
| `Comments.GetUserComments` | be/src/main/java/com/example/hcmiuweb/services/CommentService.java:91-104 | Fails exactly when the user is missing. Otherwise returns every comment the user wrote, replies included. |
| `Comments.DetachComments` | be/src/main/java/com/example/hcmiuweb/services/CommentService.java:124-133 | Removing a comment drops only that comment from the arena. Only its parent's reply list changes, losing exactly that comment. |
| `Comments.DetachVideos` | be/src/main/java/com/example/hcmiuweb/services/CommentService.java:129-130 | Removing a comment changes only its own video's comment list, which loses exactly that comment. |
| `Comments.DeleteComment` | be/src/main/java/com/example/hcmiuweb/services/CommentService.java:113-134 | Fails when the comment is missing, and with "not authorized" (store unchanged) unless the requester is its author or its video's uploader. On success the comment leaves its parent's replies, its video's list and the arena. All other comments (its replies included), videos, users and ratings (its own included) stay as they were. |
| `Comments.DeleteCommentKeepsOrder` | be/src/main/java/com/example/hcmiuweb/services/CommentService.java:124-130 | The comment is listed by its video and by its stored parent, and the delete cuts it out of each list at that place, keeping the other ids in their order. |
| `Comments.DeleteOrphansReplies` | be/src/main/java/com/example/hcmiuweb/services/CommentService.java:113-133 | Deleting a comment does not cascade: its replies stay stored and still name it as their parent, its rating rows stay, and reading its rating fails afterwards. |
| `Comments.DeleteCommentKeepsValid` | be/src/main/java/com/example/hcmiuweb/services/CommentService.java:113-134 | A successful delete keeps the store consistent. |
| `Comments.DeleteLeavesNoReference` | be/src/main/java/com/example/hcmiuweb/services/CommentService.java:113-134 | After a successful delete no video's comment list and no reply list names the deleted comment. |
| `Comments.AddThenDeleteRestores` | be/src/main/java/com/example/hcmiuweb/services/CommentService.java:37-134 | Adding a comment and having its author delete it restores the store, except that the id is not reused. |
| `Comments.DetachUndoesAdd` | be/src/main/java/com/example/hcmiuweb/services/CommentService.java:124-130 | Unlinking a just-added comment undoes the appends to its video's list and to its parent's replies. |
| `Uploads.SetAvatar` | be/src/main/java/com/example/hcmiuweb/controllers/FileUploadController.java:70-85 | A missing user gives 400 and no change. Otherwise only that user's avatar changes, to the given URL. |
| `Uploads.UploadAvatarTo` | be/src/main/java/com/example/hcmiuweb/controllers/FileUploadController.java:66-85 | The gateway is always called, with the avatars folder, before the user lookup. A gateway failure or a missing user gives 400 with no user changed. On success only the target's avatar changes, to the gateway's secure URL. |
| `Uploads.UploadAvatar` | be/src/main/java/com/example/hcmiuweb/controllers/FileUploadController.java:40-90 | The target is the explicit user id, else the authenticated caller. With neither, the answer is 400 and there is no upload. |
| `Uploads.UploadAvatarForUser` | be/src/main/java/com/example/hcmiuweb/controllers/FileUploadController.java:92-142 | 403 with no upload exactly when the caller is authenticated, is not the target and lacks ROLE_ADMIN. An unauthenticated caller proceeds to the upload. |
| `Uploads.SetAvatarUrl` | be/src/main/java/com/example/hcmiuweb/controllers/FileUploadController.java:148-184 | A missing or empty URL gives 400 before authentication is checked. No authentication gives 401. On success only the caller's own avatar changes, to exactly that URL. The gateway is never called. |
| `Uploads.SetAvatarUrlAgreesWithUpload` | be/src/main/java/com/example/hcmiuweb/controllers/FileUploadController.java:45-90 | Setting an avatar URL for the caller has the answer and the effect on users of uploading the caller's avatar when the gateway stores the file under that URL, minus the gateway call. |
| `Uploads.SetAvatarUrlIdempotent` | be/src/main/java/com/example/hcmiuweb/controllers/FileUploadController.java:148-179 | Setting the same avatar URL twice answers and changes what setting it once does. |
| `Uploads.CheckMedia` | be/src/main/java/com/example/hcmiuweb/controllers/FileUploadController.java:195-205 | The content-type check comes before the size check. A size equal to the limit passes. |
| `Uploads.UploadMedia` | be/src/main/java/com/example/hcmiuweb/controllers/FileUploadController.java:194-224 | The gateway is called, with the given folder, exactly when both checks pass. The answer carries the gateway's URL and public id, or 400 on a gateway failure. |
| `Uploads.UploadVideo` | be/src/main/java/com/example/hcmiuweb/controllers/FileUploadController.java:192-225 | A null or non-`video/` type is refused before any upload, and so is a size over 104857600 bytes. Otherwise the file goes to the videos folder. |
| `Uploads.UploadThumbnail` | be/src/main/java/com/example/hcmiuweb/controllers/FileUploadController.java:233-266 | The same checks with `image/` and 10485760 bytes. Accepted files go to the thumbnails folder. |
| `Uploads.VideoLimits` | be/src/main/java/com/example/hcmiuweb/controllers/FileUploadController.java:196-205 | `text/plain` is refused as a video without an upload, whatever its size. Exactly 100 MiB is sent on; one byte more is refused. |
| `Uploads.ThumbnailLimits` | be/src/main/java/com/example/hcmiuweb/controllers/FileUploadController.java:237-246 | Exactly 10 MiB is sent on and one byte more is refused. A `video/` file is refused as a thumbnail. |
| `Uploads.AvatarUploadPrecedesLookup` | be/src/main/java/com/example/hcmiuweb/controllers/FileUploadController.java:118-137 | For a nonexistent target user, both avatar routes still call the gateway, then answer 400 and change no avatar. |
| `Uploads.AvatarChangesOnlyTarget` | be/src/main/java/com/example/hcmiuweb/controllers/FileUploadController.java:45-85 | A successful avatar upload targets the explicit id, else the caller, and leaves every other user as it was. |
| `Uploads.ExplicitUserIdSkipsPermission` | be/src/main/java/com/example/hcmiuweb/controllers/FileUploadController.java:45-137 | A request the path-scoped route refuses with 403 succeeds through the explicit `userId` of the other route. |

## Left out

- Persistence: JPA repositories, `save` and transactions are one atomic
  transition.
- Listing order: none of the three repository queries (`findAll`,
  `findByVideo_IdAndParentCommentIsNull`, `findByUser_Id`) promises an
  order. The model answers each in ascending id order, which is one of the
  orders they may return. Which comments are listed does not depend on it.
- Entity code that is not part of this model: the `Comment` constructor,
  `Comment.addRating`/`removeRating`, `Video.addComment`/`removeComment` and
  the rating value's Java type.
  - Rating values are `Like | Dislike`.
  - Counts are derived from the rating rows (see above).
  - `Video.addComment` appends to the list, and `removeComment` removes like
    `List.remove`.
  - A new comment starts with no replies.
  - A comment's reply list is the inverse of its replies' parent links, as a
    `mappedBy` collection is once loaded. So `addComment` appends the new id to
    its parent's replies; the source does this through the entity mapping,
    not in service code.
- Cascades on delete: whether deleting a comment also deletes its replies
  and ratings is decided by entity mappings that are not part of this
  model. The comment at CommentService.java:132 says the replies go too.
  The model takes the other choice: a delete orphans. The deleted comment's
  replies stay stored, with their parent id unchanged. Its rating rows stay
  in the table, where `getCommentRating` can no longer reach them. This is
  what the service code does by itself. `Comments.DeleteComment` and
  `Comments.DeleteOrphansReplies` prove it. A comment is unlinked from its
  parent only while the parent is still stored.
- The `currentUserId` argument and the recursive `CommentResponse`
  serialisation are left out. Listings return comment ids.
- The clock: `LocalDateTime.now()` is the `now` argument.
- The media gateway is a function argument `(UploadFile, Folder) -> GatewayReply`.
  Its network behaviour, and a null `secure_url` in its reply, are out.
- The security context: it becomes `Option<Principal>`, and a principal
  that is not a user is `None`. The two avatar upload routes catch an
  exception while reading the context and go on as if nobody were signed in
  (FileUploadController.java:49-57 and :96-116), so `None` models them
  exactly.
- `Uploads.SetAvatarUrl`: does not model an exception thrown while reading
  the security context (FileUploadController.java:157). There the read sits
  inside the route's `try`, so the source answers 400 through the generic
  catch at :180-183. The model reads that case as `None` and answers 401.
- Logging, the `ResponseEntity`/`MessageResponse` text and the rest of that
  generic `catch (Exception)` in `setAvatarUrl` are left out. Apart from the
  context read, the catch fires only when `findUserById` or `updateUser`
  throws (:166 and :170). Neither is part of this model.
- Concurrency between requests is out of scope.
- `Comments.DeleteComment`, `Comments.Select`, `Comments.GetAllComments`,
  `Comments.GetVideoComments` and `Comments.GetUserComments` require `Valid`,
  the store's referential integrity. The database guarantees it: every
  comment's video exists and lists it, a stored parent lists its replies,
  every list names only stored comments that belong there, and ids come
  from the allocator. `Valid` does not ask that a parent id or
  a rating's comment id be stored, because a delete orphans both.
- The frontend upload components and the asset lists mirror the server
  checks or hold only constants, and are not modelled.
