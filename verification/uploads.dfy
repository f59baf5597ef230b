/** The upload controller's decisions with the I/O taken out: which request is
    rejected and with what status, whether the media gateway is called (and
    with which folder), and which user's avatar changes. The media gateway is a
    function argument; the security context is an optional principal. */
module Uploads {
  import opened Model

  const ROLE_ADMIN: string := "ROLE_ADMIN"
  const VIDEO_PREFIX: string := "video/"
  const IMAGE_PREFIX: string := "image/"
  /** 100 MiB, the largest accepted video, in bytes. */
  const MAX_VIDEO_BYTES: nat := 100 * 1024 * 1024
  /** 10 MiB, the largest accepted thumbnail, in bytes. */
  const MAX_THUMBNAIL_BYTES: nat := 10 * 1024 * 1024

  /** The authenticated caller: its user id and granted authorities. A missing
      or non-user authentication, or a failure reading it, is `None`. */
  datatype Principal = Principal(id: UserId, authorities: set<string>)

  /** A multipart file as far as the controller looks at it. */
  datatype UploadFile = UploadFile(contentType: Option<string>, size: nat)

  /** The gateway folder an upload goes to. */
  datatype Folder = Avatars | Videos | Thumbnails

  /** What the media gateway answers: the stored file's secure URL and public
      id, or a transport failure. */
  datatype GatewayReply = Uploaded(secureUrl: string, publicId: string) | IoFailure

  /** Why a request was answered 400. */
  datatype Reason = NoTargetUser | UserNotFound | UploadError | WrongType | TooLarge | UrlRequired

  datatype Body = AvatarChanged(avatarUrl: string, userId: UserId) | Stored(url: string, publicId: string)

  /** The HTTP answer: 200 with a body, 400, 403 or 401. */
  datatype Status = Success(body: Body) | BadRequest(reason: Reason) | Forbidden | Unauthorized

  /** The answer to a media upload and the folder the gateway was called with,
      if it was called. */
  datatype Exchange = Exchange(status: Status, uploadedTo: Option<Folder>)

  /** The answer to an avatar request, the gateway call, and the users afterwards. */
  datatype AvatarExchange = AvatarExchange(status: Status, uploadedTo: Option<Folder>, users: map<UserId, User>)

  // ---------------------------------------------------------------------------
  // Avatars

  /** Records `url` as the avatar of `target` and answers with it, or answers
      400 when `target` is not a user. */
  function SetAvatar(users: map<UserId, User>, target: UserId, url: string, uploadedTo: Option<Folder>): (r: AvatarExchange)
    ensures r.uploadedTo == uploadedTo
    ensures r.status.Success? <==> target in users
    ensures target !in users ==> r.status == BadRequest(UserNotFound) && r.users == users
    ensures target in users ==>
              && r.status == Success(AvatarChanged(url, target))
              && r.users.Keys == users.Keys
              && r.users[target].avatar == Some(url)
              && (forall u :: u in users && u != target ==> r.users[u] == users[u])
  {
    if target in users then
      AvatarExchange(Success(AvatarChanged(url, target)), uploadedTo, users[target := users[target].(avatar := Some(url))])
    else
      AvatarExchange(BadRequest(UserNotFound), uploadedTo, users)
  }

  /** Sends the file to the gateway's avatar folder first, and only then looks
      the target user up. */
  function UploadAvatarTo(users: map<UserId, User>, target: UserId, file: UploadFile,
                          gateway: (UploadFile, Folder) -> GatewayReply): (r: AvatarExchange)
    ensures r.uploadedTo == Some(Avatars)
    ensures r.status.Success? <==> gateway(file, Avatars).Uploaded? && target in users
    ensures gateway(file, Avatars).IoFailure? ==> r.status == BadRequest(UploadError) && r.users == users
    ensures gateway(file, Avatars).Uploaded? && target !in users ==> r.status == BadRequest(UserNotFound) && r.users == users
    ensures r.status.Success? ==>
              var url := gateway(file, Avatars).secureUrl;
              && r.status == Success(AvatarChanged(url, target))
              && r.users.Keys == users.Keys
              && r.users[target].avatar == Some(url)
              && (forall u :: u in users && u != target ==> r.users[u] == users[u])
  {
    match gateway(file, Avatars)
    case IoFailure => AvatarExchange(BadRequest(UploadError), Some(Avatars), users)
    case Uploaded(url, _) => SetAvatar(users, target, url, Some(Avatars))
  }

  /** `uploadAvatar`: the target is the explicit user id if one is given, else
      the authenticated caller; with neither the request is refused before any
      upload. No permission check is made on an explicit id. */
  function UploadAvatar(users: map<UserId, User>, file: UploadFile, userId: Option<UserId>,
                        auth: Option<Principal>, gateway: (UploadFile, Folder) -> GatewayReply): (r: AvatarExchange)
    ensures userId.None? && auth.None? ==> r == AvatarExchange(BadRequest(NoTargetUser), None, users)
    ensures r.uploadedTo.Some? <==> userId.Some? || auth.Some?
    ensures userId.Some? ==> r == UploadAvatarTo(users, userId.value, file, gateway)
    ensures userId.None? && auth.Some? ==> r == UploadAvatarTo(users, auth.value.id, file, gateway)
    ensures !r.status.Success? ==> r.users == users
  {
    var target := if userId.Some? then userId else if auth.Some? then Some(auth.value.id) else None;
    if target.None? then AvatarExchange(BadRequest(NoTargetUser), None, users)
    else UploadAvatarTo(users, target.value, file, gateway)
  }

  /** Whether an authenticated caller may change the avatar of `target`: it is
      the caller's own, or the caller holds ROLE_ADMIN. */
  predicate MayChangeAvatar(p: Principal, target: UserId) {
    p.id == target || ROLE_ADMIN in p.authorities
  }

  /** `uploadAvatarForUser`: an authenticated caller who is neither the target
      nor an admin gets 403 before any upload; an unauthenticated caller is let
      through. */
  function UploadAvatarForUser(users: map<UserId, User>, file: UploadFile, userId: UserId,
                               auth: Option<Principal>, gateway: (UploadFile, Folder) -> GatewayReply): (r: AvatarExchange)
    ensures r.status == Forbidden <==> auth.Some? && !MayChangeAvatar(auth.value, userId)
    ensures r.status == Forbidden ==> r.uploadedTo == None && r.users == users
    ensures r.status != Forbidden ==> r == UploadAvatarTo(users, userId, file, gateway)
    ensures auth.None? ==> r.uploadedTo == Some(Avatars)
  {
    if auth.Some? && !MayChangeAvatar(auth.value, userId) then AvatarExchange(Forbidden, None, users)
    else UploadAvatarTo(users, userId, file, gateway)
  }

  /** `setAvatarUrl`: a missing or empty URL is 400 before authentication is
      looked at; then an unauthenticated caller gets 401; otherwise the caller's
      own avatar becomes exactly the given URL. The gateway is never called. */
  function SetAvatarUrl(users: map<UserId, User>, avatarUrl: Option<string>, auth: Option<Principal>): (r: AvatarExchange)
    ensures r.uploadedTo == None
    ensures avatarUrl.None? || avatarUrl.value == [] ==> r.status == BadRequest(UrlRequired)
    ensures avatarUrl.Some? && avatarUrl.value != [] && auth.None? ==> r.status == Unauthorized
    ensures r.status.Success? <==> avatarUrl.Some? && avatarUrl.value != [] && auth.Some? && auth.value.id in users
    ensures !r.status.Success? ==> r.users == users
    ensures r.status.Success? ==>
              && r.status == Success(AvatarChanged(avatarUrl.value, auth.value.id))
              && r.users == users[auth.value.id := users[auth.value.id].(avatar := avatarUrl)]
  {
    if avatarUrl.None? || avatarUrl.value == [] then AvatarExchange(BadRequest(UrlRequired), None, users)
    else if auth.None? then AvatarExchange(Unauthorized, None, users)
    else SetAvatar(users, auth.value.id, avatarUrl.value, None)
  }

  // ---------------------------------------------------------------------------
  // Videos and thumbnails

  /** The content type is present and starts with `prefix`. */
  predicate HasType(file: UploadFile, prefix: string) {
    file.contentType.Some? && prefix <= file.contentType.value
  }

  /** Checks a media file: first its content type, then its size. */
  function CheckMedia(file: UploadFile, prefix: string, maxBytes: nat): (r: Option<Reason>)
    ensures r == None <==> HasType(file, prefix) && file.size <= maxBytes
    ensures r == Some(WrongType) <==> !HasType(file, prefix)
    ensures r == Some(TooLarge) <==> HasType(file, prefix) && file.size > maxBytes
  {
    if !HasType(file, prefix) then Some(WrongType)
    else if file.size > maxBytes then Some(TooLarge)
    else None
  }

  /** Validates a media file and only then hands it to the gateway; the answer
      carries the gateway's URL and public id. */
  function UploadMedia(file: UploadFile, prefix: string, maxBytes: nat, folder: Folder,
                       gateway: (UploadFile, Folder) -> GatewayReply): (r: Exchange)
    ensures !HasType(file, prefix) ==> r == Exchange(BadRequest(WrongType), None)
    ensures HasType(file, prefix) && file.size > maxBytes ==> r == Exchange(BadRequest(TooLarge), None)
    ensures r.uploadedTo.Some? <==> HasType(file, prefix) && file.size <= maxBytes
    ensures r.uploadedTo.Some? ==> r.uploadedTo == Some(folder)
    ensures r.status.Success? <==> r.uploadedTo.Some? && gateway(file, folder).Uploaded?
    ensures r.status.Success? ==>
              r.status.body == Stored(gateway(file, folder).secureUrl, gateway(file, folder).publicId)
    ensures r.uploadedTo.Some? && gateway(file, folder).IoFailure? ==> r.status == BadRequest(UploadError)
  {
    match CheckMedia(file, prefix, maxBytes)
    case Some(reason) => Exchange(BadRequest(reason), None)
    case None =>
      match gateway(file, folder)
      case IoFailure => Exchange(BadRequest(UploadError), Some(folder))
      case Uploaded(url, publicId) => Exchange(Success(Stored(url, publicId)), Some(folder))
  }

  /** `uploadVideo`: `video/` files of at most 100 MiB go to the videos folder. */
  function UploadVideo(file: UploadFile, gateway: (UploadFile, Folder) -> GatewayReply): (r: Exchange)
    ensures !HasType(file, VIDEO_PREFIX) ==> r == Exchange(BadRequest(WrongType), None)
    ensures HasType(file, VIDEO_PREFIX) && file.size > MAX_VIDEO_BYTES ==> r == Exchange(BadRequest(TooLarge), None)
    ensures r.uploadedTo.Some? <==> HasType(file, VIDEO_PREFIX) && file.size <= 104857600
    ensures r.uploadedTo.Some? ==> r.uploadedTo == Some(Videos)
    ensures r.status.Success? <==> r.uploadedTo.Some? && gateway(file, Videos).Uploaded?
  {
    UploadMedia(file, VIDEO_PREFIX, MAX_VIDEO_BYTES, Videos, gateway)
  }

  /** `uploadThumbnail`: `image/` files of at most 10 MiB go to the thumbnails folder. */
  function UploadThumbnail(file: UploadFile, gateway: (UploadFile, Folder) -> GatewayReply): (r: Exchange)
    ensures !HasType(file, IMAGE_PREFIX) ==> r == Exchange(BadRequest(WrongType), None)
    ensures HasType(file, IMAGE_PREFIX) && file.size > MAX_THUMBNAIL_BYTES ==> r == Exchange(BadRequest(TooLarge), None)
    ensures r.uploadedTo.Some? <==> HasType(file, IMAGE_PREFIX) && file.size <= 10485760
    ensures r.uploadedTo.Some? ==> r.uploadedTo == Some(Thumbnails)
    ensures r.status.Success? <==> r.uploadedTo.Some? && gateway(file, Thumbnails).Uploaded?
  {
    UploadMedia(file, IMAGE_PREFIX, MAX_THUMBNAIL_BYTES, Thumbnails, gateway)
  }

  // ---------------------------------------------------------------------------
  // Properties across requests

  /** A plain-text file sent as a video is refused without calling the gateway,
      whatever its size; a video of exactly 100 MiB is sent on, one byte more is not. */
  lemma VideoLimits(gateway: (UploadFile, Folder) -> GatewayReply, size: nat)
    ensures UploadVideo(UploadFile(Some("text/plain"), size), gateway) == Exchange(BadRequest(WrongType), None)
    ensures UploadVideo(UploadFile(Some("video/mp4"), 104857600), gateway).uploadedTo == Some(Videos)
    ensures UploadVideo(UploadFile(Some("video/mp4"), 104857601), gateway) == Exchange(BadRequest(TooLarge), None)
    ensures UploadVideo(UploadFile(None, size), gateway) == Exchange(BadRequest(WrongType), None)
  {
    assert "text/plain"[0] != VIDEO_PREFIX[0];
    assert VIDEO_PREFIX <= "video/mp4";
  }

  /** A thumbnail of exactly 10 MiB is sent on, one byte more is not, and a
      video file is not a thumbnail. */
  lemma ThumbnailLimits(gateway: (UploadFile, Folder) -> GatewayReply, size: nat)
    ensures UploadThumbnail(UploadFile(Some("image/png"), 10485760), gateway).uploadedTo == Some(Thumbnails)
    ensures UploadThumbnail(UploadFile(Some("image/png"), 10485761), gateway) == Exchange(BadRequest(TooLarge), None)
    ensures UploadThumbnail(UploadFile(Some("video/mp4"), size), gateway) == Exchange(BadRequest(WrongType), None)
  {
    assert IMAGE_PREFIX <= "image/png";
    assert "video/mp4"[0] != IMAGE_PREFIX[0];
  }

  /** Both avatar uploads call the gateway before looking the user up: for a
      user that does not exist the file is still uploaded, the answer is 400
      and no avatar changes. */
  lemma AvatarUploadPrecedesLookup(users: map<UserId, User>, file: UploadFile, target: UserId,
                                   auth: Option<Principal>, gateway: (UploadFile, Folder) -> GatewayReply)
    requires target !in users
    requires auth.None? || MayChangeAvatar(auth.value, target)
    ensures var r := UploadAvatar(users, file, Some(target), auth, gateway);
            r.uploadedTo == Some(Avatars) && !r.status.Success? && r.users == users
    ensures var r := UploadAvatarForUser(users, file, target, auth, gateway);
            r.uploadedTo == Some(Avatars) && !r.status.Success? && r.users == users
  {
  }

  /** An avatar request changes at most one user's avatar and no user's
      presence: the target of a successful request, which is the explicit id,
      else the caller. */
  lemma AvatarChangesOnlyTarget(users: map<UserId, User>, file: UploadFile, userId: Option<UserId>,
                                auth: Option<Principal>, gateway: (UploadFile, Folder) -> GatewayReply, other: UserId)
    requires var r := UploadAvatar(users, file, userId, auth, gateway);
             r.status.Success? && other in users && other != r.status.body.userId
    ensures var r := UploadAvatar(users, file, userId, auth, gateway);
            && r.users.Keys == users.Keys
            && r.users[other] == users[other]
            && r.status.body.userId == (if userId.Some? then userId.value else auth.value.id)
  {
  }

  /** The two avatar routes disagree on permissions: an authenticated caller
      who is not an admin is refused another user's avatar on the path-scoped
      route, yet changes it through the explicit `userId` parameter of the
      other route. */
  lemma ExplicitUserIdSkipsPermission(users: map<UserId, User>, file: UploadFile, p: Principal, target: UserId,
                                      gateway: (UploadFile, Folder) -> GatewayReply)
    requires p.id != target && ROLE_ADMIN !in p.authorities
    requires target in users && gateway(file, Avatars).Uploaded?
    ensures UploadAvatarForUser(users, file, target, Some(p), gateway).status == Forbidden
    ensures var r := UploadAvatar(users, file, Some(target), Some(p), gateway);
            r.status.Success? && r.users[target].avatar == Some(gateway(file, Avatars).secureUrl)
  {
  }

  /** Setting an avatar URL directly has the outcome of uploading the caller's
      own avatar when the gateway stores the file under that URL, without the
      gateway call. */
  lemma SetAvatarUrlAgreesWithUpload(users: map<UserId, User>, file: UploadFile, p: Principal, url: string,
                                     publicId: string, gateway: (UploadFile, Folder) -> GatewayReply)
    requires url != []
    requires gateway(file, Avatars) == Uploaded(url, publicId)
    ensures var direct := SetAvatarUrl(users, Some(url), Some(p));
            var uploaded := UploadAvatar(users, file, None, Some(p), gateway);
            && direct.status == uploaded.status
            && direct.users == uploaded.users
            && direct.uploadedTo == None
            && uploaded.uploadedTo == Some(Avatars)
  {
  }

  /** Setting the same avatar URL twice has the effect of setting it once. */
  lemma SetAvatarUrlIdempotent(users: map<UserId, User>, avatarUrl: Option<string>, auth: Option<Principal>)
    ensures var once := SetAvatarUrl(users, avatarUrl, auth);
            SetAvatarUrl(once.users, avatarUrl, auth) == once
  {
    var once := SetAvatarUrl(users, avatarUrl, auth);
    if once.status.Success? {
      var id := auth.value.id;
      assert once.users[id := once.users[id].(avatar := avatarUrl)] == once.users;
    }
  }
}
