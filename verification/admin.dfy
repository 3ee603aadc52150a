/**
 The admin panel's decision logic: the admin login, suspending and
 unsuspending accounts, moderating community posts, the author shown next to
 each post, and the system statistics. Replies are the outcome the panel
 reports (as a status code, a flash message or a redirect); rendering, flash
 messages and the audit log are not modelled.
 */
module Admin {
  import opened Common
  import opened Text
  import opened Coll
  import opened UserModel
  import opened CommunityPost
  import opened ReminderModel

  // ---------------------------------------------------------------------------
  // handleLogin
  // ---------------------------------------------------------------------------

  datatype AdminLoginReply =
    | AdminMissingFields
    | AdminUnknownOrNotAdmin
    | AdminSuspended
    | AdminWrongPassword
    | AdminLoggedIn(adminId: Id)
  {
    /** A refusal renders the login page again; a login redirects to the dashboard. */
    function Status(): nat {
      match this
      case AdminLoggedIn(_) => 302
      case _ => 200
    }
  }

  /** `findOne({ email })`: the first account of any role with this email. */
  function AccountByEmail(users: seq<User>, email: string): (r: Option<User>)
    ensures r.Some? ==> r.value in users && r.value.email == Some(email)
    ensures r.None? <==> forall j :: 0 <= j < |users| ==> users[j].email != Some(email)
  {
    match FirstIndex(users, HasEmail(email))
    case None => None
    case Some(k) => Some(users[k])
  }

  /**
   The checks in order: both fields given, the account exists and is an
   admin, it is not suspended, the password matches. Only an account that
   passes all four is logged in.
   */
  function HandleLogin(users: seq<User>, email: Option<string>, password: Option<string>,
                       matches: (string, string) -> bool): (r: AdminLoginReply)
    ensures r.AdminMissingFields? <==> !Truthy(email) || !Truthy(password)
    ensures r.AdminUnknownOrNotAdmin? <==>
      Truthy(email) && Truthy(password) && (AccountByEmail(users, email.value).None? || AccountByEmail(users, email.value).value.role != Admin)
    ensures r.AdminSuspended? <==>
      && Truthy(email) && Truthy(password) && AccountByEmail(users, email.value).Some?
      && AccountByEmail(users, email.value).value.role == Admin && AccountByEmail(users, email.value).value.isSuspended
    ensures r.AdminLoggedIn? <==>
      && Truthy(email) && Truthy(password) && AccountByEmail(users, email.value).Some?
      && var u := AccountByEmail(users, email.value).value;
      && u.role == Admin && !u.isSuspended && matches(password.value, u.password)
    ensures r.AdminLoggedIn? ==> r.adminId == AccountByEmail(users, email.value).value.id
  {
    if !Truthy(email) || !Truthy(password) then AdminMissingFields
    else match AccountByEmail(users, email.value)
      case None => AdminUnknownOrNotAdmin
      case Some(u) =>
        if u.role != Admin then AdminUnknownOrNotAdmin
        else if u.isSuspended then AdminSuspended
        else if !matches(password.value, u.password) then AdminWrongPassword
        else AdminLoggedIn(u.id)
  }

  /** A suspended admin is refused whatever password it presents, so the password check never decides for it. */
  lemma SuspendedAdminRefusedAnyPassword(users: seq<User>, email: string, p1: string, p2: string,
                                         matches: (string, string) -> bool)
    requires p1 != "" && p2 != ""
    requires AccountByEmail(users, email).Some? && AccountByEmail(users, email).value.isSuspended
    ensures HandleLogin(users, Some(email), Some(p1), matches) == HandleLogin(users, Some(email), Some(p2), matches)
    ensures !HandleLogin(users, Some(email), Some(p1), matches).AdminLoggedIn?
  {
  }

  // ---------------------------------------------------------------------------
  // toggleUserSuspension
  // ---------------------------------------------------------------------------

  datatype ToggleReply = ToggleFailed | ToggleNotFound | ToggleForbidden | Toggled(isSuspended: bool)
  {
    function Status(): nat {
      match this
      case ToggleFailed => 500
      case ToggleNotFound => 404
      case ToggleForbidden => 403
      case Toggled(_) => 200
    }
  }

  datatype ToggleStep = ToggleStep(users: seq<User>, reply: ToggleReply)

  /**
   Flips the suspension flag of a parent or sub-account. An admin account is
   refused; an id that is not an ObjectId makes the lookup throw, and so does
   a save the schema validators refuse.
   */
  function ToggleUserSuspension(users: seq<User>, userId: string): (r: ToggleStep)
    ensures r.reply.ToggleFailed? <==>
      || !ValidObjectId(userId)
      || (&& FindUser(users, CastId(userId)).Some?
          && users[FindUser(users, CastId(userId)).value].role != Admin
          && !ValidUser(users[FindUser(users, CastId(userId)).value]))
    ensures r.reply.ToggleNotFound? <==> ValidObjectId(userId) && FindUser(users, CastId(userId)).None?
    ensures r.reply.ToggleForbidden? <==>
      ValidObjectId(userId) && FindUser(users, CastId(userId)).Some? && users[FindUser(users, CastId(userId)).value].role == Admin
    ensures r.reply.Toggled? ==>
      && ValidObjectId(userId) && FindUser(users, CastId(userId)).Some?
      && var k := FindUser(users, CastId(userId)).value;
      && users[k].role != Admin
      && r.reply.isSuspended == !users[k].isSuspended
      && r.users == users[k := users[k].(isSuspended := !users[k].isSuspended)]
    ensures !r.reply.Toggled? ==> r.users == users
  {
    if !ValidObjectId(userId) then ToggleStep(users, ToggleFailed)
    else match FindUser(users, CastId(userId))
      case None => ToggleStep(users, ToggleNotFound)
      case Some(k) =>
        var u := users[k];
        if u.role == Admin then ToggleStep(users, ToggleForbidden)
        else
          var u' := u.(isSuspended := !u.isSuspended);
          if !ValidUser(u') then ToggleStep(users, ToggleFailed)
          else ToggleStep(users[k := u'], Toggled(u'.isSuspended))
  }

  /** Toggling the same account twice gives back the collection it started from. */
  lemma ToggleTwiceIsIdentity(users: seq<User>, userId: string)
    requires ToggleUserSuspension(users, userId).reply.Toggled?
    ensures var once := ToggleUserSuspension(users, userId).users;
            ToggleUserSuspension(once, userId).reply.Toggled?
            && ToggleUserSuspension(once, userId).users == users
  {
    var id := CastId(userId);
    var k := FindUser(users, id).value;
    var u' := users[k].(isSuspended := !users[k].isSuspended);
    FirstIndexUpdate(users, k, u', HasId(id));
    assert users[k := u'][k := u'.(isSuspended := !u'.isSuspended)] == users;
  }

  // ---------------------------------------------------------------------------
  // Post moderation: approvePost, rejectPost, updatePost, bulkDeletePosts
  // ---------------------------------------------------------------------------

  const DefaultRejectionReason := "Không có lý do cụ thể."

  /** Every outcome redirects back to the post list with a flash message. */
  datatype ModerationReply = ModerationFailed | PostMissing | PostUnchanged | PostModerated(post: Post)
  {
    function Status(): nat {
      302
    }
  }

  datatype ModerationStep = ModerationStep(posts: seq<Post>, reply: ModerationReply)

  /** `findById(postId)`: the first post with this id. */
  function FindPost(posts: seq<Post>, postId: Id): Option<nat> {
    FirstIndex(posts, HasPostId(postId))
  }

  /** Replace the post at `k` by `p`, provided the save's validators accept it. */
  function SavePost(posts: seq<Post>, k: nat, p: Post): (r: ModerationStep)
    requires k < |posts|
    ensures r.reply.PostModerated? <==> ValidPost(p)
    ensures r.reply.PostModerated? ==> r.posts == posts[k := p] && r.reply.post == p
    ensures !r.reply.PostModerated? ==> r == ModerationStep(posts, ModerationFailed)
  {
    if ValidPost(p) then ModerationStep(posts[k := p], PostModerated(p)) else ModerationStep(posts, ModerationFailed)
  }

  /** A post carries a rejection reason exactly when it is rejected. */
  predicate ReasonMatchesStatus(p: Post) {
    p.rejectionReason.Some? <==> p.status == Rejected
  }

  /**
   Approving makes a post active and clears its rejection reason; an active
   post is left alone. An id that cannot be cast, or a post the validators
   refuse, ends in the catch.
   */
  function ApprovePost(posts: seq<Post>, postId: string): (r: ModerationStep)
    ensures r.reply.ModerationFailed? <==>
      || !ValidObjectId(postId)
      || (&& FindPost(posts, CastId(postId)).Some?
          && posts[FindPost(posts, CastId(postId)).value].status != Active
          && !ValidPost(posts[FindPost(posts, CastId(postId)).value]))
    ensures r.reply.PostMissing? <==> ValidObjectId(postId) && FindPost(posts, CastId(postId)).None?
    ensures r.reply.PostUnchanged? <==>
      ValidObjectId(postId) && FindPost(posts, CastId(postId)).Some? && posts[FindPost(posts, CastId(postId)).value].status == Active
    ensures r.reply.PostModerated? ==>
      && ValidObjectId(postId) && FindPost(posts, CastId(postId)).Some?
      && var k := FindPost(posts, CastId(postId)).value;
      && posts[k].status != Active
      && r.posts == posts[k := r.reply.post]
      && r.reply.post.(status := posts[k].status, rejectionReason := posts[k].rejectionReason) == posts[k]
      && r.reply.post.status == Active && ReasonMatchesStatus(r.reply.post)
    ensures !r.reply.PostModerated? ==> r.posts == posts
  {
    if !ValidObjectId(postId) then ModerationStep(posts, ModerationFailed)
    else match FindPost(posts, CastId(postId))
      case None => ModerationStep(posts, PostMissing)
      case Some(k) =>
        if posts[k].status == Active then ModerationStep(posts, PostUnchanged)
        else SavePost(posts, k, posts[k].(status := Active, rejectionReason := None))
  }

  /** Rejecting records the given reason, or the default one; a rejected post is left alone. */
  function RejectPost(posts: seq<Post>, postId: string, reason: Option<string>): (r: ModerationStep)
    ensures r.reply.ModerationFailed? <==>
      || !ValidObjectId(postId)
      || (&& FindPost(posts, CastId(postId)).Some?
          && posts[FindPost(posts, CastId(postId)).value].status != Rejected
          && !ValidPost(posts[FindPost(posts, CastId(postId)).value]))
    ensures r.reply.PostMissing? <==> ValidObjectId(postId) && FindPost(posts, CastId(postId)).None?
    ensures r.reply.PostUnchanged? <==>
      ValidObjectId(postId) && FindPost(posts, CastId(postId)).Some? && posts[FindPost(posts, CastId(postId)).value].status == Rejected
    ensures r.reply.PostModerated? ==>
      && ValidObjectId(postId) && FindPost(posts, CastId(postId)).Some?
      && var k := FindPost(posts, CastId(postId)).value;
      && posts[k].status != Rejected
      && r.posts == posts[k := r.reply.post]
      && r.reply.post.(status := posts[k].status, rejectionReason := posts[k].rejectionReason) == posts[k]
      && r.reply.post.status == Rejected && ReasonMatchesStatus(r.reply.post)
      && (Truthy(reason) ==> r.reply.post.rejectionReason == reason)
      && (!Truthy(reason) ==> r.reply.post.rejectionReason == Some(DefaultRejectionReason))
    ensures !r.reply.PostModerated? ==> r.posts == posts
  {
    if !ValidObjectId(postId) then ModerationStep(posts, ModerationFailed)
    else match FindPost(posts, CastId(postId))
      case None => ModerationStep(posts, PostMissing)
      case Some(k) =>
        if posts[k].status == Rejected then ModerationStep(posts, PostUnchanged)
        else SavePost(posts, k, posts[k].(status := Rejected, rejectionReason := Some(OrElse(reason, DefaultRejectionReason))))
  }

  /** Approving (or rejecting) twice in a row changes nothing the second time. */
  lemma ModerationIsIdempotent(posts: seq<Post>, postId: string, reason: Option<string>)
    ensures var once := ApprovePost(posts, postId).posts;
            ApprovePost(once, postId).posts == once
    ensures var once := RejectPost(posts, postId, reason).posts;
            RejectPost(once, postId, reason).posts == once
  {
    if ValidObjectId(postId) && FindPost(posts, CastId(postId)).Some? {
      var id := CastId(postId);
      var k := FindPost(posts, id).value;
      FirstIndexUpdate(posts, k, posts[k].(status := Active, rejectionReason := None), HasPostId(id));
      FirstIndexUpdate(posts, k, posts[k].(status := Rejected, rejectionReason := Some(OrElse(reason, DefaultRejectionReason))),
                       HasPostId(id));
    }
  }

  /**
   The fields an admin edit may carry; enums arrive as strings and are checked
   by the update validators. The rejection reason is read with `||`, so a
   missing and a `null` one are alike.
   */
  datatype AdminPostEdit = AdminPostEdit(
    content: Field<string>,
    mediaUrls: Field<seq<string>>,
    visibility: Field<string>,
    status: Field<string>,
    rejectionReason: Option<string>)

  /**
   The update validators accept the supplied values. A `null` content fails
   the required validator, and a `null` visibility or status fails its enum;
   an empty content fails the required validator too.
   */
  predicate EditAcceptable(e: AdminPostEdit) {
    && (!e.visibility.Absent? ==> e.visibility.Given? && ParseVisibility(e.visibility.value).Some?)
    && (!e.status.Absent? ==> e.status.Given? && ParseStatus(e.status.value).Some?)
    && (!e.content.Absent? ==> e.content.Given? && e.content.value != "")
  }

  /**
   The post an accepted edit produces: supplied fields replace the stored
   ones (a `null` media list is stored as `null`); a status of "rejected" sets
   the reason (given or default) and any other edit clears it.
   */
  function EditedPost(p: Post, e: AdminPostEdit): (r: Post)
    requires EditAcceptable(e)
    ensures r.(content := p.content, mediaUrls := p.mediaUrls, visibility := p.visibility, status := p.status,
               rejectionReason := p.rejectionReason) == p
    ensures e.content.Absent? ==> r.content == p.content
    ensures e.content.Given? ==> r.content == e.content.value
    ensures e.mediaUrls.Absent? ==> r.mediaUrls == p.mediaUrls
    ensures e.mediaUrls.Null? ==> r.mediaUrls.None?
    ensures e.mediaUrls.Given? ==> r.mediaUrls == Some(e.mediaUrls.value)
    ensures e.visibility.Absent? ==> r.visibility == p.visibility
    ensures e.status.Absent? ==> r.status == p.status
    ensures e.status.Given? ==> StatusName(r.status) == e.status.value
    ensures e.visibility.Given? ==> VisibilityName(r.visibility) == e.visibility.value
    ensures r.rejectionReason.Some? <==> e.status == Given("rejected")
    ensures r.rejectionReason.Some? ==> r.rejectionReason.value == OrElse(e.rejectionReason, DefaultRejectionReason)
    ensures ValidPost(p) ==> ValidPost(r)
  {
    p.(content := if e.content.Given? then e.content.value else p.content,
       mediaUrls := AssignDefined(e.mediaUrls, p.mediaUrls),
       visibility := if e.visibility.Given? then ParseVisibility(e.visibility.value).value else p.visibility,
       status := if e.status.Given? then ParseStatus(e.status.value).value else p.status,
       rejectionReason := if e.status == Given("rejected") then Some(OrElse(e.rejectionReason, DefaultRejectionReason)) else None)
  }

  /**
   `findByIdAndUpdate(postId, fields, { runValidators: true })`. The update
   validators check only the supplied paths, so a stored post is not
   re-validated as a whole.
   */
  function UpdatePost(posts: seq<Post>, postId: string, e: AdminPostEdit): (r: ModerationStep)
    ensures r.reply.ModerationFailed? <==> !ValidObjectId(postId) || !EditAcceptable(e)
    ensures r.reply.PostMissing? <==> ValidObjectId(postId) && EditAcceptable(e) && FindPost(posts, CastId(postId)).None?
    ensures !r.reply.PostUnchanged?
    ensures r.reply.PostModerated? ==>
      && ValidObjectId(postId) && EditAcceptable(e) && FindPost(posts, CastId(postId)).Some?
      && var k := FindPost(posts, CastId(postId)).value;
      && r.posts == posts[k := r.reply.post]
      && r.reply.post == EditedPost(posts[k], e)
    ensures !r.reply.PostModerated? ==> r.posts == posts
  {
    if !ValidObjectId(postId) || !EditAcceptable(e) then ModerationStep(posts, ModerationFailed)
    else match FindPost(posts, CastId(postId))
      case None => ModerationStep(posts, PostMissing)
      case Some(k) =>
        var p := EditedPost(posts[k], e);
        ModerationStep(posts[k := p], PostModerated(p))
  }

  /**
   The status/reason law an edit keeps: an edit that sets a status leaves the
   post with a reason exactly when it is rejected, while an edit without a
   status clears the reason even of a rejected post.
   */
  lemma UpdatePostReasonLaw(posts: seq<Post>, postId: string, e: AdminPostEdit)
    requires UpdatePost(posts, postId, e).reply.PostModerated?
    ensures e.status.Given? ==> ReasonMatchesStatus(UpdatePost(posts, postId, e).reply.post)
    ensures e.status.Absent? ==> UpdatePost(posts, postId, e).reply.post.rejectionReason.None?
  {
    var p := UpdatePost(posts, postId, e).reply.post;
    if e.status.Given? {
      assert p.status == Rejected <==> e.status.value == "rejected" by {
        assert StatusName(p.status) == e.status.value;
      }
    }
  }

  /** The `postIdsToDelete` form field after `JSON.parse`. */
  datatype ParsedIds = Unparsable | NotAnArray | IdArray(ids: seq<string>)

  /** Every outcome redirects back to the post list with a flash message. */
  datatype BulkDeleteReply = BulkInvalidData | BulkNothingSelected | BulkFailed | BulkNoneFound | BulkDeleted(count: nat)
  {
    function Status(): nat {
      302
    }
  }

  datatype BulkDeleteStep = BulkDeleteStep(posts: seq<Post>, reply: BulkDeleteReply)

  predicate AllObjectIds(ids: seq<string>) {
    forall i :: 0 <= i < |ids| ==> ValidObjectId(ids[i])
  }

  /** The ObjectIds `$in` compares with. */
  function CastIds(ids: seq<string>): (r: seq<Id>)
    requires AllObjectIds(ids)
    ensures |r| == |ids| && forall i :: 0 <= i < |ids| ==> r[i] == CastId(ids[i])
  {
    seq(|ids|, i requires 0 <= i < |ids| => CastId(ids[i]))
  }

  /** `{ _id: { $in: ids } }` */
  function IdIn(ids: seq<Id>): Post -> bool {
    (p: Post) => p.id in ids
  }

  /** `{ _id: { $nin: ids } }` */
  function IdNotIn(ids: seq<Id>): Post -> bool {
    (p: Post) => p.id !in ids
  }

  /**
   Deletes every post whose id is listed. Unparsable data, a non-array and an
   empty array delete nothing; a listed id that is not an ObjectId makes the
   whole query fail.
   */
  function BulkDeletePosts(posts: seq<Post>, parsed: ParsedIds): (r: BulkDeleteStep)
    ensures r.reply.BulkInvalidData? <==> parsed.Unparsable?
    ensures r.reply.BulkNothingSelected? <==> parsed.NotAnArray? || parsed == IdArray([])
    ensures r.reply.BulkFailed? <==> parsed.IdArray? && parsed.ids != [] && !AllObjectIds(parsed.ids)
    ensures r.reply.BulkNoneFound? <==>
      parsed.IdArray? && parsed.ids != [] && AllObjectIds(parsed.ids) && Count(posts, IdIn(CastIds(parsed.ids))) == 0
    ensures r.reply.BulkDeleted? <==>
      parsed.IdArray? && parsed.ids != [] && AllObjectIds(parsed.ids) && Count(posts, IdIn(CastIds(parsed.ids))) > 0
    ensures r.reply.BulkDeleted? ==>
      && r.reply.count == Count(posts, IdIn(CastIds(parsed.ids)))
      && r.posts == Select(posts, IdNotIn(CastIds(parsed.ids)))
      && |r.posts| == |posts| - r.reply.count
    ensures !r.reply.BulkDeleted? ==> r.posts == posts
  {
    match parsed
    case Unparsable => BulkDeleteStep(posts, BulkInvalidData)
    case NotAnArray => BulkDeleteStep(posts, BulkNothingSelected)
    case IdArray(ids) =>
      if ids == [] then BulkDeleteStep(posts, BulkNothingSelected)
      else if !AllObjectIds(ids) then BulkDeleteStep(posts, BulkFailed)
      else
        var n := Count(posts, IdIn(CastIds(ids)));
        if n == 0 then BulkDeleteStep(posts, BulkNoneFound)
        else
          RemoveWhereSelectsComplement(posts, IdIn(CastIds(ids)), IdNotIn(CastIds(ids)));
          BulkDeleteStep(RemoveWhere(posts, IdIn(CastIds(ids))), BulkDeleted(n))
  }

  /** After a bulk delete no listed post remains, and every unlisted post does. */
  lemma BulkDeleteRemovesExactlyListed(posts: seq<Post>, ids: seq<string>, x: Post)
    requires BulkDeletePosts(posts, IdArray(ids)).reply.BulkDeleted?
    ensures x in BulkDeletePosts(posts, IdArray(ids)).posts <==> x in posts && x.id !in CastIds(ids)
  {
  }

  // ---------------------------------------------------------------------------
  // getAllPosts: the author shown with each post
  // ---------------------------------------------------------------------------

  const AnonymousName := "Ẩn danh"

  /** The author fields the listing populates; `username` and `avatar_url` are not schema paths but are read if stored. */
  datatype AuthorFields = AuthorFields(
    id: Id,
    fullname: Option<string>,
    username: Option<string>,
    email: Option<string>,
    avatarUrl: Option<string>,
    image: Option<string>)

  datatype AuthorView = AuthorView(id: Id, fullname: string, image: string)

  datatype PostView = PostView(post: Post, user: Option<AuthorView>, fullname: string, image: string)

  /** The first non-empty of fullname, username and email, else the anonymous name. */
  function DisplayName(a: AuthorFields): (r: string)
    ensures r != ""
    ensures r == AnonymousName || Some(r) in [a.fullname, a.username, a.email]
    ensures Truthy(a.fullname) ==> r == a.fullname.value
    ensures !Truthy(a.fullname) && Truthy(a.username) ==> r == a.username.value
    ensures !Truthy(a.fullname) && !Truthy(a.username) && Truthy(a.email) ==> r == a.email.value
  {
    OrElse(a.fullname, OrElse(a.username, OrElse(a.email, AnonymousName)))
  }

  /** The first non-empty of avatar_url and image, else "". */
  function DisplayImage(a: AuthorFields): (r: string)
    ensures r == "" || Some(r) in [a.avatarUrl, a.image]
    ensures Truthy(a.avatarUrl) ==> r == a.avatarUrl.value
    ensures !Truthy(a.avatarUrl) ==> r == OrElse(a.image, "")
  {
    OrElse(a.avatarUrl, OrElse(a.image, ""))
  }

  /** The author fields of a stored account, as the populate projection returns them. */
  function AuthorOf(u: User): AuthorFields {
    AuthorFields(u.id, u.fullname, None, u.email, None, u.image)
  }

  /** One listing entry: a post whose author is gone is shown as anonymous with no image. */
  function ViewPost(p: Post, author: Option<AuthorFields>): (r: PostView)
    ensures r.post == p
    ensures r.fullname != ""
    ensures author.None? ==> r.user.None? && r.fullname == AnonymousName && r.image == ""
    ensures author.Some? ==> r.user == Some(AuthorView(author.value.id, r.fullname, r.image))
    ensures author.Some? ==> r.fullname == DisplayName(author.value) && r.image == DisplayImage(author.value)
  {
    match author
    case None => PostView(p, None, AnonymousName, "")
    case Some(a) =>
      var v := AuthorView(a.id, DisplayName(a), DisplayImage(a));
      PostView(p, Some(v), v.fullname, v.image)
  }

  function CreatedAt(p: Post): int {
    p.createdAt
  }

  /** A post shown with the author `populate` finds for it, if that account still exists. */
  function ViewWithAuthor(p: Post, users: seq<User>): (r: PostView)
    ensures r.post == p && r.fullname != ""
    ensures FindUser(users, p.author).None? ==> r.user.None? && r.fullname == AnonymousName && r.image == ""
    ensures FindUser(users, p.author).Some? ==>
      && var u := users[FindUser(users, p.author).value];
      && r.user == Some(AuthorView(u.id, r.fullname, r.image))
      && r.fullname == OrElse(u.fullname, OrElse(u.email, AnonymousName))
      && r.image == OrElse(u.image, "")
  {
    ViewPost(p, match FindUser(users, p.author)
                case None => None
                case Some(k) => Some(AuthorOf(users[k])))
  }

  /** The posts a listing shows, in listing order. */
  function PostsOf(views: seq<PostView>): (r: seq<Post>)
    ensures |r| == |views| && forall i :: 0 <= i < |views| ==> r[i] == views[i].post
  {
    seq(|views|, i requires 0 <= i < |views| => views[i].post)
  }

  /** The moderation listing: every post, newest first, each with its author's display fields. */
  function ListPostsForAdmin(posts: seq<Post>, users: seq<User>): (r: seq<PostView>)
    ensures |r| == |posts|
    ensures multiset(PostsOf(r)) == multiset(posts)
    ensures forall i :: 0 <= i < |r| ==> r[i] == ViewWithAuthor(r[i].post, users)
    ensures forall i, j :: 0 <= i < j < |r| ==> r[i].post.createdAt >= r[j].post.createdAt
  {
    var sorted := SortDesc(posts, CreatedAt);
    assert |sorted| == |multiset(sorted)| == |posts|;
    var r := seq(|sorted|, i requires 0 <= i < |sorted| => ViewWithAuthor(sorted[i], users));
    assert PostsOf(r) == sorted;
    r
  }

  // ---------------------------------------------------------------------------
  // getSystemStatistics
  // ---------------------------------------------------------------------------

  datatype Statistics = Statistics(
    mainParents: nat, subUsers: nat, totalUsers: nat,
    approvedPosts: nat, pendingPosts: nat, rejectedPosts: nat, totalPosts: nat,
    completedReminders: nat, totalReminders: nat,
    childrenManaged: nat)

  /** `{ is_completed: true }` */
  function ReminderDone(r: Reminder): bool {
    r.isCompleted == Some(true)
  }

  /**
   The counters of the statistics page. The number of upcoming reminders is
   left out (it depends on the current time); the number of children is
   passed in, since the child collection is not modelled.
   */
  function SystemStatistics(users: seq<User>, posts: seq<Post>, reminders: seq<Reminder>, children: nat): (r: Statistics)
    ensures r.mainParents == Count(users, HasRole(Parent)) && r.subUsers == Count(users, HasRole(Subuser))
    ensures r.approvedPosts == Count(posts, HasStatus(Active))
    ensures r.pendingPosts == Count(posts, HasStatus(AwaitingReview))
    ensures r.rejectedPosts == Count(posts, HasStatus(Rejected))
    ensures r.completedReminders == Count(reminders, ReminderDone)
    ensures r.totalUsers == r.mainParents + r.subUsers
    ensures r.totalUsers + Count(users, HasRole(Admin)) == |users|
    ensures r.approvedPosts + r.pendingPosts + r.rejectedPosts == r.totalPosts == |posts|
    ensures r.completedReminders <= r.totalReminders == |reminders|
    ensures r.childrenManaged == children
  {
    RolesPartitionUsers(users);
    StatusesPartitionPosts(posts);
    var parents := Count(users, HasRole(Parent));
    var subs := Count(users, HasRole(Subuser));
    Statistics(parents, subs, parents + subs,
               Count(posts, HasStatus(Active)), Count(posts, HasStatus(AwaitingReview)), Count(posts, HasStatus(Rejected)), |posts|,
               Count(reminders, ReminderDone), |reminders|, children)
  }

  /** Every account has exactly one of the three roles. */
  lemma {:induction false} RolesPartitionUsers(users: seq<User>)
    ensures Count(users, HasRole(Parent)) + Count(users, HasRole(Subuser)) + Count(users, HasRole(Admin)) == |users|
  {
    if |users| > 0 {
      RolesPartitionUsers(users[1..]);
    }
  }

  /** Every post has exactly one of the three statuses. */
  lemma {:induction false} StatusesPartitionPosts(posts: seq<Post>)
    ensures Count(posts, HasStatus(Active)) + Count(posts, HasStatus(AwaitingReview)) + Count(posts, HasStatus(Rejected)) == |posts|
  {
    if |posts| > 0 {
      StatusesPartitionPosts(posts[1..]);
    }
  }
}
