/**
 The feed post handlers, all behind `protect`; approval additionally behind
 `restrictTo('admin')`. The caller is the `id` and `role` of the decoded
 token. A malformed id anywhere in a query or update makes the handler
 answer 500; a well-formed one is compared as the ObjectId it casts to.
 */
module Feed {
  import opened Common
  import opened Coll
  import opened FeedPost

  datatype Step<R> = Step(posts: seq<FeedPost>, reply: R)

  /** `FeedCreated` is the 201 of a create; `FeedSaved` the plain 200 of an update or approval. */
  datatype FeedReply = FeedFailed | FeedNotFound | FeedForbidden | FeedCreated(post: FeedPost) | FeedSaved(post: FeedPost) | FeedDeleted
  {
    function Status(): nat {
      match this
      case FeedFailed => 500
      case FeedNotFound => 404
      case FeedForbidden => 403
      case FeedCreated(_) => 201
      case FeedSaved(_) => 200
      case FeedDeleted => 200
    }
  }

  // ---------------------------------------------------------------------------
  // createPost
  // ---------------------------------------------------------------------------

  /**
   A new post by the caller: content is required (a missing, `null` or empty
   one fails); a missing level defaults to "family", while a `null` level
   fails the enum like any string outside it; the status starts "pending"
   and no approver is recorded.
   */
  function CreateFeedPost(posts: seq<FeedPost>, caller: Id, content: Option<string>, level: Field<string>,
                          newId: Id, now: int): (r: Step<FeedReply>)
    ensures r.reply.FeedCreated? <==>
      ValidObjectId(caller) && Truthy(content) && (level.Absent? || (level.Given? && IsLevel(level.value)))
    ensures r.reply.FeedCreated? ==>
      && r.posts == posts + [r.reply.post]
      && r.reply.post.id == newId && r.reply.post.createdAt == now
      && r.reply.post.content == content
      && r.reply.post.level == Some(if level.Given? then level.value else Family)
      && r.reply.post.status == Some(Pending)
      && r.reply.post.createdBy == Some(CastId(caller))
      && r.reply.post.approvedBy.None?
      && ValidFeedPost(r.reply.post)
    ensures !r.reply.FeedCreated? ==> r.reply == FeedFailed && r.posts == posts
  {
    if !ValidObjectId(caller) || !Truthy(content) || level.Null? || (level.Given? && !IsLevel(level.value)) then
      Step(posts, FeedFailed)
    else
      var p := FeedPost(newId, content, Some(Coalesce(NonNull(level), Family)), Some(Pending), Some(CastId(caller)), None, now);
      Step(posts + [p], FeedCreated(p))
  }

  // ---------------------------------------------------------------------------
  // getAllPosts
  // ---------------------------------------------------------------------------

  /** The query: with a level, only approved posts of that level; without one, every post. */
  function FeedFilter(level: Option<string>): FeedPost -> bool {
    if Truthy(level) then ApprovedAtLevel(level.value) else (p: FeedPost) => true
  }

  /** The listing, newest `createdAt` first. */
  function ListFeed(posts: seq<FeedPost>, level: Option<string>): (r: seq<FeedPost>)
    ensures SortedDesc(r, CreatedAt)
    ensures multiset(r) == multiset(Select(posts, FeedFilter(level)))
    ensures forall x :: x in r ==> x in posts
    ensures Truthy(level) ==> forall x :: x in r ==> x.level == level && x.status == Some(Approved)
  {
    var matching := Select(posts, FeedFilter(level));
    var sorted := SortDesc(matching, CreatedAt);
    assert forall x :: x in sorted ==> x in matching by {
      forall x | x in sorted ensures x in matching {
        assert x in multiset(sorted);
      }
    }
    sorted
  }

  /** Without a level every post is listed; with one, exactly the approved posts of that level. */
  lemma ListFeedMembers(posts: seq<FeedPost>, level: Option<string>, x: FeedPost)
    ensures !Truthy(level) ==> (x in ListFeed(posts, level) <==> x in posts)
    ensures Truthy(level) ==>
      (x in ListFeed(posts, level) <==> x in posts && x.level == level && x.status == Some(Approved))
  {
    var matching := Select(posts, FeedFilter(level));
    var r := ListFeed(posts, level);
    if x in posts && FeedFilter(level)(x) {
      var j :| 0 <= j < |posts| && posts[j] == x;
      assert x in matching;
      assert x in multiset(matching);
      assert x in multiset(r);
    }
  }

  // ---------------------------------------------------------------------------
  // updatePost
  // ---------------------------------------------------------------------------

  /**
   The request body, copied onto the caller's post without running the
   schema validators: any string is stored as level or status, `null` clears
   a path, and the ownership and approver ids can be rewritten too.
   */
  datatype FeedPatch = FeedPatch(
    content: Field<string>,
    level: Field<string>,
    status: Field<string>,
    createdBy: Field<string>,
    approvedBy: Field<string>)

  /** Every id the update or its filter carries casts to an ObjectId. */
  predicate PatchIdsCast(caller: Id, id: string, patch: FeedPatch) {
    && ValidObjectId(id) && ValidObjectId(caller)
    && (patch.createdBy.Given? ==> ValidObjectId(patch.createdBy.value))
    && (patch.approvedBy.Given? ==> ValidObjectId(patch.approvedBy.value))
  }

  /** An id path as the update writes it: a supplied id is stored as the ObjectId it casts to. */
  function AssignId(f: Field<string>, stored: Option<Id>): (r: Option<Id>)
    requires f.Given? ==> ValidObjectId(f.value)
    ensures f.Absent? ==> r == stored
    ensures f.Null? ==> r.None?
    ensures f.Given? ==> r == Some(CastId(f.value))
  {
    match f
    case Absent => stored
    case Null => None
    case Given(s) => Some(CastId(s))
  }

  /** Each path the body names is overwritten, `null` included; the id and the creation time never change. */
  function ApplyFeedPatch(p: FeedPost, patch: FeedPatch): (r: FeedPost)
    requires patch.createdBy.Given? ==> ValidObjectId(patch.createdBy.value)
    requires patch.approvedBy.Given? ==> ValidObjectId(patch.approvedBy.value)
    ensures r.id == p.id && r.createdAt == p.createdAt
    ensures patch.content.Absent? ==> r.content == p.content
    ensures !patch.content.Absent? ==> r.content == NonNull(patch.content)
    ensures patch.level.Absent? ==> r.level == p.level
    ensures !patch.level.Absent? ==> r.level == NonNull(patch.level)
    ensures patch.status.Absent? ==> r.status == p.status
    ensures !patch.status.Absent? ==> r.status == NonNull(patch.status)
    ensures patch.createdBy.Absent? ==> r.createdBy == p.createdBy
    ensures patch.createdBy.Null? ==> r.createdBy.None?
    ensures patch.createdBy.Given? ==> r.createdBy == Some(CastId(patch.createdBy.value))
    ensures patch.approvedBy.Absent? ==> r.approvedBy == p.approvedBy
    ensures patch.approvedBy.Null? ==> r.approvedBy.None?
    ensures patch.approvedBy.Given? ==> r.approvedBy == Some(CastId(patch.approvedBy.value))
  {
    p.(content := AssignDefined(patch.content, p.content),
       level := AssignDefined(patch.level, p.level),
       status := AssignDefined(patch.status, p.status),
       createdBy := AssignId(patch.createdBy, p.createdBy),
       approvedBy := AssignId(patch.approvedBy, p.approvedBy))
  }

  function UpdateFeedPost(posts: seq<FeedPost>, caller: Id, id: string, patch: FeedPatch): (r: Step<FeedReply>)
    ensures r.reply.FeedFailed? <==> !PatchIdsCast(caller, id, patch)
    ensures r.reply.FeedNotFound? <==>
      PatchIdsCast(caller, id, patch) && FirstIndex(posts, OwnedFeedPost(CastId(id), CastId(caller))).None?
    ensures r.reply.FeedSaved? <==>
      PatchIdsCast(caller, id, patch) && FirstIndex(posts, OwnedFeedPost(CastId(id), CastId(caller))).Some?
    ensures r.reply.FeedSaved? ==>
      && var k := FirstIndex(posts, OwnedFeedPost(CastId(id), CastId(caller))).value;
      && posts[k].createdBy == Some(CastId(caller))
      && r.reply.post == ApplyFeedPatch(posts[k], patch)
      && r.posts == posts[k := r.reply.post]
    ensures !r.reply.FeedCreated? && !r.reply.FeedDeleted?
    ensures !r.reply.FeedSaved? ==> r.posts == posts
    ensures |r.posts| == |posts|
    ensures ValidObjectId(caller) ==>
      forall j :: 0 <= j < |posts| && posts[j].createdBy != Some(CastId(caller)) ==> r.posts[j] == posts[j]
  {
    if !PatchIdsCast(caller, id, patch) then Step(posts, FeedFailed)
    else match FirstIndex(posts, OwnedFeedPost(CastId(id), CastId(caller)))
      case None => Step(posts, FeedNotFound)
      case Some(k) =>
        var p := ApplyFeedPatch(posts[k], patch);
        Step(posts[k := p], FeedSaved(p))
  }

  /**
   Because the body is copied unchecked, an author can approve their own post
   without the admin route, store a status outside the enum, and clear the
   recorded approver with `null`.
   */
  lemma AuthorCanBypassModeration(posts: seq<FeedPost>, caller: Id, id: string, status: string)
    requires ValidObjectId(id) && ValidObjectId(caller)
    requires FirstIndex(posts, OwnedFeedPost(CastId(id), CastId(caller))).Some?
    ensures var r := UpdateFeedPost(posts, caller, id, FeedPatch(Absent, Absent, Given(status), Absent, Absent));
      && r.reply.FeedSaved? && r.reply.post.status == Some(status)
      && r.reply.post.approvedBy == posts[FirstIndex(posts, OwnedFeedPost(CastId(id), CastId(caller))).value].approvedBy
      && (!IsStatus(status) ==> !ValidFeedPost(r.reply.post))
    ensures var r := UpdateFeedPost(posts, caller, id, FeedPatch(Absent, Absent, Absent, Absent, Null));
      r.reply.FeedSaved? && r.reply.post.approvedBy.None?
  {
  }

  // ---------------------------------------------------------------------------
  // approvePost
  // ---------------------------------------------------------------------------

  function ApproveFeedPost(posts: seq<FeedPost>, caller: Id, id: string): (r: Step<FeedReply>)
    ensures r.reply.FeedFailed? <==> !ValidObjectId(id) || !ValidObjectId(caller)
    ensures r.reply.FeedNotFound? <==>
      ValidObjectId(id) && ValidObjectId(caller) && FirstIndex(posts, HasFeedId(CastId(id))).None?
    ensures r.reply.FeedSaved? <==>
      ValidObjectId(id) && ValidObjectId(caller) && FirstIndex(posts, HasFeedId(CastId(id))).Some?
    ensures r.reply.FeedSaved? ==>
      && var k := FirstIndex(posts, HasFeedId(CastId(id))).value;
      && r.reply.post.(status := posts[k].status, approvedBy := posts[k].approvedBy) == posts[k]
      && r.reply.post.status == Some(Approved) && r.reply.post.approvedBy == Some(CastId(caller))
      && r.posts == posts[k := r.reply.post]
    ensures !r.reply.FeedCreated? && !r.reply.FeedForbidden? && !r.reply.FeedDeleted?
    ensures !r.reply.FeedSaved? ==> r.posts == posts
  {
    if !ValidObjectId(id) || !ValidObjectId(caller) then Step(posts, FeedFailed)
    else match FirstIndex(posts, HasFeedId(CastId(id)))
      case None => Step(posts, FeedNotFound)
      case Some(k) =>
        var p := posts[k].(status := Some(Approved), approvedBy := Some(CastId(caller)));
        Step(posts[k := p], FeedSaved(p))
  }

  /** Approving twice by the same admin stores what approving once stored. */
  lemma ApproveIsIdempotent(posts: seq<FeedPost>, caller: Id, id: string)
    ensures var once := ApproveFeedPost(posts, caller, id).posts;
            ApproveFeedPost(once, caller, id).posts == once
  {
    if ValidObjectId(id) && ValidObjectId(caller) && FirstIndex(posts, HasFeedId(CastId(id))).Some? {
      var k := FirstIndex(posts, HasFeedId(CastId(id))).value;
      FirstIndexUpdate(posts, k, posts[k].(status := Some(Approved), approvedBy := Some(CastId(caller))), HasFeedId(CastId(id)));
    }
  }

  // ---------------------------------------------------------------------------
  // deletePost
  // ---------------------------------------------------------------------------

  const AdminRole: string := "admin"

  /**
   The author or an admin may delete; anyone else is refused. Ownership
   compares the stored author's `toString()` (lower-case hexadecimal) with the
   caller id exactly as the token carries it.
   */
  predicate MayDelete(p: FeedPost, caller: Id, callerRole: Option<string>)
    requires p.createdBy.Some?
  {
    p.createdBy.value == caller || callerRole == Some(AdminRole)
  }

  /**
   `findById`, then the ownership check. A post whose author path is `null`
   makes `createdBy.toString()` throw before the admin check is reached.
   */
  function DeleteFeedPost(posts: seq<FeedPost>, caller: Id, callerRole: Option<string>, id: string): (r: Step<FeedReply>)
    ensures r.reply.FeedFailed? <==>
      !ValidObjectId(id) || (FirstIndex(posts, HasFeedId(CastId(id))).Some? && posts[FirstIndex(posts, HasFeedId(CastId(id))).value].createdBy.None?)
    ensures r.reply.FeedNotFound? <==> ValidObjectId(id) && FirstIndex(posts, HasFeedId(CastId(id))).None?
    ensures r.reply.FeedForbidden? <==>
      && ValidObjectId(id) && FirstIndex(posts, HasFeedId(CastId(id))).Some?
      && var p := posts[FirstIndex(posts, HasFeedId(CastId(id))).value];
      && p.createdBy.Some? && !MayDelete(p, caller, callerRole)
    ensures r.reply.FeedDeleted? ==>
      && ValidObjectId(id) && FirstIndex(posts, HasFeedId(CastId(id))).Some?
      && var k := FirstIndex(posts, HasFeedId(CastId(id))).value;
      && posts[k].createdBy.Some? && MayDelete(posts[k], caller, callerRole)
      && r.posts == RemoveAt(posts, k)
    ensures !r.reply.FeedSaved? && !r.reply.FeedCreated?
    ensures !r.reply.FeedDeleted? ==> r.posts == posts
  {
    if !ValidObjectId(id) then Step(posts, FeedFailed)
    else match FirstIndex(posts, HasFeedId(CastId(id)))
      case None => Step(posts, FeedNotFound)
      case Some(k) =>
        if posts[k].createdBy.None? then Step(posts, FeedFailed)
        else if MayDelete(posts[k], caller, callerRole) then Step(RemoveAt(posts, k), FeedDeleted)
        else Step(posts, FeedForbidden)
  }

  /**
   The owner test is verbatim: a caller whose token spells the author's id in
   upper case is not the owner, although the same spelling finds the post.
   */
  lemma OwnerTestIsCaseSensitive(p: FeedPost, caller: Id)
    requires p.createdBy.Some? && IsObjectIdHex(p.createdBy.value)
    requires exists i :: 0 <= i < |caller| && 'A' <= caller[i] <= 'F'
    ensures !MayDelete(p, caller, None)
  {
    var i :| 0 <= i < |caller| && 'A' <= caller[i] <= 'F';
    assert !IsLowerHexDigit(caller[i]);
  }

  /** A caller who is neither author nor admin never removes another user's post. */
  lemma NonAdminDeletesOnlyOwnPosts(posts: seq<FeedPost>, caller: Id, callerRole: Option<string>, id: string)
    requires callerRole != Some(AdminRole)
    ensures var r := DeleteFeedPost(posts, caller, callerRole, id).posts;
      forall x :: x in posts && x.createdBy != Some(caller) ==> x in r
  {
    var s := DeleteFeedPost(posts, caller, callerRole, id);
    if s.reply.FeedDeleted? {
      var k := FirstIndex(posts, HasFeedId(CastId(id))).value;
      forall x | x in posts && x.createdBy != Some(caller) ensures x in s.posts {
        var j :| 0 <= j < |posts| && posts[j] == x;
        assert j != k;
        if j < k { assert s.posts[j] == x; } else { assert s.posts[j - 1] == x; }
      }
    }
  }

  /** Creating, approving and deleting keep every stored post within the schema's enums. */
  lemma ModerationKeepsPostsValid(posts: seq<FeedPost>, caller: Id, callerRole: Option<string>, id: string,
                                  content: Option<string>, level: Field<string>, newId: Id, now: int)
    requires forall j :: 0 <= j < |posts| ==> ValidFeedPost(posts[j])
    ensures var r := CreateFeedPost(posts, caller, content, level, newId, now).posts;
      forall j :: 0 <= j < |r| ==> ValidFeedPost(r[j])
    ensures var r := ApproveFeedPost(posts, caller, id).posts;
      forall j :: 0 <= j < |r| ==> ValidFeedPost(r[j])
    ensures var r := DeleteFeedPost(posts, caller, callerRole, id).posts;
      forall j :: 0 <= j < |r| ==> ValidFeedPost(r[j])
  {
    var d := DeleteFeedPost(posts, caller, callerRole, id);
    if d.reply.FeedDeleted? {
      var k := FirstIndex(posts, HasFeedId(CastId(id))).value;
      forall j | 0 <= j < |d.posts| ensures ValidFeedPost(d.posts[j]) {
        if j < k { assert d.posts[j] == posts[j]; } else { assert d.posts[j] == posts[j + 1]; }
      }
    }
  }
}
