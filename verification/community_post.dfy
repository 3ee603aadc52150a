/**
 The community post document moderated from the admin panel (`PostSchema`,
 collection `posts`): its status and visibility enums, defaults and required
 paths.
 */
module CommunityPost {
  import opened Common

  datatype PostStatus = AwaitingReview | Active | Rejected

  function StatusName(s: PostStatus): string {
    match s
    case AwaitingReview => "pending"
    case Active => "active"
    case Rejected => "rejected"
  }

  /** The status enum: a string is accepted exactly when it names a status. */
  function ParseStatus(s: string): (r: Option<PostStatus>)
    ensures forall x: PostStatus :: r == Some(x) <==> StatusName(x) == s
  {
    if s == "pending" then Some(AwaitingReview)
    else if s == "active" then Some(Active)
    else if s == "rejected" then Some(Rejected)
    else None
  }

  datatype Visibility = Public | Private | Friends | Community

  function VisibilityName(v: Visibility): string {
    match v
    case Public => "public"
    case Private => "private"
    case Friends => "friends"
    case Community => "community"
  }

  /** The visibility enum: a string is accepted exactly when it names a visibility. */
  function ParseVisibility(s: string): (r: Option<Visibility>)
    ensures forall x: Visibility :: r == Some(x) <==> VisibilityName(x) == s
  {
    if s == "public" then Some(Public)
    else if s == "private" then Some(Private)
    else if s == "friends" then Some(Friends)
    else if s == "community" then Some(Community)
    else None
  }

  datatype Post = Post(
    id: Id,
    author: Id,
    fullname: string,
    image: Option<string>,
    content: string,
    mediaUrls: Option<seq<string>>,
    visibility: Visibility,
    status: PostStatus,
    rejectionReason: Option<string>,
    totalComments: int,
    totalLikes: int,
    createdAt: int)

  /** Required paths: the author id (always present in this model) and a non-empty content. */
  predicate ValidPost(p: Post) {
    p.content != ""
  }

  /** The paths a creator supplies; the others take their defaults. */
  datatype NewPostFields = NewPostFields(
    author: Id,
    content: Option<string>,
    mediaUrls: seq<string>,
    visibility: Option<Visibility>,
    status: Option<PostStatus>)

  /**
   Creating a post: visibility defaults to public, status to active, the
   rejection reason to null and both counters to 0; a missing or empty
   content fails validation (`None`).
   */
  function CreatePost(id: Id, f: NewPostFields, now: int): (r: Option<Post>)
    ensures r.Some? <==> Truthy(f.content)
    ensures r.Some? ==>
      && r.value.id == id && r.value.author == f.author && r.value.content == f.content.value
      && r.value.mediaUrls == Some(f.mediaUrls)
      && r.value.visibility == Coalesce(f.visibility, Public)
      && r.value.status == Coalesce(f.status, Active)
      && r.value.rejectionReason.None?
      && r.value.totalComments == 0 && r.value.totalLikes == 0
      && r.value.fullname == "" && r.value.createdAt == now
      && ValidPost(r.value)
  {
    var p := Post(id, f.author, "", None, Coalesce(f.content, ""), Some(f.mediaUrls), Coalesce(f.visibility, Public),
                  Coalesce(f.status, Active), None, 0, 0, now);
    if ValidPost(p) then Some(p) else None
  }

  function HasPostId(id: Id): Post -> bool {
    (p: Post) => p.id == id
  }

  function HasStatus(s: PostStatus): Post -> bool {
    (p: Post) => p.status == s
  }
}
