/**
 The shared post of the parents' feed (`postSchema`, model "Post"): a level
 and a moderation status. Both are plain strings in the stored document:
 the enum validators run on `create` but not on an update that copies the
 request body, so a stored post can hold any string there, or `null`
 (`None`) in any path the body sets to `null`.
 */
module FeedPost {
  import opened Common

  const Family: string := "family"
  const PublicLevel: string := "public"

  const Pending: string := "pending"
  const Approved: string := "approved"
  const Rejected: string := "rejected"

  /** The level enum. */
  predicate IsLevel(s: string) {
    s == Family || s == PublicLevel
  }

  /** The status enum. */
  predicate IsStatus(s: string) {
    s == Pending || s == Approved || s == Rejected
  }

  datatype FeedPost = FeedPost(
    id: Id,
    content: Option<string>,
    level: Option<string>,
    status: Option<string>,
    createdBy: Option<Id>,
    approvedBy: Option<Id>,
    createdAt: int)

  /** What the schema's validators accept: non-empty content, both enums and an author. */
  predicate ValidFeedPost(p: FeedPost) {
    && Truthy(p.content)
    && p.level.Some? && IsLevel(p.level.value)
    && p.status.Some? && IsStatus(p.status.value)
    && p.createdBy.Some?
  }

  function HasFeedId(id: Id): FeedPost -> bool {
    (p: FeedPost) => p.id == id
  }

  /** `{ _id: id, createdBy: caller }` */
  function OwnedFeedPost(id: Id, caller: Id): FeedPost -> bool {
    (p: FeedPost) => p.id == id && p.createdBy == Some(caller)
  }

  /** `{ level, status: 'approved' }` */
  function ApprovedAtLevel(level: string): FeedPost -> bool {
    (p: FeedPost) => p.level == Some(level) && p.status == Some(Approved)
  }

  function CreatedAt(p: FeedPost): int {
    p.createdAt
  }
}
