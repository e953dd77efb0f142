/** A post row of the `posts` table, as the feed and search screens read it,
    and the fixed value domains the post form offers. */
module Posts {
  import opened Wrappers

  /** `type`: 'idea' | 'milestone'. */
  datatype PostType = Idea | Milestone

  /** `visibility`: 'public' | 'investors_only' | 'private'. */
  datatype Visibility = Public | InvestorsOnly | Private

  /** `created_at` is an integer timestamp; the like and comment counters
      are maintained by the backend. */
  datatype Post = Post(
    title: string,
    description: string,
    category: string,
    visibility: Visibility,
    likesCount: int,
    commentsCount: int,
    createdAt: int)

  /** The ranking score of the feed and the search screen:
      `likes_count + comments_count`. */
  function Engagement(p: Post): int
  {
    p.likesCount + p.commentsCount
  }

  /** The string stored in the `type` column. */
  function PostTypeValue(t: PostType): string
  {
    match t
    case Idea => "idea"
    case Milestone => "milestone"
  }

  /** The string stored in the `visibility` column and used as the value of
      the visibility select's items. */
  function VisibilityValue(v: Visibility): string
  {
    match v
    case Public => "public"
    case InvestorsOnly => "investors_only"
    case Private => "private"
  }

  /** The values the two post-type buttons set, in the order shown. */
  const PostTypeButtons: seq<string> := ["idea", "milestone"]

  /** The values of the visibility select's items, in the order shown. */
  const VisibilityItems: seq<string> := ["public", "investors_only", "private"]

  /** Reads a `type` value; anything else is not a post type. */
  function ParsePostType(s: string): (r: Option<PostType>)
    ensures r.Some? ==> PostTypeValue(r.value) == s
    ensures r.None? ==> forall t :: PostTypeValue(t) != s
  {
    if s == "idea" then Some(Idea)
    else if s == "milestone" then Some(Milestone)
    else None
  }

  /** Reads a `visibility` value; anything else is not a visibility. */
  function ParseVisibility(s: string): (r: Option<Visibility>)
    ensures r.Some? ==> VisibilityValue(r.value) == s
    ensures r.None? ==> forall v :: VisibilityValue(v) != s
  {
    if s == "public" then Some(Public)
    else if s == "investors_only" then Some(InvestorsOnly)
    else if s == "private" then Some(Private)
    else None
  }

  /** Every value a post-type button or a visibility item can produce is a
      member of the fixed domain, and every member is offered. */
  lemma FormDomains()
    ensures forall s :: s in PostTypeButtons <==> ParsePostType(s).Some?
    ensures forall s :: s in VisibilityItems <==> ParseVisibility(s).Some?
    ensures forall t :: ParsePostType(PostTypeValue(t)) == Some(t)
    ensures forall v :: ParseVisibility(VisibilityValue(v)) == Some(v)
  {
  }
}
