/** The home screen's `fetchPosts`: the interest-filtered feed and the
    five most engaging posts, both computed from the fetched public posts. */
module Home {
  import opened Wrappers
  import opened Lists
  import opened Text
  import opened Posts
  import opened Ranking

  /** How many posts the "Top Reacted Posts" section shows: `slice(0, 5)`. */
  const TopCount: nat := 5

  /** Some interest, lowercased, occurs in the post's lowercased category. */
  predicate MatchesInterests(p: Post, interests: seq<string>)
  {
    exists interest :: interest in interests && ContainsIgnoringCase(p.category, interest)
  }

  /** Whether the feed is filtered at all: only when the profile has a
      non-empty interest list (`profile?.interests && length > 0`). */
  predicate HasInterests(interests: Option<seq<string>>)
  {
    interests.Some? && |interests.value| > 0
  }

  /** The feed: the fetched posts (`postsData || []`), kept in their order,
      restricted to those matching an interest when there are interests.
      `interests` is `profile?.interests`: `None` when the profile or its
      interest list is missing. */
  function Feed(postsData: Option<seq<Post>>, interests: Option<seq<string>>): (r: seq<Post>)
    ensures !HasInterests(interests) ==> r == OrEmpty(postsData)
    ensures HasInterests(interests) ==>
      forall p :: p in r <==> p in OrEmpty(postsData) && MatchesInterests(p, interests.value)
    ensures forall p :: multiset(r)[p] == 0 || multiset(r)[p] == multiset(OrEmpty(postsData))[p]
    ensures IsSubsequence(r, OrEmpty(postsData))
  {
    var rows := OrEmpty(postsData);
    if HasInterests(interests) then
      Filter(rows, p => MatchesInterests(p, interests.value))
    else
      SubsequenceRefl(rows);
      rows
  }

  function Min(a: nat, b: nat): nat
  {
    if a <= b then a else b
  }

  /** The top posts: a copy of all fetched posts (not the filtered feed),
      sorted by engagement, largest first, cut to the first five. */
  function TopPosts(postsData: Option<seq<Post>>): (r: seq<Post>)
    ensures |r| == Min(TopCount, |OrEmpty(postsData)|)
    ensures Descending(r, ByReactions)
    ensures multiset(r) <= multiset(OrEmpty(postsData))
  {
    var sorted := SortDescending(OrEmpty(postsData), ByReactions);
    var k := Min(TopCount, |sorted|);
    assert sorted == sorted[..k] + sorted[k..];
    sorted[..k]
  }

  /** An element with fewer copies in a prefix than in the whole list has
      a copy after the prefix. */
  lemma LeftOutIsAfterPrefix(s: seq<Post>, k: nat, y: Post)
    requires k <= |s| && multiset(s[..k])[y] < multiset(s)[y]
    ensures y in s[k..]
  {
    assert s == s[..k] + s[k..];
    assert multiset(s) == multiset(s[..k]) + multiset(s[k..]);
  }

  /** In an ordered list, nothing after position `k` outranks anything
      before it. */
  lemma BehindIsNotLarger(s: seq<Post>, k: nat, behind: Post, ahead: Post)
    requires Descending(s, ByReactions) && k <= |s|
    requires behind in s[k..] && ahead in s[..k]
    ensures Engagement(behind) <= Engagement(ahead)
  {
    var j :| 0 <= j < |s[k..]| && s[k..][j] == behind;
    var i :| 0 <= i < k && s[..k][i] == ahead;
    assert s[i] == ahead && s[k + j] == behind;
    assert Key(ByReactions, s[i]) >= Key(ByReactions, s[k + j]);
  }

  /** No fetched post that was left out of the top posts has a larger
      engagement than one that was taken. */
  lemma TopPostsAreTheLargest(postsData: Option<seq<Post>>, left: Post, taken: Post)
    requires multiset(TopPosts(postsData))[left] < multiset(OrEmpty(postsData))[left]
    requires taken in TopPosts(postsData)
    ensures Engagement(left) <= Engagement(taken)
  {
    var sorted := SortDescending(OrEmpty(postsData), ByReactions);
    var k := Min(TopCount, |sorted|);
    LeftOutIsAfterPrefix(sorted, k, left);
    BehindIsNotLarger(sorted, k, left, taken);
  }

  /** What `fetchPosts` writes: the feed and the top posts. */
  datatype FeedView = FeedView(posts: seq<Post>, topPosts: seq<Post>)

  /** `fetchPosts`: with no signed-in user it returns early, and a failed
      posts query throws before either list is set; otherwise both lists
      are set from the same fetched rows. */
  function FetchPosts(signedIn: bool, interests: Option<seq<string>>, postsReply: Reply<seq<Post>>): (r: Option<FeedView>)
    ensures r.Some? <==> signedIn && postsReply.Answered?
    ensures r.Some? ==> r.value.posts == Feed(postsReply.data, interests)
    ensures r.Some? ==> r.value.topPosts == TopPosts(postsReply.data)
  {
    if !signedIn then None
    else
      match postsReply
      case Failed => None
      case Answered(postsData) => Some(FeedView(Feed(postsData, interests), TopPosts(postsData)))
  }

  /** The top posts do not depend on the viewer's interests. */
  lemma TopPostsIgnoreInterests(signedIn: bool, mine: Option<seq<string>>, theirs: Option<seq<string>>, postsReply: Reply<seq<Post>>)
    requires FetchPosts(signedIn, mine, postsReply).Some?
    ensures FetchPosts(signedIn, theirs, postsReply).Some?
    ensures FetchPosts(signedIn, mine, postsReply).value.topPosts == FetchPosts(signedIn, theirs, postsReply).value.topPosts
  {
  }
  /** A category matches an interest equal to it. */
  lemma MatchesOwnCategory(s: string)
    ensures ContainsIgnoringCase(s, s)
  {
    assert OccursAt(ToLower(s), ToLower(s), 0);
  }

  /** "finance" has no occurrence of "health". */
  lemma FinanceIsNotHealth()
    ensures !ContainsIgnoringCase("Finance", "Health")
  {
    var lh, lf := ToLower("Health"), ToLower("Finance");
    assert |lh| == 6 && lh[0] == 'h';
    assert |lf| == 7 && lf[0] == 'f' && lf[1] == 'i';
    forall i: nat | i <= |lf| ensures !OccursAt(lf, lh, i) {
      if i + |lh| <= |lf| {
        assert lf[i..i + |lh|][0] == lf[i];
      }
    }
  }

  /** With a single interest, of two posts the feed keeps the one whose
      category mentions it and drops the one whose category does not. */
  lemma FeedOfTwo(kept: Post, dropped: Post, interest: string)
    requires ContainsIgnoringCase(kept.category, interest)
    requires !ContainsIgnoringCase(dropped.category, interest)
    ensures Feed(Some([kept, dropped]), Some([interest])) == [kept]
  {
    assert MatchesInterests(kept, [interest]);
    assert !MatchesInterests(dropped, [interest]);
    var r := Feed(Some([kept, dropped]), Some([interest]));
    assert kept in r && dropped !in r;
    assert r[0] == kept;
  }

  /** Interests `["Health"]` over posts in the categories Health and
      Finance keep only the Health post. */
  lemma FeedExample(health: Post, finance: Post)
    requires health.category == "Health" && finance.category == "Finance"
    ensures Feed(Some([health, finance]), Some(["Health"])) == [health]
  {
    MatchesOwnCategory("Health");
    FinanceIsNotHealth();
    FeedOfTwo(health, finance, "Health");
  }

  lemma SortFirstTwo(first: Post, second: Post)
    requires Engagement(first) == 15 && Engagement(second) == 3
    ensures SortDescending([first, second], ByReactions) == [first, second]
  {
    assert [first, second][..1] == [first];
    assert [first][..0] == [];
  }

  /** Posts with (likes, comments) of (10, 5), (2, 1) and (8, 8) have sums
      15, 3 and 16 and rank third, first, second. */
  lemma TopPostsExample(first: Post, second: Post, third: Post)
    requires first.likesCount == 10 && first.commentsCount == 5
    requires second.likesCount == 2 && second.commentsCount == 1
    requires third.likesCount == 8 && third.commentsCount == 8
    ensures TopPosts(Some([first, second, third])) == [third, first, second]
  {
    var s := [first, second, third];
    assert s[..2] == [first, second];
    SortFirstTwo(first, second);
    assert [first, second][..1] == [first];
    assert Insert([first], third, ByReactions) == [third, first];
  }
}
