/** The search screen's `searchPosts`: the filter the backend applies to
    the `posts` table, and the client-side sort of the rows it returns. */
module Search {
  import opened Wrappers
  import opened Lists
  import opened Text
  import opened Posts
  import opened Ranking

  /** The category select's value that adds no category filter. */
  const AllCategories: string := "all"

  /** The text filter `title.ilike.%q%,description.ilike.%q%`, added only
      for a non-empty query (an empty string is falsy). */
  predicate MatchesQuery(p: Post, query: string)
  {
    query == "" || ContainsIgnoringCase(p.title, query) || ContainsIgnoringCase(p.description, query)
  }

  /** `ilike` ignores case: a title or description holding the query
      verbatim matches it, and the query's own case makes no difference. */
  lemma QueryIgnoresCase(p: Post, query: string)
    ensures Contains(p.title, query) || Contains(p.description, query) ==> MatchesQuery(p, query)
    ensures MatchesQuery(p, ToLower(query)) == MatchesQuery(p, query)
  {
    if Contains(p.title, query) {
      ContainsIgnoringCaseOfContains(p.title, query);
    }
    if Contains(p.description, query) {
      ContainsIgnoringCaseOfContains(p.description, query);
    }
    ContainsIgnoringCaseOfLower(p.title, query);
    ContainsIgnoringCaseOfLower(p.description, query);
  }

  /** The category filter `eq('category', category)`, added unless the
      category is `'all'`. */
  predicate MatchesCategory(p: Post, category: string)
  {
    category == AllCategories || p.category == category
  }

  /** The conjunction the query builder accumulates: public posts only,
      then the optional text filter, then the optional category filter. */
  predicate Matches(p: Post, query: string, category: string)
  {
    p.visibility == Public && MatchesQuery(p, query) && MatchesCategory(p, category)
  }

  /** The rows the backend returns for the built query, in table order. */
  function ServerRows(table: seq<Post>, query: string, category: string): (r: seq<Post>)
    ensures forall p :: p in r ==> p in table && p.visibility == Public
    ensures query == "" ==>
      forall p :: p in r <==> p in table && p.visibility == Public && MatchesCategory(p, category)
    ensures query != "" ==>
      forall p :: p in r <==> (p in table && p.visibility == Public && MatchesCategory(p, category)
        && (ContainsIgnoringCase(p.title, query) || ContainsIgnoringCase(p.description, query)))
    ensures category == AllCategories ==>
      forall p :: p in r <==> p in table && p.visibility == Public && MatchesQuery(p, query)
    ensures category != AllCategories ==> forall p :: p in r ==> p.category == category
    ensures IsSubsequence(r, table)
  {
    Filter(table, p => Matches(p, query, category))
  }

  /** The `sortBy` select: `'reactions'` and `'recent'` sort; any other
      value leaves the rows as returned. */
  function OrderOf(sortBy: string): (r: Option<Order>)
    ensures r == Some(ByReactions) <==> sortBy == "reactions"
    ensures r == Some(ByRecent) <==> sortBy == "recent"
  {
    if sortBy == "reactions" then Some(ByReactions)
    else if sortBy == "recent" then Some(ByRecent)
    else None
  }

  /** The rows `searchPosts` starts from: the server's rows, or the empty
      list when `data` is `null` (`data || []`). */
  function FetchedRows(table: seq<Post>, answered: bool, query: string, category: string): (r: seq<Post>)
    ensures !answered ==> r == []
    ensures answered ==> r == ServerRows(table, query, category)
  {
    OrEmpty(if answered then Some(ServerRows(table, query, category)) else None)
  }

  /** `searchPosts`: `answered` is false when the query's `data` is `null`.
      The fetched rows are copied into an array and sorted in place, as
      `sortedData.sort(...)` does, and the result is what `setPosts` gets. */
  method SearchPosts(table: seq<Post>, answered: bool, query: string, category: string, sortBy: string)
    returns (results: seq<Post>)
    ensures !answered ==> results == []
    ensures multiset(results) == multiset(FetchedRows(table, answered, query, category))
    ensures forall p :: p in results ==> p in table && Matches(p, query, category)
    ensures sortBy == "reactions" ==> Descending(results, ByReactions)
    ensures sortBy == "recent" ==> Descending(results, ByRecent)
    ensures OrderOf(sortBy).Some? ==>
      results == SortDescending(FetchedRows(table, answered, query, category), OrderOf(sortBy).value)
    ensures OrderOf(sortBy).None? ==> results == FetchedRows(table, answered, query, category)
  {
    var rows := FetchedRows(table, answered, query, category);
    var sortedData := new Post[|rows|](i requires 0 <= i < |rows| => rows[i]);
    assert sortedData[..] == rows;
    var order := OrderOf(sortBy);
    if order.Some? {
      SortInPlace(sortedData, order.value);
    }
    results := sortedData[..];
    assert forall p :: p in results ==> p in multiset(rows);
  }
}
