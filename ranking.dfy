/** Ordering posts by a score, largest first, the way
    `Array.prototype.sort` does with the comparator `(a, b) => key(b) - key(a)`.
    That sort is stable: posts with a larger key come first, and posts with
    equal keys keep their original relative order. `SortDescending` is that
    result, written as an insertion sort (`Descending` and
    `SortDescendingStable` state the two halves); `SortInPlace` is the
    in-place sort on an array, proved to produce it. */
module Ranking {
  import opened Posts

  /** The two orders the screens use: by engagement (`'reactions'`) and by
      creation time (`'recent'`). */
  datatype Order = ByReactions | ByRecent

  function Key(order: Order, p: Post): int
  {
    match order
    case ByReactions => Engagement(p)
    case ByRecent => p.createdAt
  }

  /** Non-increasing in the key. */
  predicate Descending(s: seq<Post>, order: Order)
  {
    forall i, j :: 0 <= i < j < |s| ==> Key(order, s[i]) >= Key(order, s[j])
  }

  /** Inserts `x` into `sorted` after every post whose key is at least
      `x`'s, working from the back as an in-place insertion sort shifts. */
  function Insert(sorted: seq<Post>, x: Post, order: Order): (r: seq<Post>)
    ensures |r| == |sorted| + 1
    decreases |sorted|
  {
    if sorted == [] || Key(order, sorted[|sorted| - 1]) >= Key(order, x) then
      sorted + [x]
    else
      Insert(sorted[..|sorted| - 1], x, order) + [sorted[|sorted| - 1]]
  }

  /** Inserting adds exactly `x` and loses nothing. */
  lemma {:induction false} InsertPermutes(sorted: seq<Post>, x: Post, order: Order)
    ensures multiset(Insert(sorted, x, order)) == multiset(sorted) + multiset{x}
    decreases |sorted|
  {
    if !(sorted == [] || Key(order, sorted[|sorted| - 1]) >= Key(order, x)) {
      var init, last := sorted[..|sorted| - 1], sorted[|sorted| - 1];
      assert sorted == init + [last];
      InsertPermutes(init, x, order);
    }
  }

  /** When `x` goes before the last element, everything in front of that
      element has a key at least as large. */
  lemma InsertAboveLast(sorted: seq<Post>, x: Post, order: Order)
    requires Descending(sorted, order) && sorted != []
    requires Key(order, sorted[|sorted| - 1]) < Key(order, x)
    ensures forall y :: y in Insert(sorted[..|sorted| - 1], x, order) ==> Key(order, y) >= Key(order, sorted[|sorted| - 1])
  {
    var init, last := sorted[..|sorted| - 1], sorted[|sorted| - 1];
    var front := Insert(init, x, order);
    InsertPermutes(init, x, order);
    forall y | y in front ensures Key(order, y) >= Key(order, last) {
      assert y in multiset(front);
      if y != x {
        assert y in multiset(init);
        var k :| 0 <= k < |init| && init[k] == y;
        assert sorted[k] == y;
      }
    }
  }

  /** Inserting into an ordered list keeps it ordered. */
  lemma {:induction false} InsertDescending(sorted: seq<Post>, x: Post, order: Order)
    requires Descending(sorted, order)
    ensures Descending(Insert(sorted, x, order), order)
    decreases |sorted|
  {
    var r := Insert(sorted, x, order);
    if sorted == [] || Key(order, sorted[|sorted| - 1]) >= Key(order, x) {
      forall i, j | 0 <= i < j < |r| ensures Key(order, r[i]) >= Key(order, r[j]) {
        if j == |sorted| && i < |sorted| - 1 {
          assert Key(order, sorted[i]) >= Key(order, sorted[|sorted| - 1]);
        }
      }
    } else {
      var init, last := sorted[..|sorted| - 1], sorted[|sorted| - 1];
      var front := Insert(init, x, order);
      assert r == front + [last];
      assert Descending(init, order);
      InsertDescending(init, x, order);
      InsertAboveLast(sorted, x, order);
      forall i, j | 0 <= i < j < |r| ensures Key(order, r[i]) >= Key(order, r[j]) {
        if j == |r| - 1 {
          assert r[i] == front[i];
          assert r[i] in front;
        } else {
          assert r[i] == front[i] && r[j] == front[j];
        }
      }
    }
  }

  /** The stable descending sort of `s`. */
  function SortDescending(s: seq<Post>, order: Order): (r: seq<Post>)
    ensures |r| == |s|
    ensures multiset(r) == multiset(s)
    ensures Descending(r, order)
    decreases |s|
  {
    if s == [] then []
    else
      var init := s[..|s| - 1];
      assert s == init + [s[|s| - 1]];
      var sortedInit := SortDescending(init, order);
      InsertDescending(sortedInit, s[|s| - 1], order);
      InsertPermutes(sortedInit, s[|s| - 1], order);
      Insert(sortedInit, s[|s| - 1], order)
  }

  /** Sorting an already ordered list leaves it as it is. */
  lemma {:induction false} SortDescendingOfDescending(s: seq<Post>, order: Order)
    requires Descending(s, order)
    ensures SortDescending(s, order) == s
    decreases |s|
  {
    if s != [] {
      var init := s[..|s| - 1];
      assert Descending(init, order);
      SortDescendingOfDescending(init, order);
    }
  }

  /** The posts of `s` whose key is `v`, in their order in `s`. */
  function WithKey(s: seq<Post>, order: Order, v: int): (r: seq<Post>)
    ensures forall p :: p in r <==> p in s && Key(order, p) == v
    decreases |s|
  {
    if s == [] then []
    else
      var init, last := s[..|s| - 1], s[|s| - 1];
      assert s == init + [last];
      WithKey(init, order, v) + (if Key(order, last) == v then [last] else [])
  }

  /** Appending one post extends the posts of its key by that post. */
  lemma WithKeySnoc(s: seq<Post>, y: Post, order: Order, v: int)
    ensures WithKey(s + [y], order, v) == WithKey(s, order, v) + (if Key(order, y) == v then [y] else [])
  {
    assert (s + [y])[..|s|] == s;
  }

  /** Among the posts with one key value, `x` lands behind all those
      already in the list. */
  lemma {:induction false} InsertKeepsTies(sorted: seq<Post>, x: Post, order: Order, v: int)
    ensures WithKey(Insert(sorted, x, order), order, v)
      == WithKey(sorted, order, v) + (if Key(order, x) == v then [x] else [])
    decreases |sorted|
  {
    if sorted == [] || Key(order, sorted[|sorted| - 1]) >= Key(order, x) {
      WithKeySnoc(sorted, x, order, v);
    } else {
      var init, last := sorted[..|sorted| - 1], sorted[|sorted| - 1];
      var front := Insert(init, x, order);
      var tieX := if Key(order, x) == v then [x] else [];
      var tieLast := if Key(order, last) == v then [last] else [];
      assert Insert(sorted, x, order) == front + [last];
      assert WithKey(sorted, order, v) == WithKey(init, order, v) + tieLast;
      InsertKeepsTies(init, x, order, v);
      WithKeySnoc(front, last, order, v);
      // `last` has a smaller key than `x`, so at most one of them is a tie.
      SwapEmpty(WithKey(init, order, v), tieX, tieLast);
    }
  }

  /** Two lists of which at most one is non-empty can be appended in
      either order. */
  lemma SwapEmpty(a: seq<Post>, b: seq<Post>, c: seq<Post>)
    requires b == [] || c == []
    ensures a + b + c == a + c + b
  {
    if b == [] {
      assert a + b == a && a + c + b == a + c;
    } else {
      assert a + b + c == a + b && a + c == a;
    }
  }

  /** Stability: the posts sharing any one key value appear in the sorted
      list in the same order as in the input. */
  lemma {:induction false} SortDescendingStable(s: seq<Post>, order: Order, v: int)
    ensures WithKey(SortDescending(s, order), order, v) == WithKey(s, order, v)
    decreases |s|
  {
    if s != [] {
      var init := s[..|s| - 1];
      SortDescendingStable(init, order, v);
      InsertKeepsTies(SortDescending(init, order), s[|s| - 1], order, v);
    }
  }

  /** Inserting `x` passes over a tail of elements with smaller keys: they
      stay behind `x` in their order. */
  lemma {:induction false} InsertSkips(prefix: seq<Post>, j: nat, x: Post, order: Order)
    requires j <= |prefix|
    requires forall k :: j <= k < |prefix| ==> Key(order, prefix[k]) < Key(order, x)
    ensures Insert(prefix, x, order) == Insert(prefix[..j], x, order) + prefix[j..]
    decreases |prefix| - j
  {
    if j < |prefix| {
      var init := prefix[..|prefix| - 1];
      InsertSkips(init, j, x, order);
      assert init[..j] == prefix[..j];
      assert prefix[j..] == init[j..] + [prefix[|prefix| - 1]];
    } else {
      assert prefix[..j] == prefix;
    }
  }

  /** Where the shifting stops, `x` goes, and the insert is complete. */
  lemma InsertPlaced(prefix: seq<Post>, j: nat, x: Post, order: Order, placed: seq<Post>)
    requires j <= |prefix| && (j == 0 || Key(order, prefix[j - 1]) >= Key(order, x))
    requires Insert(prefix, x, order) == Insert(prefix[..j], x, order) + prefix[j..]
    requires |placed| == |prefix| + 1
    requires forall k :: 0 <= k < j ==> placed[k] == prefix[k]
    requires placed[j] == x
    requires forall k :: j < k <= |prefix| ==> placed[k] == prefix[k - 1]
    ensures placed == Insert(prefix, x, order)
  {
    var want := Insert(prefix, x, order);
    assert want == prefix[..j] + [x] + prefix[j..];
    forall k | 0 <= k < |placed| ensures placed[k] == want[k] {
      if k < j {
        assert want[k] == prefix[..j][k];
      } else if k > j {
        assert want[k] == prefix[j..][k - j - 1];
      }
    }
  }

  /** The shifting loop of one insertion step: moves the elements of the
      sorted prefix `a[..i]` whose key is smaller than `x`'s one place to the
      right and returns the gap left for `x`. */
  method ShiftRight(a: array<Post>, i: nat, x: Post, order: Order) returns (j: nat)
    requires i < a.Length
    modifies a
    ensures j <= i
    ensures j == 0 || Key(order, old(a[j - 1])) >= Key(order, x)
    ensures forall k :: 0 <= k < j ==> a[k] == old(a[k])
    ensures forall k :: j < k <= i ==> a[k] == old(a[k - 1])
    ensures forall k :: i < k < a.Length ==> a[k] == old(a[k])
    ensures forall k :: j <= k < i ==> Key(order, old(a[k])) < Key(order, x)
  {
    ghost var prefix := a[..i];
    assert forall k :: 0 <= k < i ==> prefix[k] == old(a[k]);
    j := i;
    while j > 0 && Key(order, a[j - 1]) < Key(order, x)
      invariant 0 <= j <= i
      invariant forall k :: 0 <= k < j ==> a[k] == prefix[k]
      invariant forall k :: j < k <= i ==> a[k] == prefix[k - 1]
      invariant forall k :: i < k < a.Length ==> a[k] == old(a[k])
      invariant forall k :: j <= k < i ==> Key(order, prefix[k]) < Key(order, x)
    {
      var moved := a[j - 1];
      assert moved == prefix[j - 1];
      a[j] := moved;
      j := j - 1;
    }
  }

  /** One step of the in-place insertion sort: `a[i]` moves left past the
      elements of the sorted prefix `a[..i]` whose key is smaller. */
  method InsertInPlace(a: array<Post>, i: nat, order: Order)
    requires i < a.Length
    modifies a
    ensures a[..i + 1] == Insert(old(a[..i]), old(a[i]), order)
    ensures forall k :: i < k < a.Length ==> a[k] == old(a[k])
  {
    ghost var prefix := a[..i];
    var x := a[i];
    var j := ShiftRight(a, i, x, order);
    InsertSkips(prefix, j, x, order);
    a[j] := x;
    InsertPlaced(prefix, j, x, order, a[..i + 1]);
  }

  /** Sorting one more element of `s` inserts it into the sorted prefix. */
  lemma SortDescendingStep(s: seq<Post>, i: nat, order: Order)
    requires i < |s|
    ensures SortDescending(s[..i + 1], order) == Insert(SortDescending(s[..i], order), s[i], order)
  {
    assert s[..i + 1][..i] == s[..i];
  }

  /** `a.sort((x, y) => Key(y) - Key(x))` on an array: insertion sort. */
  method SortInPlace(a: array<Post>, order: Order)
    modifies a
    ensures a[..] == SortDescending(old(a[..]), order)
  {
    ghost var input := a[..];
    var i := 0;
    while i < a.Length
      invariant 0 <= i <= a.Length
      invariant a[..i] == SortDescending(input[..i], order)
      invariant forall k :: i <= k < a.Length ==> a[k] == input[k]
    {
      ghost var before := a[..i];
      assert a[i] == input[i];
      InsertInPlace(a, i, order);
      SortDescendingStep(input, i, order);
      assert a[..i + 1] == Insert(before, input[i], order);
      i := i + 1;
    }
    assert a[..] == a[..a.Length];
    assert input == input[..a.Length];
  }
}
