// The two orderings of cmd/notifier/main.go: sortArticlesByPublishedAt
// (oldest first) and limitArticles (the newest N). Both sort a copy, so
// they are functions of their input. sort.Slice is not stable, so among
// equal timestamps only sortedness and permutation are specified; the
// insertion sort here is one of the orders it may produce.
module ArticleOrder {
  import opened Articles

  /** Non-decreasing publication times: oldest first. */
  predicate Ascending(s: seq<Article>) {
    forall i, j :: 0 <= i < j < |s| ==> s[i].publishedAt <= s[j].publishedAt
  }

  /** Non-increasing publication times: newest first. */
  predicate Descending(s: seq<Article>) {
    forall i, j :: 0 <= i < j < |s| ==> s[i].publishedAt >= s[j].publishedAt
  }

  /** Inserts `x` into an oldest-first list before the first later article. */
  function Insert(x: Article, s: seq<Article>): (r: seq<Article>)
    ensures |r| == |s| + 1
  {
    if s == [] then [x]
    else if x.publishedAt <= s[0].publishedAt then [x] + s
    else [s[0]] + Insert(x, s[1..])
  }

  /** sortArticlesByPublishedAt: oldest first. */
  function SortByPublished(xs: seq<Article>): (r: seq<Article>)
    ensures |r| == |xs|
  {
    if xs == [] then [] else Insert(xs[0], SortByPublished(xs[1..]))
  }

  function Reverse(s: seq<Article>): (r: seq<Article>)
    ensures |r| == |s|
  {
    if s == [] then [] else Reverse(s[1..]) + [s[0]]
  }

  /** The sort of limitArticles: newest first. */
  function NewestFirst(xs: seq<Article>): (r: seq<Article>)
    ensures |r| == |xs|
  {
    Reverse(SortByPublished(xs))
  }

  /** limitArticles: the input itself when it fits, otherwise the newest `limit` articles. */
  function LimitArticles(xs: seq<Article>, limit: int): (r: seq<Article>)
    requires limit >= 0
    ensures |r| == if |xs| <= limit then |xs| else limit
  {
    if |xs| <= limit then xs else NewestFirst(xs)[..limit]
  }

  /** The articles limitArticles leaves out. */
  function Dropped(xs: seq<Article>, limit: int): (r: seq<Article>)
    requires limit >= 0
    ensures |r| == if |xs| <= limit then 0 else |xs| - limit
  {
    if |xs| <= limit then [] else NewestFirst(xs)[limit..]
  }

  /** Inserting keeps every element at or after a common lower bound. */
  lemma {:induction false} InsertLowerBound(x: Article, s: seq<Article>, lo: int)
    requires lo <= x.publishedAt
    requires forall k :: 0 <= k < |s| ==> lo <= s[k].publishedAt
    ensures forall k :: 0 <= k < |Insert(x, s)| ==> lo <= Insert(x, s)[k].publishedAt
  {
    if s != [] && x.publishedAt > s[0].publishedAt {
      InsertLowerBound(x, s[1..], lo);
    }
  }

  lemma {:induction false} InsertPermutes(x: Article, s: seq<Article>)
    ensures multiset(Insert(x, s)) == multiset(s) + multiset{x}
  {
    if s != [] && x.publishedAt > s[0].publishedAt {
      InsertPermutes(x, s[1..]);
      assert s == [s[0]] + s[1..];
    }
  }

  /** An article no later than everything in an oldest-first list can go in front. */
  lemma ConsAscending(h: Article, t: seq<Article>)
    requires Ascending(t)
    requires forall k :: 0 <= k < |t| ==> h.publishedAt <= t[k].publishedAt
    ensures Ascending([h] + t)
  {
    var r := [h] + t;
    forall i, j | 0 <= i < j < |r| ensures r[i].publishedAt <= r[j].publishedAt {
      assert r[j] == t[j - 1];
      if i > 0 {
        assert r[i] == t[i - 1];
      }
    }
  }

  lemma {:induction false} InsertSpec(x: Article, s: seq<Article>)
    requires Ascending(s)
    ensures Ascending(Insert(x, s))
    ensures multiset(Insert(x, s)) == multiset(s) + multiset{x}
  {
    InsertPermutes(x, s);
    if s == [] {
    } else if x.publishedAt <= s[0].publishedAt {
      ConsAscending(x, s);
    } else {
      InsertSpec(x, s[1..]);
      InsertLowerBound(x, s[1..], s[0].publishedAt);
      ConsAscending(s[0], Insert(x, s[1..]));
    }
  }

  /** sortArticlesByPublishedAt returns a permutation of its input, oldest first. */
  lemma {:induction false} SortByPublishedSpec(xs: seq<Article>)
    ensures Ascending(SortByPublished(xs))
    ensures multiset(SortByPublished(xs)) == multiset(xs)
    ensures |SortByPublished(xs)| == |xs|
  {
    if xs != [] {
      SortByPublishedSpec(xs[1..]);
      InsertSpec(xs[0], SortByPublished(xs[1..]));
      assert xs == [xs[0]] + xs[1..];
    }
  }

  lemma {:induction false} ReverseSpec(s: seq<Article>)
    ensures |Reverse(s)| == |s|
    ensures forall i :: 0 <= i < |s| ==> Reverse(s)[i] == s[|s| - 1 - i]
    ensures multiset(Reverse(s)) == multiset(s)
  {
    if s != [] {
      ReverseSpec(s[1..]);
      assert s == [s[0]] + s[1..];
    }
  }

  /** limitArticles' sort returns a permutation of its input, newest first. */
  lemma NewestFirstSpec(xs: seq<Article>)
    ensures Descending(NewestFirst(xs))
    ensures multiset(NewestFirst(xs)) == multiset(xs)
    ensures |NewestFirst(xs)| == |xs|
  {
    var s := SortByPublished(xs);
    SortByPublishedSpec(xs);
    ReverseSpec(s);
    forall i, j | 0 <= i < j < |Reverse(s)| ensures Reverse(s)[i].publishedAt >= Reverse(s)[j].publishedAt {
      assert Reverse(s)[i] == s[|s| - 1 - i] && Reverse(s)[j] == s[|s| - 1 - j];
    }
  }

  /**
   * limitArticles: an input that fits is returned unchanged; otherwise
   * exactly `limit` of its articles are kept, newest first, and none of them
   * was published before any article left out.
   */
  lemma LimitArticlesSpec(xs: seq<Article>, limit: int)
    requires limit >= 0
    ensures |xs| <= limit ==> LimitArticles(xs, limit) == xs
    ensures |xs| > limit ==> |LimitArticles(xs, limit)| == limit && Descending(LimitArticles(xs, limit))
    ensures multiset(LimitArticles(xs, limit)) + multiset(Dropped(xs, limit)) == multiset(xs)
    ensures forall i, j :: 0 <= i < |LimitArticles(xs, limit)| && 0 <= j < |Dropped(xs, limit)| ==>
      LimitArticles(xs, limit)[i].publishedAt >= Dropped(xs, limit)[j].publishedAt
  {
    if |xs| > limit {
      var s := NewestFirst(xs);
      NewestFirstSpec(xs);
      assert s == s[..limit] + s[limit..];
      forall i, j | 0 <= i < limit && 0 <= j < |s| - limit ensures s[..limit][i].publishedAt >= s[limit..][j].publishedAt {
        assert s[..limit][i] == s[i] && s[limit..][j] == s[limit + j];
      }
    }
  }

  /** What limitArticles keeps is drawn from its input, so it is no larger. */
  lemma LimitArticlesSubset(xs: seq<Article>, limit: int)
    requires limit >= 0
    ensures multiset(LimitArticles(xs, limit)) <= multiset(xs)
    ensures |LimitArticles(xs, limit)| <= |xs|
    ensures |LimitArticles(xs, limit)| <= limit || LimitArticles(xs, limit) == xs
  {
    LimitArticlesSpec(xs, limit);
    assert |multiset(LimitArticles(xs, limit))| <= |multiset(xs)|;
  }

  /** Every article limitArticles leaves out is no later than every article it keeps. */
  lemma LimitKeepsNewest(xs: seq<Article>, limit: int)
    requires limit >= 0
    ensures forall a, x :: a in LimitArticles(xs, limit) && x in xs && x !in LimitArticles(xs, limit) ==>
      a.publishedAt >= x.publishedAt
  {
    var kept, dropped := LimitArticles(xs, limit), Dropped(xs, limit);
    LimitArticlesSpec(xs, limit);
    forall a, x | a in kept && x in xs && x !in kept ensures a.publishedAt >= x.publishedAt {
      assert x in multiset(kept) + multiset(dropped);
      var i :| 0 <= i < |kept| && kept[i] == a;
      var j :| 0 <= j < |dropped| && dropped[j] == x;
    }
  }
}
