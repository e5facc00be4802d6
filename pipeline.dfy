// The notification run of cmd/notifier/main.go: filter the fetched
// articles against the state, cap the batch (the newest five on a first
// run, then the per-run maximum), deliver it oldest first, mark each
// article only once its send succeeded, then update the statistics and
// save. Fetching, the clock and the network are parameters.
module Pipeline {
  import opened Articles
  import opened Seqs
  import opened StateManager
  import opened ArticleOrder
  import opened Discord
  import FeedConfigs

  const MaxArticlesOnFirstRun := 5
  const Millisecond := 1_000_000 * Nanosecond

  /** Specification of filterNewArticles: valid articles not yet notified for their feed, in order. */
  function NewArticles(articles: seq<Article>, c: Lists): (r: seq<Article>)
    ensures |r| <= |articles|
  {
    if articles == [] then []
    else
      var rest := NewArticles(articles[1..], c);
      var a := articles[0];
      if IsValid(a) && !IsNotifiedIn(c, a.feedURL, a.id) then [a] + rest else rest
  }

  /**
   * filterNewArticles keeps exactly the valid, not yet notified articles,
   * in their original order.
   */
  lemma {:induction false} NewArticlesExact(articles: seq<Article>, c: Lists)
    ensures forall a :: a in NewArticles(articles, c) <==>
      a in articles && IsValid(a) && !IsNotifiedIn(c, a.feedURL, a.id)
    ensures IsSubsequence(NewArticles(articles, c), articles)
  {
    if articles != [] {
      NewArticlesExact(articles[1..], c);
      assert articles == [articles[0]] + articles[1..];
    }
  }

  /** filterNewArticles: queries the state for each article and changes nothing. */
  method FilterNewArticles(articles: seq<Article>, m: Manager) returns (news: seq<Article>)
    requires m.Valid()
    ensures news == NewArticles(articles, m.Contents())
  {
    ghost var c := m.Contents();
    news := [];
    var i := 0;
    while i < |articles|
      invariant 0 <= i <= |articles|
      invariant news + NewArticles(articles[i..], c) == NewArticles(articles, c)
    {
      var a := articles[i];
      assert articles[i..][1..] == articles[i + 1..];
      if IsValid(a) {
        var notified := m.IsArticleNotified(a.feedURL, a.id);
        if !notified {
          assert news + NewArticles(articles[i..], c) == (news + [a]) + NewArticles(articles[i + 1..], c);
          news := news + [a];
        }
      }
      i := i + 1;
    }
    assert articles[|articles|..] == [];
  }

  /** The article's own webhook when it has one, else the default. */
  function Endpoint(a: Article, defaultURL: string): (url: string)
    ensures a.webhookURL != "" ==> url == a.webhookURL
    ensures a.webhookURL == "" ==> url == defaultURL
  {
    if a.webhookURL != "" then a.webhookURL else defaultURL
  }

  function Min(a: int, b: int): int {
    if a <= b then a else b
  }

  /**
   * The two caps of run: the newest five on a first run, then the newest
   * maxPerRun. Each cap keeps as many articles as it allows.
   */
  function Capped(news: seq<Article>, firstRun: bool, maxPerRun: int): (r: seq<Article>)
    requires maxPerRun >= 0
    ensures |r| == Min(if firstRun then Min(|news|, MaxArticlesOnFirstRun) else |news|, maxPerRun)
  {
    var first := if firstRun && |news| > MaxArticlesOnFirstRun then LimitArticles(news, MaxArticlesOnFirstRun) else news;
    if |first| > maxPerRun then LimitArticles(first, maxPerRun) else first
  }

  /** The batch run delivers, oldest first; a first run is one whose state holds no feed. */
  function ToDeliver(fetched: seq<Article>, c: Lists, maxPerRun: int): (r: seq<Article>)
    requires maxPerRun >= 0
    ensures |r| == |Capped(NewArticles(fetched, c), c == map[], maxPerRun)|
  {
    SortByPublished(Capped(NewArticles(fetched, c), c == map[], maxPerRun))
  }

  /**
   * The caps keep exactly as many articles as they allow, drawn from the new
   * ones, and never drop an article later than one they keep.
   */
  lemma CappedBounds(news: seq<Article>, firstRun: bool, maxPerRun: int)
    requires maxPerRun >= 0
    ensures var b := Capped(news, firstRun, maxPerRun);
      |b| <= maxPerRun && (firstRun ==> |b| <= MaxArticlesOnFirstRun) && multiset(b) <= multiset(news)
    ensures var b := Capped(news, firstRun, maxPerRun);
      forall a, x :: a in b && x in news && x !in b ==> a.publishedAt >= x.publishedAt
  {
    var first := if firstRun && |news| > MaxArticlesOnFirstRun then LimitArticles(news, MaxArticlesOnFirstRun) else news;
    var b := Capped(news, firstRun, maxPerRun);
    LimitArticlesSubset(news, MaxArticlesOnFirstRun);
    LimitArticlesSubset(first, maxPerRun);
    LimitKeepsNewest(news, MaxArticlesOnFirstRun);
    LimitKeepsNewest(first, maxPerRun);
    forall a, x | a in b && x in news && x !in b ensures a.publishedAt >= x.publishedAt {
      assert a in multiset(b);
      assert a in first;
      if x in first && b != first {
        assert b == LimitArticles(first, maxPerRun);
      } else if x !in first {
        assert first == LimitArticles(news, MaxArticlesOnFirstRun);
      }
    }
  }

  /**
   * The batch holds exactly as many articles as the caps allow, and at most
   * maxPerRun (five on a first run); it is ordered oldest first, drawn from
   * the new articles (each valid, fetched and not yet notified), and no new
   * article left out is later than one in the batch.
   */
  lemma ToDeliverBounds(fetched: seq<Article>, c: Lists, maxPerRun: int)
    requires maxPerRun >= 0
    ensures var b, news := ToDeliver(fetched, c, maxPerRun), NewArticles(fetched, c);
      |b| == Min(if c == map[] then Min(|news|, MaxArticlesOnFirstRun) else |news|, maxPerRun)
    ensures var b := ToDeliver(fetched, c, maxPerRun);
      |b| <= maxPerRun && (c == map[] ==> |b| <= MaxArticlesOnFirstRun) && Ascending(b) &&
      multiset(b) <= multiset(NewArticles(fetched, c)) &&
      forall a :: a in b ==> a in fetched && IsValid(a) && !IsNotifiedIn(c, a.feedURL, a.id)
    ensures var b, news := ToDeliver(fetched, c, maxPerRun), NewArticles(fetched, c);
      forall a, x :: a in b && x in news && x !in b ==> a.publishedAt >= x.publishedAt
  {
    var news := NewArticles(fetched, c);
    var capped := Capped(news, c == map[], maxPerRun);
    CappedBounds(news, c == map[], maxPerRun);
    SortByPublishedSpec(capped);
    NewArticlesExact(fetched, c);
    var b := ToDeliver(fetched, c, maxPerRun);
    SameMembers(b, capped);
    assert multiset(b) <= multiset(news);
    forall a | a in b ensures a in news {
      assert a in multiset(b);
    }
  }

  /** Sequences with the same multiset have the same members. */
  lemma SameMembers(s: seq<Article>, t: seq<Article>)
    requires multiset(s) == multiset(t)
    ensures forall a :: a in s <==> a in t
  {
    forall a ensures a in s <==> a in t {
      assert a in s <==> a in multiset(s);
      assert a in t <==> a in multiset(t);
    }
  }

  /** Whether the i-th article of the batch is delivered, each with a fresh three-attempt notifier. */
  predicate Delivered(batch: seq<Article>, defaultURL: string, fmt: DateFormat,
                      transports: nat -> Transport, delays: nat -> Delay, i: nat)
  {
    i < |batch| &&
      ArticleResult(Endpoint(batch[i], defaultURL), DefaultMaxRetries, batch[i], fmt, transports(i), delays(i)) == Sent
  }

  /** Delivered, for every index of the batch, as a function value. */
  function RunDeliveries(batch: seq<Article>, defaultURL: string, fmt: DateFormat,
                         transports: nat -> Transport, delays: nat -> Delay): nat -> bool
  {
    (i: nat) => Delivered(batch, defaultURL, fmt, transports, delays, i)
  }

  /**
   * Where the delivery loop stops, scanning from `i`: after the first
   * delivered article that is not the last and whose rate-limit wait is
   * cancelled, or at the end of the batch.
   */
  function StopFrom(i: nat, n: nat, delivered: nat -> bool, waitCancelled: nat -> bool): (stop: nat)
    ensures stop <= n
    decreases n - i
  {
    if i >= n then n
    else if delivered(i) && i < n - 1 && waitCancelled(i) then i + 1
    else StopFrom(i + 1, n, delivered, waitCancelled)
  }

  /** The loop stops early exactly at a cancelled wait that follows a delivery. */
  lemma {:induction false} StopFromSpec(i: nat, n: nat, delivered: nat -> bool, waitCancelled: nat -> bool)
    requires i <= n
    ensures var stop := StopFrom(i, n, delivered, waitCancelled);
      i <= stop <= n &&
      (forall j :: i <= j < stop - 1 ==> !(delivered(j) && waitCancelled(j))) &&
      (stop < n ==> stop > i && delivered(stop - 1) && waitCancelled(stop - 1)) &&
      (stop == n ==> forall j :: i <= j < n - 1 ==> !(delivered(j) && waitCancelled(j)))
    decreases n - i
  {
    if i < n && !(delivered(i) && i < n - 1 && waitCancelled(i)) {
      StopFromSpec(i + 1, n, delivered, waitCancelled);
    }
  }

  /** The lists after marking the delivered articles among the first k of the batch, in order. */
  function MarkAll(c: Lists, batch: seq<Article>, delivered: nat -> bool, k: nat, now: int): (r: Lists)
    requires k <= |batch|
    ensures c.Keys <= r.Keys
  {
    if k == 0 then c
    else
      var p := MarkAll(c, batch, delivered, k - 1, now);
      if delivered(k - 1) then Marked(p, batch[k - 1], now) else p
  }

  /** The number of delivered articles among the first k. */
  function CountDelivered(delivered: nat -> bool, k: nat): (n: nat)
    ensures n <= k
  {
    if k == 0 then 0 else CountDelivered(delivered, k - 1) + (if delivered(k - 1) then 1 else 0)
  }

  /**
   * Marked iff delivered: after the loop a (feed, id) pair is notified
   * exactly when it was before or some delivered article carries it.
   */
  lemma {:induction false} MarkAllExact(c: Lists, batch: seq<Article>, delivered: nat -> bool, k: nat, now: int)
    requires k <= |batch|
    ensures forall u, id :: IsNotifiedIn(MarkAll(c, batch, delivered, k, now), u, id) <==>
      IsNotifiedIn(c, u, id) ||
      exists j :: 0 <= j < k && delivered(j) && batch[j].feedURL == u && batch[j].id == id
  {
    if k > 0 {
      MarkAllExact(c, batch, delivered, k - 1, now);
      var p := MarkAll(c, batch, delivered, k - 1, now);
      MarkedExact(p, batch[k - 1], now);
      forall u, id ensures IsNotifiedIn(MarkAll(c, batch, delivered, k, now), u, id) <==>
        IsNotifiedIn(c, u, id) ||
        exists j :: 0 <= j < k && delivered(j) && batch[j].feedURL == u && batch[j].id == id
      {
        if exists j :: 0 <= j < k && delivered(j) && batch[j].feedURL == u && batch[j].id == id {
          var j :| 0 <= j < k && delivered(j) && batch[j].feedURL == u && batch[j].id == id;
          if j < k - 1 {
            assert exists j' :: 0 <= j' < k - 1 && delivered(j') && batch[j'].feedURL == u && batch[j'].id == id;
          }
        }
      }
    }
  }

  /** No article outside the delivered ones is marked: failed articles stay unnotified. */
  lemma FailedStayUnmarked(c: Lists, batch: seq<Article>, delivered: nat -> bool, k: nat, now: int, a: Article)
    requires k <= |batch|
    requires !IsNotifiedIn(c, a.feedURL, a.id)
    requires forall j :: 0 <= j < k && delivered(j) ==> (batch[j].feedURL, batch[j].id) != (a.feedURL, a.id)
    ensures !IsNotifiedIn(MarkAll(c, batch, delivered, k, now), a.feedURL, a.id)
  {
    MarkAllExact(c, batch, delivered, k, now);
  }

  /** The state value after the delivery loop has handled the first k articles. */
  function MarkedValue(v: StateValue, batch: seq<Article>, delivered: nat -> bool, k: nat, now: int): (r: StateValue)
    requires k <= |batch|
    ensures r.lists == MarkAll(v.lists, batch, delivered, k, now)
    ensures r.notified == v.notified + CountDelivered(delivered, k)
    ensures r.checked == v.checked && r.duration == v.duration && r.updated == v.updated
  {
    v.(lists := MarkAll(v.lists, batch, delivered, k, now), notified := v.notified + CountDelivered(delivered, k))
  }

  /** The value after the statistics update and the save that end a completed run. */
  function Finished(v: StateValue, feedsChecked: int, duration: real, cleanupDays: int, maxPerFeed: int, now: int)
    : (r: StateValue)
    ensures r.lists == Cleaned(v.lists, cleanupDays, maxPerFeed, now)
    ensures r.notified == v.notified && r.checked == v.checked + feedsChecked
    ensures r.duration == duration && r.updated == now
  {
    v.(lists := Cleaned(v.lists, cleanupDays, maxPerFeed, now), checked := v.checked + feedsChecked,
       duration := duration, updated := now)
  }

  datatype RunOutcome = Completed(successCount: nat) | Interrupted(successCount: nat)

  /** `d` tells, for every index of the batch, whether that article is delivered. */
  ghost predicate DeliveredBy(d: nat -> bool, batch: seq<Article>, defaultURL: string, fmt: DateFormat,
                              transports: nat -> Transport, delays: nat -> Delay)
  {
    forall j {:trigger Delivered(batch, defaultURL, fmt, transports, delays, j)} :: 0 <= j < |batch| ==>
      (d(j) <==> Delivered(batch, defaultURL, fmt, transports, delays, j))
  }

  lemma RunDeliveriesDeliver(batch: seq<Article>, defaultURL: string, fmt: DateFormat,
                             transports: nat -> Transport, delays: nat -> Delay)
    ensures DeliveredBy(RunDeliveries(batch, defaultURL, fmt, transports, delays), batch, defaultURL, fmt, transports, delays)
  {
  }

  /**
   * One iteration of the delivery loop: a notifier for the article's
   * endpoint sends it, and only a successful send marks it.
   */
  method DeliverOne(m: Manager, batch: seq<Article>, i: nat, defaultURL: string, rateLimit: int, fmt: DateFormat,
                    transports: nat -> Transport, delays: nat -> Delay, now: int, ghost d: nat -> bool)
    returns (sent: bool)
    requires m.Valid() && i < |batch| && DeliveredBy(d, batch, defaultURL, fmt, transports, delays)
    modifies m.state, m.state.feeds.Values
    ensures m.Valid() && m.state == old(m.state)
    ensures forall o :: o in m.state.feeds.Values ==> o in old(m.state.feeds.Values) || fresh(o)
    ensures sent == d(i)
    ensures m.Value() == if sent then NotifiedValue(old(m.Value()), batch[i], now) else old(m.Value())
  {
    var article := batch[i];
    var notifier := new Notifier(Endpoint(article, defaultURL), rateLimit);
    var r := notifier.SendArticle(article, fmt, transports(i), delays(i));
    sent := r == Sent;
    assert Delivered(batch, defaultURL, fmt, transports, delays, i) <==> sent;
    if sent {
      m.MarkAsNotified(article, now);
    }
  }

  /**
   * The delivery loop of run over the sorted batch: one notifier per
   * article, marking only after a successful send, a rate-limit wait after
   * every successful send but the last, and an immediate return when that
   * wait is cancelled. `d` holds the delivery outcome of each article.
   */
  method DeliverBatch(m: Manager, batch: seq<Article>, defaultURL: string, rateLimit: int, fmt: DateFormat,
                      transports: nat -> Transport, delays: nat -> Delay, waitCancelled: nat -> bool, now: int,
                      ghost d: nat -> bool)
    returns (successCount: nat, interrupted: bool)
    requires m.Valid() && DeliveredBy(d, batch, defaultURL, fmt, transports, delays)
    modifies m.state, m.state.feeds.Values
    ensures m.Valid() && m.state == old(m.state)
    ensures forall o :: o in m.state.feeds.Values ==> o in old(m.state.feeds.Values) || fresh(o)
    ensures var stop := StopFrom(0, |batch|, d, waitCancelled);
      (interrupted <==> stop < |batch|) &&
      successCount == CountDelivered(d, stop) &&
      m.Value() == MarkedValue(old(m.Value()), batch, d, stop, now)
  {
    ghost var v0 := m.Value();
    var n := |batch|;
    successCount := 0;
    var i := 0;
    while i < n
      invariant 0 <= i <= n
      invariant m.Valid() && m.state == old(m.state)
      invariant forall o :: o in m.state.feeds.Values ==> o in old(m.state.feeds.Values) || fresh(o)
      invariant StopFrom(i, n, d, waitCancelled) == StopFrom(0, n, d, waitCancelled)
      invariant successCount == CountDelivered(d, i)
      invariant m.Value() == MarkedValue(v0, batch, d, i, now)
    {
      var sent := DeliverOne(m, batch, i, defaultURL, rateLimit, fmt, transports, delays, now, d);
      if sent {
        successCount := successCount + 1;
        if i < n - 1 && waitCancelled(i) {
          return successCount, true;
        }
      }
      i := i + 1;
    }
    return successCount, false;
  }

  /**
   * The selection half of run: the first-run flag, filterNewArticles, the
   * two caps and the oldest-first sort. Nothing in the state changes.
   */
  method SelectBatch(m: Manager, fetched: seq<Article>, maxArticlesPerRun: int) returns (batch: seq<Article>)
    requires m.Valid() && maxArticlesPerRun > 0
    ensures batch == ToDeliver(fetched, m.Contents(), maxArticlesPerRun)
  {
    var isFirstRun := m.IsFirstRun();
    var news := FilterNewArticles(fetched, m);
    if isFirstRun && |news| > MaxArticlesOnFirstRun {
      news := LimitArticles(news, MaxArticlesOnFirstRun);
    }
    if |news| > maxArticlesPerRun {
      news := LimitArticles(news, maxArticlesPerRun);
    }
    batch := SortByPublished(news);
  }

  /**
   * The body of run from the first-run check to Save. The first-run flag is
   * read before anything is marked; the statistics and the save happen only
   * when the delivery loop was not interrupted.
   */
  method Run(m: Manager, fetched: seq<Article>, enabledFeeds: seq<FeedConfigs.FeedConfig>, maxArticlesPerRun: int,
             rateLimitMs: int, defaultURL: string, fmt: DateFormat, transports: nat -> Transport, delays: nat -> Delay,
             waitCancelled: nat -> bool, duration: real, now: int, ghost d: nat -> bool)
    returns (outcome: RunOutcome)
    requires m.Valid() && maxArticlesPerRun > 0
    requires DeliveredBy(d, ToDeliver(fetched, m.Contents(), maxArticlesPerRun), defaultURL, fmt, transports, delays)
    modifies m.state, m.state.feeds.Values
    ensures m.Valid() && m.state == old(m.state)
    ensures var batch := ToDeliver(fetched, old(m.Contents()), maxArticlesPerRun);
      var stop := StopFrom(0, |batch|, d, waitCancelled);
      var marked := MarkedValue(old(m.Value()), batch, d, stop, now);
      outcome.successCount == CountDelivered(d, stop) &&
      (outcome.Interrupted? <==> stop < |batch|) &&
      m.Value() == if outcome.Interrupted? then marked
                   else Finished(marked, |enabledFeeds|, duration, m.cleanupDays, m.maxArticlesPerFeed, now)
  {
    var batch := SelectBatch(m, fetched, maxArticlesPerRun);
    var successCount: nat := 0;
    if |batch| > 0 {
      var interrupted;
      successCount, interrupted := DeliverBatch(m, batch, defaultURL, rateLimitMs * Millisecond, fmt,
                                                transports, delays, waitCancelled, now, d);
      if interrupted {
        return Interrupted(successCount);
      }
    }
    m.UpdateStatistics(|enabledFeeds|, duration);
    m.Save(now);
    return Completed(successCount);
  }
}
