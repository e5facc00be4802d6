// The persisted notification state of pkg/models/state.go: per-feed
// append-only lists of notified records and run statistics. Times are
// integer seconds; `now` is passed in where the source reads the clock.
module StateModel {
  import opened Articles
  import opened Seqs

  const SecondsPerDay := 86400
  const StateVersion := "1.0"

  datatype NotifiedArticle = NotifiedArticle(
    id: string,
    title: string,
    url: string,
    publishedAt: int,
    notifiedAt: int)

  /** The record AddNotifiedArticle stores for an article notified at `now`. */
  function RecordOf(a: Article, now: int): (r: NotifiedArticle)
    ensures r.id == a.id && r.title == a.title && r.url == a.url
    ensures r.publishedAt == a.publishedAt && r.notifiedAt == now
  {
    NotifiedArticle(a.id, a.title, a.url, a.publishedAt, now)
  }

  /** Some record of the list carries this id. */
  predicate HasId(list: seq<NotifiedArticle>, id: string) {
    exists i :: 0 <= i < |list| && list[i].id == id
  }

  /** The records notified strictly after `cutoff`, in their original order. */
  function NotifiedAfter(list: seq<NotifiedArticle>, cutoff: int): seq<NotifiedArticle>
  {
    if list == [] then []
    else if list[0].notifiedAt > cutoff then [list[0]] + NotifiedAfter(list[1..], cutoff)
    else NotifiedAfter(list[1..], cutoff)
  }

  /** The cutoff of CleanupOldArticles: `daysOld` days before `now`. */
  function Cutoff(daysOld: int, now: int): int {
    now - daysOld * SecondsPerDay
  }

  /** Specification of CleanupOldArticles; a non-positive age keeps everything. */
  function AgeFiltered(list: seq<NotifiedArticle>, daysOld: int, now: int): seq<NotifiedArticle> {
    if daysOld <= 0 then list else NotifiedAfter(list, Cutoff(daysOld, now))
  }

  /** Specification of LimitArticleCount: the last maxCount records (a suffix, not re-sorted). */
  function CountLimited(list: seq<NotifiedArticle>, maxCount: int): seq<NotifiedArticle> {
    if maxCount <= 0 || |list| <= maxCount then list else list[|list| - maxCount..]
  }

  /**
   * NotifiedAfter keeps exactly the records newer than the cutoff, in
   * their relative order.
   */
  lemma {:induction false} NotifiedAfterExact(list: seq<NotifiedArticle>, cutoff: int)
    ensures forall r :: r in NotifiedAfter(list, cutoff) <==> r in list && r.notifiedAt > cutoff
    ensures IsSubsequence(NotifiedAfter(list, cutoff), list)
    ensures |NotifiedAfter(list, cutoff)| <= |list|
  {
    if list != [] {
      NotifiedAfterExact(list[1..], cutoff);
      assert list == [list[0]] + list[1..];
    }
  }

  /** A list is left alone by the age filter when every record is recent enough. */
  lemma {:induction false} NotifiedAfterAllRecent(list: seq<NotifiedArticle>, cutoff: int)
    requires forall i :: 0 <= i < |list| ==> list[i].notifiedAt > cutoff
    ensures NotifiedAfter(list, cutoff) == list
  {
    if list != [] {
      NotifiedAfterAllRecent(list[1..], cutoff);
      assert list == [list[0]] + list[1..];
    }
  }

  /**
   * LimitArticleCount leaves at most maxCount records, and they are the
   * list's tail; a non-positive maxCount leaves the list as it is.
   */
  lemma CountLimitedSuffix(list: seq<NotifiedArticle>, maxCount: int)
    ensures maxCount <= 0 ==> CountLimited(list, maxCount) == list
    ensures var r := CountLimited(list, maxCount);
      (maxCount > 0 ==> |r| == if |list| <= maxCount then |list| else maxCount) &&
      |r| <= |list| && r == list[|list| - |r|..]
  {
  }

  /** Mutable per-feed state. */
  class FeedState {
    var lastCheck: int
    var notifiedArticles: seq<NotifiedArticle>

    /** The fresh entry GetFeedState creates. */
    constructor (now: int)
      ensures lastCheck == now && notifiedArticles == []
    {
      lastCheck := now;
      notifiedArticles := [];
    }

    /** The linear search of the source. */
    method IsArticleNotified(id: string) returns (found: bool)
      ensures found <==> HasId(notifiedArticles, id)
    {
      var i := 0;
      while i < |notifiedArticles|
        invariant 0 <= i <= |notifiedArticles|
        invariant forall j :: 0 <= j < i ==> notifiedArticles[j].id != id
      {
        if notifiedArticles[i].id == id {
          return true;
        }
        i := i + 1;
      }
      return false;
    }

    /** Appends one record at the end, without deduplicating, and stamps lastCheck. */
    method AddNotifiedArticle(a: Article, now: int)
      modifies this
      ensures notifiedArticles == old(notifiedArticles) + [RecordOf(a, now)]
      ensures lastCheck == now
    {
      notifiedArticles := notifiedArticles + [NotifiedArticle(a.id, a.title, a.url, a.publishedAt, now)];
      lastCheck := now;
    }

    /** Rebuilds the list from the records notified after the cutoff. */
    method CleanupOldArticles(daysOld: int, now: int)
      modifies this`notifiedArticles
      ensures notifiedArticles == AgeFiltered(old(notifiedArticles), daysOld, now)
    {
      if daysOld <= 0 {
        return;
      }
      var cutoff := now - daysOld * SecondsPerDay;
      var newList := [];
      var i := 0;
      while i < |notifiedArticles|
        invariant 0 <= i <= |notifiedArticles|
        invariant notifiedArticles == old(notifiedArticles)
        invariant newList + NotifiedAfter(notifiedArticles[i..], cutoff) == NotifiedAfter(notifiedArticles, cutoff)
      {
        assert notifiedArticles[i..] == [notifiedArticles[i]] + notifiedArticles[i + 1..];
        if notifiedArticles[i].notifiedAt > cutoff {
          newList := newList + [notifiedArticles[i]];
        }
        i := i + 1;
      }
      notifiedArticles := newList;
    }

    /** Reslices to the last maxCount records. */
    method LimitArticleCount(maxCount: int)
      modifies this`notifiedArticles
      ensures notifiedArticles == CountLimited(old(notifiedArticles), maxCount)
    {
      if maxCount <= 0 || |notifiedArticles| <= maxCount {
        return;
      }
      notifiedArticles := notifiedArticles[|notifiedArticles| - maxCount..];
    }
  }

  /** The whole state document. */
  class State {
    var version: string
    var lastUpdate: int
    var feeds: map<string, FeedState>
    var totalArticlesNotified: int
    var totalFeedsChecked: int
    var lastRunDuration: real

    /** Different feed URLs never share one FeedState object. */
    ghost predicate Valid()
      reads this
    {
      forall u, v :: u in feeds && v in feeds && u != v ==> feeds[u] != feeds[v]
    }

    /** The abstract content: each feed URL's list of notified records. */
    ghost function Lists(): map<string, seq<NotifiedArticle>>
      reads this, feeds.Values
    {
      map u | u in feeds :: feeds[u].notifiedArticles
    }

    /** NewState. */
    constructor (now: int)
      ensures Valid()
      ensures version == StateVersion && lastUpdate == now && feeds == map[]
      ensures totalArticlesNotified == 0 && totalFeedsChecked == 0 && lastRunDuration == 0.0
    {
      version := StateVersion;
      lastUpdate := now;
      feeds := map[];
      totalArticlesNotified := 0;
      totalFeedsChecked := 0;
      lastRunDuration := 0.0;
    }

    /** The entry for feedURL, created empty (and only then) when missing. */
    method GetFeedState(feedURL: string, now: int) returns (fs: FeedState)
      requires Valid()
      modifies this`feeds
      ensures Valid()
      ensures feedURL in old(feeds) ==> feeds == old(feeds) && fs == feeds[feedURL]
      ensures feedURL !in old(feeds) ==>
        fresh(fs) && feeds == old(feeds)[feedURL := fs] && fs.notifiedArticles == [] && fs.lastCheck == now
      ensures feedURL in feeds && feeds[feedURL] == fs
    {
      if feedURL in feeds {
        return feeds[feedURL];
      }
      fs := new FeedState(now);
      feeds := feeds[feedURL := fs];
    }
  }
}
