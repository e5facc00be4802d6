// The state manager of internal/state/manager.go: queries, marking,
// statistics, retention cleanup and the two limit setters. Reading and
// writing the state file is not modelled; Save is cleanup then the
// lastUpdate stamp.
module StateManager {
  import opened Articles
  import opened StateModel

  const DefaultMaxArticlesPerFeed := 100
  const DefaultCleanupDays := 30

  type Lists = map<string, seq<NotifiedArticle>>

  /** The list stored for a feed, empty when the feed has no entry. */
  function ListOf(c: Lists, feedURL: string): seq<NotifiedArticle> {
    if feedURL in c then c[feedURL] else []
  }

  /** Whether an article id is recorded for a feed; unknown feeds hold nothing. */
  predicate IsNotifiedIn(c: Lists, feedURL: string, id: string) {
    feedURL in c && HasId(c[feedURL], id)
  }

  /** The lists after MarkAsNotified(a): one record appended to a's feed. */
  function Marked(c: Lists, a: Article, now: int): (r: Lists)
    ensures r.Keys == c.Keys + {a.feedURL}
  {
    c[a.feedURL := ListOf(c, a.feedURL) + [RecordOf(a, now)]]
  }

  /** Retention applied by cleanup to one list: nothing when cleanupDays <= 0. */
  function CleanedList(list: seq<NotifiedArticle>, cleanupDays: int, maxPerFeed: int, now: int): seq<NotifiedArticle> {
    if cleanupDays <= 0 then list
    else CountLimited(AgeFiltered(list, cleanupDays, now), maxPerFeed)
  }

  /** Retention applied by cleanup to every feed; no key is removed. */
  function Cleaned(c: Lists, cleanupDays: int, maxPerFeed: int, now: int): (r: Lists)
    ensures r.Keys == c.Keys
  {
    map u | u in c :: CleanedList(c[u], cleanupDays, maxPerFeed, now)
  }

  /** Cleanup part way through: the feeds still in `pending` are not cleaned yet. */
  function PartlyCleaned(c: Lists, pending: set<string>, cleanupDays: int, maxPerFeed: int, now: int): (r: Lists)
    ensures r.Keys == c.Keys
  {
    map u | u in c :: if u in pending then c[u] else CleanedList(c[u], cleanupDays, maxPerFeed, now)
  }

  /** Cleaning one pending feed moves it out of the pending set. */
  lemma PartlyCleanedStep(c: Lists, pending: set<string>, u: string, cleanupDays: int, maxPerFeed: int, now: int)
    requires u in pending && u in c
    ensures PartlyCleaned(c, pending, cleanupDays, maxPerFeed, now)[u := CleanedList(c[u], cleanupDays, maxPerFeed, now)] ==
      PartlyCleaned(c, pending - {u}, cleanupDays, maxPerFeed, now)
  {
  }

  /** Marking makes the membership query true and touches no other feed. */
  lemma MarkedIsNotified(c: Lists, a: Article, now: int)
    ensures IsNotifiedIn(Marked(c, a, now), a.feedURL, a.id)
    ensures forall u :: u in c && u != a.feedURL ==> Marked(c, a, now)[u] == c[u]
    ensures forall u, id :: IsNotifiedIn(c, u, id) ==> IsNotifiedIn(Marked(c, a, now), u, id)
    ensures |ListOf(Marked(c, a, now), a.feedURL)| == |ListOf(c, a.feedURL)| + 1
  {
    var l := ListOf(c, a.feedURL) + [RecordOf(a, now)];
    assert l[|l| - 1].id == a.id;
    forall u, id | IsNotifiedIn(c, u, id) ensures IsNotifiedIn(Marked(c, a, now), u, id) {
      var i :| 0 <= i < |c[u]| && c[u][i].id == id;
      if u == a.feedURL {
        assert l[i] == c[u][i];
      }
    }
  }
  /** After marking, exactly the old pairs and the marked article's pair are notified. */
  lemma MarkedExact(c: Lists, a: Article, now: int)
    ensures forall u, id :: IsNotifiedIn(Marked(c, a, now), u, id) <==>
      IsNotifiedIn(c, u, id) || (u == a.feedURL && id == a.id)
  {
    MarkedIsNotified(c, a, now);
    var l := ListOf(c, a.feedURL) + [RecordOf(a, now)];
    forall u, id | IsNotifiedIn(Marked(c, a, now), u, id) && u == a.feedURL && id != a.id
      ensures IsNotifiedIn(c, u, id)
    {
      var i :| 0 <= i < |l| && l[i].id == id;
      assert i < |ListOf(c, a.feedURL)|;
      assert l[i] == c[u][i];
    }
  }


  /** After any mark the feed map is no longer empty, so it is no longer a first run. */
  lemma MarkedNotFirstRun(c: Lists, a: Article, now: int)
    ensures Marked(c, a, now) != map[]
  {
    assert a.feedURL in Marked(c, a, now);
  }

  /** An empty (fresh or reset) state has nothing notified. */
  lemma EmptyNothingNotified(feedURL: string, id: string)
    ensures !IsNotifiedIn(map[], feedURL, id)
    ensures |ListOf(map[], feedURL)| == 0
  {
  }

  /**
   * The retention invariant: every list is at most maxPerFeed long and holds
   * only records of the feed's earlier list notified after the age cutoff.
   */
  predicate RetentionBounded(after: Lists, before: Lists, cleanupDays: int, maxPerFeed: int, now: int) {
    forall u :: u in after ==>
      u in before && |after[u]| <= maxPerFeed &&
      forall r :: r in after[u] ==> r in before[u] && r.notifiedAt > Cutoff(cleanupDays, now)
  }

  /** With positive limits, cleanup establishes the retention invariant. */
  lemma CleanedRetentionBounded(c: Lists, cleanupDays: int, maxPerFeed: int, now: int)
    requires cleanupDays > 0 && maxPerFeed > 0
    ensures RetentionBounded(Cleaned(c, cleanupDays, maxPerFeed, now), c, cleanupDays, maxPerFeed, now)
  {
    var after := Cleaned(c, cleanupDays, maxPerFeed, now);
    forall u | u in after
      ensures u in c && |after[u]| <= maxPerFeed
      ensures forall r :: r in after[u] ==> r in c[u] && r.notifiedAt > Cutoff(cleanupDays, now)
    {
      assert after[u] == CleanedList(c[u], cleanupDays, maxPerFeed, now);
      CleanedListBounded(c[u], cleanupDays, maxPerFeed, now);
    }
  }

  /**
   * With positive limits, cleanup bounds every list by maxPerFeed and keeps
   * only records notified after the age cutoff, each of them from the old list.
   */
  lemma CleanedBounds(c: Lists, cleanupDays: int, maxPerFeed: int, now: int)
    requires cleanupDays > 0 && maxPerFeed > 0
    ensures forall u :: u in Cleaned(c, cleanupDays, maxPerFeed, now) ==>
      |Cleaned(c, cleanupDays, maxPerFeed, now)[u]| <= maxPerFeed
    ensures forall u, r :: u in c && r in Cleaned(c, cleanupDays, maxPerFeed, now)[u] ==>
      r in c[u] && r.notifiedAt > Cutoff(cleanupDays, now)
  {
    forall u | u in c
      ensures |Cleaned(c, cleanupDays, maxPerFeed, now)[u]| <= maxPerFeed
      ensures forall r :: r in Cleaned(c, cleanupDays, maxPerFeed, now)[u] ==>
        r in c[u] && r.notifiedAt > Cutoff(cleanupDays, now)
    {
      CleanedListBounded(c[u], cleanupDays, maxPerFeed, now);
    }
  }

  /** One feed's cleaned list: at most maxPerFeed records, each from the list and after the cutoff. */
  lemma CleanedListBounded(list: seq<NotifiedArticle>, cleanupDays: int, maxPerFeed: int, now: int)
    requires cleanupDays > 0 && maxPerFeed > 0
    ensures |CleanedList(list, cleanupDays, maxPerFeed, now)| <= maxPerFeed
    ensures forall r :: r in CleanedList(list, cleanupDays, maxPerFeed, now) ==>
      r in list && r.notifiedAt > Cutoff(cleanupDays, now)
  {
    var kept := NotifiedAfter(list, Cutoff(cleanupDays, now));
    NotifiedAfterExact(list, Cutoff(cleanupDays, now));
    CountLimitedSuffix(kept, maxPerFeed);
    var r := CountLimited(kept, maxPerFeed);
    forall x | x in r ensures x in kept {
      var i :| 0 <= i < |r| && r[i] == x;
      assert x == kept[|kept| - |r| + i];
    }
  }

  /** The count bound applies to a list that is within the age window. */
  lemma CleanedListRecent(list: seq<NotifiedArticle>, cleanupDays: int, maxPerFeed: int, now: int)
    requires cleanupDays > 0 && maxPerFeed > 0
    requires forall i :: 0 <= i < |list| ==> list[i].notifiedAt > Cutoff(cleanupDays, now)
    ensures CleanedList(list, cleanupDays, maxPerFeed, now) == CountLimited(list, maxPerFeed)
  {
    NotifiedAfterAllRecent(list, Cutoff(cleanupDays, now));
  }

  /** The manager's abstract state: the notified lists and the statistics fields. */
  datatype StateValue = StateValue(lists: Lists, notified: int, checked: int, duration: real, updated: int)

  /** The value after MarkAsNotified(a): one more record for a's feed, one more notification counted. */
  function NotifiedValue(v: StateValue, a: Article, now: int): (r: StateValue)
    ensures r.notified == v.notified + 1
    ensures r.checked == v.checked && r.duration == v.duration && r.updated == v.updated
  {
    v.(lists := Marked(v.lists, a, now), notified := v.notified + 1)
  }

  class Manager {
    var state: State
    var maxArticlesPerFeed: int
    var cleanupDays: int

    ghost predicate Valid()
      reads this, state
    {
      state.Valid()
    }

    /** Both limits are positive: true from construction on, kept by the setters. */
    predicate LimitsPositive()
      reads this
    {
      maxArticlesPerFeed > 0 && cleanupDays > 0
    }

    /** The abstract notified lists, per feed URL. */
    ghost function Contents(): Lists
      reads this, state, state.feeds.Values
    {
      state.Lists()
    }

    /** The lists together with the statistics fields. */
    ghost function Value(): StateValue
      reads this, state, state.feeds.Values
    {
      StateValue(Contents(), state.totalArticlesNotified, state.totalFeedsChecked, state.lastRunDuration, state.lastUpdate)
    }

    /** NewManager: a fresh empty state, 100 records per feed, 30 days. */
    constructor (now: int)
      ensures Valid() && LimitsPositive() && fresh(state)
      ensures state.feeds == map[] && Contents() == map[]
      ensures state.version == StateVersion && state.lastUpdate == now
      ensures state.totalArticlesNotified == 0 && state.totalFeedsChecked == 0
      ensures maxArticlesPerFeed == DefaultMaxArticlesPerFeed && cleanupDays == DefaultCleanupDays
      ensures Value() == StateValue(map[], 0, 0, 0.0, now)
    {
      state := new State(now);
      maxArticlesPerFeed := DefaultMaxArticlesPerFeed;
      cleanupDays := DefaultCleanupDays;
    }

    /** Looks the feed up without creating it; an unknown feed is not notified. */
    method IsArticleNotified(feedURL: string, articleID: string) returns (b: bool)
      requires Valid()
      ensures b <==> IsNotifiedIn(Contents(), feedURL, articleID)
    {
      if feedURL !in state.feeds {
        return false;
      }
      var fs := state.feeds[feedURL];
      b := fs.IsArticleNotified(articleID);
    }

    /** Appends a record to the article's feed (creating it) and counts it. */
    method MarkAsNotified(a: Article, now: int)
      requires Valid()
      modifies state, state.feeds.Values
      ensures Valid() && state == old(state) && unchanged(this)
      ensures Value() == NotifiedValue(old(Value()), a, now)
      ensures forall o :: o in state.feeds.Values ==> o in old(state.feeds.Values) || fresh(o)
      ensures state.version == old(state.version)
    {
      ghost var before := Contents();
      var fs := state.GetFeedState(a.feedURL, now);
      assert fs.notifiedArticles == ListOf(before, a.feedURL);
      assert forall v :: v in state.feeds && v != a.feedURL ==> state.feeds[v] != fs;
      fs.AddNotifiedArticle(a, now);
      state.totalArticlesNotified := state.totalArticlesNotified + 1;
      ghost var after := Marked(before, a, now);
      assert Contents().Keys == after.Keys;
      assert forall v :: v in after ==> Contents()[v] == after[v];
    }

    /** Adds to the feeds-checked counter and overwrites the run duration. */
    method UpdateStatistics(feedsChecked: int, duration: real)
      requires Valid()
      modifies state`totalFeedsChecked, state`lastRunDuration
      ensures Valid()
      ensures state.totalFeedsChecked == old(state.totalFeedsChecked) + feedsChecked
      ensures state.lastRunDuration == duration
      ensures Contents() == old(Contents())
      ensures Value() == old(Value()).(checked := old(Value()).checked + feedsChecked, duration := duration)
    {
      state.totalFeedsChecked := state.totalFeedsChecked + feedsChecked;
      state.lastRunDuration := duration;
    }

    /** The two retention passes of cleanup on one feed's list. */
    method CleanupFeed(u: string, now: int)
      requires Valid() && u in state.feeds
      modifies state.feeds[u]
      ensures Valid()
      ensures state.feeds == old(state.feeds)
      ensures Contents() ==
        old(Contents())[u := CountLimited(AgeFiltered(old(Contents())[u], cleanupDays, now), maxArticlesPerFeed)]
    {
      ghost var before := Contents();
      var fs := state.feeds[u];
      assert forall v :: v in state.feeds && v != u ==> state.feeds[v] != fs;
      fs.CleanupOldArticles(cleanupDays, now);
      fs.LimitArticleCount(maxArticlesPerFeed);
      ghost var after := before[u := fs.notifiedArticles];
      assert Contents().Keys == after.Keys;
      assert forall v :: v in after ==> Contents()[v] == after[v];
    }

    /** Age then count retention on every feed, in the map's (arbitrary) order. */
    method Cleanup(now: int)
      requires Valid()
      modifies state.feeds.Values
      ensures Valid()
      ensures state.feeds == old(state.feeds)
      ensures Contents() == Cleaned(old(Contents()), cleanupDays, maxArticlesPerFeed, now)
      ensures LimitsPositive() ==> RetentionBounded(Contents(), old(Contents()), cleanupDays, maxArticlesPerFeed, now)
    {
      if cleanupDays <= 0 {
        assert Cleaned(Contents(), cleanupDays, maxArticlesPerFeed, now) == Contents();
        return;
      }
      ghost var before := Contents();
      var keys := state.feeds.Keys;
      while keys != {}
        invariant keys <= state.feeds.Keys == before.Keys
        invariant Valid() && state.feeds == old(state.feeds)
        invariant Contents() == PartlyCleaned(before, keys, cleanupDays, maxArticlesPerFeed, now)
        decreases keys
      {
        var u :| u in keys;
        CleanupFeed(u, now);
        PartlyCleanedStep(before, keys, u, cleanupDays, maxArticlesPerFeed, now);
        keys := keys - {u};
      }
      assert PartlyCleaned(before, {}, cleanupDays, maxArticlesPerFeed, now) ==
        Cleaned(before, cleanupDays, maxArticlesPerFeed, now);
      if LimitsPositive() {
        CleanedRetentionBounded(before, cleanupDays, maxArticlesPerFeed, now);
      }
    }

    /** Save without the file write: cleanup, then stamp the update time. */
    method Save(now: int)
      requires Valid()
      modifies state`lastUpdate, state.feeds.Values
      ensures Valid()
      ensures state.feeds == old(state.feeds)
      ensures Contents() == Cleaned(old(Contents()), cleanupDays, maxArticlesPerFeed, now)
      ensures state.lastUpdate == now
      ensures LimitsPositive() ==> RetentionBounded(Contents(), old(Contents()), cleanupDays, maxArticlesPerFeed, now)
      ensures Value() == old(Value()).(lists := Cleaned(old(Contents()), cleanupDays, maxArticlesPerFeed, now), updated := now)
    {
      Cleanup(now);
      state.lastUpdate := now;
    }

    /** Replaces the state by a fresh empty one. */
    method Reset(now: int)
      modifies this`state
      ensures Valid() && fresh(state) && state.version == StateVersion
      ensures Value() == StateValue(map[], 0, 0, 0.0, now)
    {
      state := new State(now);
    }

    /** The number of records for a feed; 0 for an unknown feed. */
    method GetNotifiedArticleCount(feedURL: string) returns (n: int)
      requires Valid()
      ensures n == |ListOf(Contents(), feedURL)|
    {
      if feedURL !in state.feeds {
        return 0;
      }
      n := |state.feeds[feedURL].notifiedArticles|;
    }

    /** First run: the feed map is empty. */
    method IsFirstRun() returns (b: bool)
      requires Valid()
      ensures b <==> Contents() == map[]
    {
      b := |state.feeds| == 0;
      assert b <==> state.feeds.Keys == {};
      assert Contents().Keys == state.feeds.Keys;
    }

    /** Ignores non-positive values. */
    method SetMaxArticlesPerFeed(max: int)
      modifies this`maxArticlesPerFeed
      ensures maxArticlesPerFeed == if max > 0 then max else old(maxArticlesPerFeed)
      ensures old(LimitsPositive()) ==> LimitsPositive()
    {
      if max > 0 {
        maxArticlesPerFeed := max;
      }
    }

    /** Ignores non-positive values. */
    method SetCleanupDays(days: int)
      modifies this`cleanupDays
      ensures cleanupDays == if days > 0 then days else old(cleanupDays)
      ensures old(LimitsPositive()) ==> LimitsPositive()
    {
      if days > 0 {
        cleanupDays := days;
      }
    }
  }
}
