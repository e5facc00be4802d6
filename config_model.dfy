// The application configuration of pkg/models/config.go: enabled-feed
// filtering and the defaulting of notification settings.
module ConfigModel {
  import opened Optional
  import opened FeedConfigs
  import opened Seqs

  const DefaultMaxArticlesPerRun := 10
  const DefaultTimeoutSeconds := 30
  const DefaultRateLimitMs := 1000

  datatype NotificationConfig = NotificationConfig(
    maxArticlesPerRun: int,
    timeoutSeconds: int,
    rateLimitMs: int)

  /** The YAML document; a missing `notification` section is None. */
  datatype Config = Config(
    version: string,
    notification: Option<NotificationConfig>,
    feeds: seq<FeedConfig>)

  /** Specification of GetEnabledFeeds: the enabled feeds in their original order. */
  function EnabledFeeds(feeds: seq<FeedConfig>): seq<FeedConfig>
  {
    if feeds == [] then []
    else if feeds[0].enabled then [feeds[0]] + EnabledFeeds(feeds[1..])
    else EnabledFeeds(feeds[1..])
  }

  /** EnabledFeeds keeps exactly the enabled feeds, in order. */
  lemma {:induction false} EnabledFeedsExact(feeds: seq<FeedConfig>)
    ensures forall f :: f in EnabledFeeds(feeds) <==> f in feeds && f.enabled
    ensures IsSubsequence(EnabledFeeds(feeds), feeds)
    ensures |EnabledFeeds(feeds)| <= |feeds|
  {
    if feeds != [] {
      EnabledFeedsExact(feeds[1..]);
      assert feeds == [feeds[0]] + feeds[1..];
    }
  }

  /** The append loop of GetEnabledFeeds. */
  method GetEnabledFeeds(c: Config) returns (enabled: seq<FeedConfig>)
    ensures enabled == EnabledFeeds(c.feeds)
  {
    enabled := [];
    var i := 0;
    while i < |c.feeds|
      invariant 0 <= i <= |c.feeds|
      invariant enabled + EnabledFeeds(c.feeds[i..]) == EnabledFeeds(c.feeds)
    {
      assert c.feeds[i..] == [c.feeds[i]] + c.feeds[i + 1..];
      if c.feeds[i].enabled {
        enabled := enabled + [c.feeds[i]];
      }
      i := i + 1;
    }
  }

  /** Settings that the rest of the program accepts after defaulting. */
  predicate InRange(n: NotificationConfig) {
    n.maxArticlesPerRun > 0 && n.timeoutSeconds > 0 && n.rateLimitMs >= 0
  }

  /**
   * Config.Validate: install 10 / 30 / 1000 for a missing section, then
   * replace each out-of-range value by its default. It never fails, so the
   * error result of the source is not modelled.
   */
  function Validate(c: Config): (r: Config)
    ensures r.version == c.version && r.feeds == c.feeds
    ensures r.notification.Some? && InRange(r.notification.value)
    ensures c.notification.None? ==>
      r.notification == Some(NotificationConfig(DefaultMaxArticlesPerRun, DefaultTimeoutSeconds, DefaultRateLimitMs))
    ensures c.notification.Some? ==>
      var n, m := c.notification.value, r.notification.value;
      (m.maxArticlesPerRun == if n.maxArticlesPerRun > 0 then n.maxArticlesPerRun else DefaultMaxArticlesPerRun) &&
      (m.timeoutSeconds == if n.timeoutSeconds > 0 then n.timeoutSeconds else DefaultTimeoutSeconds) &&
      (m.rateLimitMs == if n.rateLimitMs >= 0 then n.rateLimitMs else DefaultRateLimitMs)
  {
    var n := if c.notification.Some? then c.notification.value else (NotificationConfig(DefaultMaxArticlesPerRun, DefaultTimeoutSeconds, DefaultRateLimitMs));
    var n1 := if n.maxArticlesPerRun <= 0 then n.(maxArticlesPerRun := DefaultMaxArticlesPerRun) else n;
    var n2 := if n1.timeoutSeconds <= 0 then n1.(timeoutSeconds := DefaultTimeoutSeconds) else n1;
    var n3 := if n2.rateLimitMs < 0 then n2.(rateLimitMs := DefaultRateLimitMs) else n2;
    c.(notification := Some(n3))
  }

  /** In-range settings are kept as they are, so validating twice is validating once. */
  lemma ValidateIdempotent(c: Config)
    ensures c.notification.Some? && InRange(c.notification.value) ==> Validate(c) == c
    ensures Validate(Validate(c)) == Validate(c)
  {
  }
}
