// Application-level validation and the webhook expansion loop of
// internal/config/config.go. Reading YAML and the process environment is
// not modelled: the decoded config and the environment map are inputs.
module AppConfigs {
  import opened FeedConfigs
  import opened ConfigModel
  import Env
  import Logger

  datatype AppConfig = AppConfig(
    config: Config,
    discordWebhookURL: string,
    stateFilePath: string,
    logLevel: string,
    logFormat: string)

  /** The error values of AppConfig.Validate, in the order they are checked. */
  datatype ValidationError =
    | MissingWebhookURL
    | NoFeeds
    | NoEnabledFeeds
    | InvalidFeed(index: nat, name: string)
    | InvalidLogLevel(level: string)

  datatype Outcome = Pass | Fail(error: ValidationError)

  /** Index of the first feed that is not valid, or |feeds| when all are. */
  function FirstInvalidFeed(feeds: seq<FeedConfig>): (i: nat)
    ensures i <= |feeds|
    ensures forall j :: 0 <= j < i ==> IsValid(feeds[j])
    ensures i < |feeds| ==> !IsValid(feeds[i])
  {
    if feeds == [] then 0
    else if !IsValid(feeds[0]) then 0
    else 1 + FirstInvalidFeed(feeds[1..])
  }

  /** AppConfig.Validate: the checks of the source, first failure wins. */
  function Validate(a: AppConfig): (r: Outcome)
    ensures r == Fail(MissingWebhookURL) <==> a.discordWebhookURL == ""
    ensures r.Pass? <==>
      && a.discordWebhookURL != ""
      && |EnabledFeeds(a.config.feeds)| > 0
      && (forall f :: f in a.config.feeds ==> IsValid(f))
      && Logger.IsLevelName(a.logLevel)
    ensures r == Fail(NoFeeds) <==> a.discordWebhookURL != "" && a.config.feeds == []
    ensures r == Fail(NoEnabledFeeds) <==>
      a.discordWebhookURL != "" && a.config.feeds != [] && |EnabledFeeds(a.config.feeds)| == 0
    ensures (r.Fail? && r.error.InvalidFeed?) <==>
      a.discordWebhookURL != "" && |EnabledFeeds(a.config.feeds)| > 0 &&
      FirstInvalidFeed(a.config.feeds) < |a.config.feeds|
    ensures r.Fail? && r.error.InvalidFeed? ==> r.error.index == FirstInvalidFeed(a.config.feeds)
    ensures (r.Fail? && r.error.InvalidLogLevel?) <==>
      a.discordWebhookURL != "" && |EnabledFeeds(a.config.feeds)| > 0 &&
      FirstInvalidFeed(a.config.feeds) == |a.config.feeds| && !Logger.IsLevelName(a.logLevel)
    ensures r.Fail? && r.error.InvalidFeed? ==>
      r.error.index < |a.config.feeds| && !IsValid(a.config.feeds[r.error.index]) &&
      r.error.name == a.config.feeds[r.error.index].name
    ensures r.Fail? && r.error.InvalidLogLevel? ==> r.error.level == a.logLevel && !Logger.IsLevelName(a.logLevel)
  {
    var feeds := a.config.feeds;
    if a.discordWebhookURL == "" then Fail(MissingWebhookURL)
    else if |feeds| == 0 then Fail(NoFeeds)
    else if |EnabledFeeds(feeds)| == 0 then Fail(NoEnabledFeeds)
    else
      var i := FirstInvalidFeed(feeds);
      if i < |feeds| then Fail(InvalidFeed(i, feeds[i].name))
      else if !Logger.IsLevelName(a.logLevel) then Fail(InvalidLogLevel(a.logLevel))
      else Pass
  }

  /** A configuration that validates has a log level the parser maps onto itself. */
  lemma ValidLevelParses(a: AppConfig)
    requires Validate(a).Pass?
    ensures Logger.ParseLevel(a.logLevel).Name() == a.logLevel
  {
  }

  /** The feed record after the expansion step of loadConfigFile. */
  function ExpandedFeed(f: FeedConfig, env: Env.Environment): FeedConfig {
    if f.webhookURL != "" then f.(webhookURL := Env.ExpandEnvVars(f.webhookURL, env)) else f
  }

  /**
   * The loop of loadConfigFile that rewrites each non-empty feed webhook URL
   * in place through ExpandEnvVars; empty URLs and all other fields stay.
   */
  method ExpandFeedWebhooks(feeds: array<FeedConfig>, env: Env.Environment)
    modifies feeds
    ensures forall i :: 0 <= i < feeds.Length ==> feeds[i] == ExpandedFeed(old(feeds[i]), env)
  {
    var i := 0;
    while i < feeds.Length
      invariant 0 <= i <= feeds.Length
      invariant forall j :: 0 <= j < i ==> feeds[j] == ExpandedFeed(old(feeds[j]), env)
      invariant forall j :: i <= j < feeds.Length ==> feeds[j] == old(feeds[j])
    {
      if feeds[i].webhookURL != "" {
        feeds[i] := feeds[i].(webhookURL := Env.ExpandEnvVars(feeds[i].webhookURL, env));
      }
      i := i + 1;
    }
  }

  /** Expansion keeps empty webhook URLs empty and touches no other field. */
  lemma ExpandedFeedShape(f: FeedConfig, env: Env.Environment)
    ensures ExpandedFeed(f, env).webhookURL == "" <==> f.webhookURL == ""
    ensures ExpandedFeed(f, env).(webhookURL := f.webhookURL) == f
    ensures IsValid(ExpandedFeed(f, env)) == IsValid(f)
  {
    if f.webhookURL != "" {
      Env.ExpandNonEmpty(f.webhookURL, env);
    }
  }
}
