// The feed configuration record of pkg/models/feed.go.
module FeedConfigs {

  /** One configured feed. An empty webhookURL means "use the default endpoint". */
  datatype FeedConfig = FeedConfig(
    name: string,
    url: string,
    category: string,
    enabled: bool,
    webhookURL: string)

  /** A feed needs a name and a URL; category, enabled and webhook are not consulted. */
  predicate IsValid(f: FeedConfig) {
    f.name != "" && f.url != ""
  }

  /** Validity depends on the name and the URL alone. */
  lemma ValidityIgnoresOptionalFields(f: FeedConfig, category: string, enabled: bool, webhookURL: string)
    ensures IsValid(f) == IsValid(f.(category := category, enabled := enabled, webhookURL := webhookURL))
    ensures IsValid(f) <==> f.name != [] && f.url != []
  {
  }
}
