# rss-discord-notifier, modelled in Dafny

rss-discord-notifier is a one-shot batch job that runs in cron or CI:
1. It reads a YAML list of RSS feeds.
2. It fetches the enabled feeds.
3. It keeps the articles it has not notified before, and caps them to a small batch.
4. It posts each of them to a Discord webhook, oldest first, with retries.
5. It records every article that did go out in a JSON state file, then prunes that file.

This project models the decision logic of that job and proves what it guarantees. The clock, the network and the process environment are parameters.

The modules follow the Go packages.

| module | file | models |
|---|---|---|
| `Logger` | logger.dfy | the log level and format parsers |
| `FeedConfigs` | feed_config.dfy | the feed record and its validity (`pkg/models/feed.go`) |
| `ConfigModel` | config_model.dfy | enabled-feed filtering and the defaulting of the notification settings (`pkg/models/config.go`) |
| `AppConfigs` | app_config.dfy | application validation and the in-place `${NAME}` expansion of feed webhook URLs (`internal/config/config.go`) |
| `Env` | env.dfy | `ExpandEnvVars` as a left-to-right scanner for `\$\{([A-Z_][A-Z0-9_]*)\}`; the environment is a map |
| `Utf8` | utf8.dfy | the UTF-8 bytes of a string, which Go's `len` and slicing count |
| `Articles` | article.dfy | the article record, its validity and the description shortener |
| `HtmlText` | html.dfy | `stripHTML`: the break replacements, the `inTag` scan and the whitespace normalisation |
| `FeedFetcher` | fetcher.dfy | `convertToArticle` and the loop of `Fetch` that keeps valid articles |
| `StateModel` | state.dfy | the state document as classes; `FeedState` and `State` mutate their fields as the Go structs do |
| `StateManager` | manager.dfy | the `Manager` class with marking, statistics, cleanup, reset and the limit setters |
| `Discord` | discord.dfy | `Notifier` as a class: message construction, the retry loop and the batch loop |
| `ArticleOrder` | ordering.dfy | `limitArticles` and `sortArticlesByPublishedAt` |
| `Pipeline` | pipeline.dfy | the pipeline of `run` (see below) |

`Optional` (option.dfy) and `Seqs` (seqs.dfy) hold the `Option` type and the subsequence predicate.

`run`'s pipeline, from the first-run check to `Save`, goes:
1. filter against the state;
2. the first-run cap and the per-run cap;
3. the oldest-first sort;
4. for each article, a notifier per endpoint, send, and mark only on success;
5. the rate-limit wait, whose cancellation ends the run early;
6. the statistics update and `Save`.

Most loops of the source are `while` loops proved against a specification:
- against a recursive function: `GetEnabledFeeds`, `filterNewArticles`, the item loop of `Fetch`, the rune loop of `stripHTML`, `CleanupOldArticles`, `sendWithRetry`, `SendArticles` and the send loop of `run`;
- against a quantified statement: `IsArticleNotified` (some record has the id) and the `${NAME}` expansion loop of config.go (every feed of the array rewritten);
- against the map comprehension `StateManager.Cleaned`, through `StateManager.PartlyCleaned` for the feeds done so far: the loop of `Manager.Cleanup`.

Two loops are not `while` loops. The feed-validity loop of config.go (lines 102-106) only searches, so it is the recursive function `AppConfigs.FirstInvalidFeed`. The sorts of `limitArticles` and `sortArticlesByPublishedAt` call `sort.Slice` on a copy, so they are functions.

Lemmas about the specifications state what the source promises:
- sorted and a permutation;
- marked iff delivered;
- at most `maxRetries` attempts;
- every list bounded after cleanup.

The stateful parts are classes with `modifies` frames. Among them, `StateManager.Manager` exposes a ghost `Value()`: the notified lists per feed and the statistics fields. Each method states its new `Value()` as a function of the old one. `Pipeline.Run` then states the whole state after a run:
- if the loop was interrupted, the delivered articles are marked;
- otherwise the delivered articles are marked, then the statistics are added and the retention cleanup is applied.

Conventions:
- Times are integer seconds.
- Durations in the notifier are integer nanoseconds, as Go's `time.Duration`.
- Strings are `seq<char>`, one element per Unicode character. Where Go measures or cuts a string (`len`, `s[:n]`), the model works on its UTF-8 bytes, `Utf8.Encode(s)`.

## Model

| member | source | states |
|---|---|---|
| Logger.ParseLevel | internal/logger/logger.go:135-148 | each of the four exact spellings DEBUG/INFO/WARN/ERROR gives the level of that name; every other string gives Info |
| Logger.ParseFormat | internal/logger/logger.go:151-160 | "text" gives Text; every other string, "json" included, gives Json |
| Logger.ParseLevelName | internal/logger/logger.go:135-148 | every level's name parses back to that level |
| Logger.ParseFormatName | internal/logger/logger.go:151-160 | every format's name parses back to that format |
| FeedConfigs.IsValid | pkg/models/feed.go:25-28 | a feed is valid iff name and URL are non-empty; ValidityIgnoresOptionalFields states what it ignores |
| FeedConfigs.ValidityIgnoresOptionalFields | pkg/models/feed.go:25-28 | a feed is valid iff name and URL are non-empty; category, enabled and webhook URL do not affect it |
| ConfigModel.EnabledFeeds | pkg/models/config.go:28-38 | the specification of GetEnabledFeeds; EnabledFeedsExact states what it keeps |
| ConfigModel.EnabledFeedsExact | pkg/models/config.go:28-38 | the enabled-feed list holds exactly the enabled feeds, as an order-preserving subsequence, no longer than the input |
| ConfigModel.GetEnabledFeeds | pkg/models/config.go:28-38 | the append loop returns the enabled-feed specification |
| ConfigModel.Validate | pkg/models/config.go:41-65 | a missing section becomes 10/30/1000; each out-of-range value is replaced by its default and each in-range one (RateLimitMs = 0 included) kept; afterwards all three values are in range; version and feeds untouched |
| ConfigModel.ValidateIdempotent | pkg/models/config.go:52-64 | in-range settings are returned unchanged, so validating twice equals validating once |
| AppConfigs.FirstInvalidFeed | internal/config/config.go:102-106 | the index of the first invalid feed: all before it are valid, it is invalid, or it is the length when none is |
| AppConfigs.Validate | internal/config/config.go:84-120 | the errors come in the source's check order, each exactly when the checks before it pass and its own fails: MissingWebhookURL iff the URL is empty, then NoFeeds, NoEnabledFeeds, InvalidFeed carrying the first invalid index, InvalidLogLevel; passing happens iff the webhook URL is set, some feed is enabled, every feed (enabled or not) is valid and the log level is one of the four; no feeds fails with NoFeeds exactly when the URL is set; an InvalidFeed error names an invalid feed by index and name; an InvalidLogLevel error carries the rejected level |
| AppConfigs.ValidLevelParses | internal/config/config.go:109-117 | a configuration that validates has a level that ParseLevel maps onto itself |
| AppConfigs.ExpandFeedWebhooks | internal/config/config.go:74-78 | every feed of the array is rewritten in place: a non-empty webhook URL through ExpandEnvVars, everything else unchanged |
| AppConfigs.ExpandedFeed | internal/config/config.go:74-78 | one feed after expansion; ExpandedFeedShape states what changes |
| AppConfigs.ExpandedFeedShape | internal/config/config.go:74-78 | after expansion a webhook URL is empty iff it was empty before; no other field changes; feed validity is preserved |
| Env.NameRun | internal/config/env.go:10 | the length of the longest leading run of characters from [A-Z0-9_] |
| Env.MatchAt | internal/config/env.go:10 | a positive result k means the text starts with "${", a name of the form [A-Z_][A-Z0-9_]* of length k, then "}" |
| Env.PlaceholderMatches | internal/config/env.go:10 | for every name of the form [A-Z_][A-Z0-9_]*, "${name}" is one match of the pattern, whatever follows it |
| Env.NameRunOfName | internal/config/env.go:10 | the name run stops exactly at the first character outside the class |
| Env.ExpandEmpty | internal/config/env.go:20-22 | the empty string expands to itself |
| Env.ExpandEnvVars | internal/config/env.go:19-39 | the left-to-right scan for `${NAME}` placeholders; the other Env lemmas in this table state its behaviour |
| Env.NoDollarUnchanged | internal/config/env.go:19-39 | text without `$` is returned unchanged |
| Env.NoPlaceholderUnchanged | internal/config/env.go:25-39 | text in which the pattern matches nowhere is returned unchanged |
| Env.ExpandPlainChar | internal/config/env.go:25 | a character other than `$` is copied and the scan continues after it |
| Env.PlainPrefixKept | internal/config/env.go:25-37 | a `$`-free prefix is kept verbatim in front of the expansion of the rest |
| Env.PlaceholderExpansion | internal/config/env.go:25-36 | each placeholder is replaced independently: a set, non-empty variable by its value, an unset or empty one left verbatim; the scan then goes on after it |
| Env.ExpandNonEmpty | internal/config/env.go:25-37 | a non-empty input never expands to the empty string |
| Env.RejectedNameKept | internal/config/env.go:10 | "${name}" with a name the pattern rejects (lower case, a leading digit, empty) is never replaced, whatever the environment holds |
| Utf8.EncodeChar | pkg/models/article.go:53-62 | a character takes one to four bytes: exactly one, its own code, for ASCII; exactly three for U+0800..U+FFFF; a longer encoding is a lead byte of at least 0xC0 followed by continuation bytes 0x80..0xBF |
| Utf8.Encode | pkg/models/article.go:53-62 | a string takes at least one and at most four bytes per character |
| Utf8.AsciiLength | pkg/models/article.go:53 | ASCII text has as many bytes as characters |
| Utf8.ThreeByteLength | pkg/models/article.go:53 | text of U+0800..U+FFFF characters (kana, kanji) has three bytes per character |
| Utf8.EncodeAppend | pkg/models/article.go:59 | the bytes of a concatenation are the concatenated bytes |
| Articles.IsValid | pkg/models/article.go:46-49 | an article is valid iff id, title and URL are all non-empty; its consequences are stated by FeedFetcher.ConvertedValidIff and Pipeline.NewArticlesExact |
| Articles.GetShortDescription | pkg/models/article.go:52-63 | lengths count UTF-8 bytes: a description whose bytes fit is returned whole; otherwise, for maxLength > 3, its first maxLength-3 bytes plus "..." (exactly maxLength bytes), else its first maxLength bytes; never longer than maxLength bytes |
| Articles.ShortDescriptionPrefix | pkg/models/article.go:52-63 | what is kept of the description's bytes is a prefix of them |
| Articles.AsciiShortDescription | pkg/models/article.go:53-59 | on ASCII text the limit counts characters: text that fits is kept whole, longer text becomes exactly maxLength bytes |
| Articles.ThreeByteShortDescription | pkg/models/article.go:53-59 | text of three-byte characters is cut as soon as it has more than maxLength/3 characters, to exactly maxLength bytes |
| HtmlText.TrimLeft | internal/feed/fetcher.go:239 | the suffix left after removing the leading white space: it starts with a non-space, and everything removed was white space |
| HtmlText.TrimRight | internal/feed/fetcher.go:239 | a prefix of the input that does not end in white space, and everything removed was white space |
| HtmlText.TrimSpace | internal/feed/fetcher.go:239 | strings.TrimSpace: the result neither starts nor ends with white space |
| HtmlText.TrimSpaceSpec | internal/feed/fetcher.go:239 | the result is the contiguous piece of the input between the white space TrimLeft skips and the white space TrimRight removes |
| HtmlText.ReplaceAll | internal/feed/fetcher.go:211-214 | strings.ReplaceAll as a left-to-right scan; ReplaceAllPlain states that it leaves text without `<` alone |
| HtmlText.ReplaceBreaks | internal/feed/fetcher.go:211-214 | the four replacements of `<br>`, `<br/>`, `<br />` and `</p>` by a space, in the source's order; ReplaceAllPlain states their effect on plain text |
| HtmlText.StripTags | internal/feed/fetcher.go:218-233 | the specification of the inTag scan; StripTagsNoBrackets and StripTagsPlain state its properties, and StripHTML's loop computes it |
| HtmlText.StrippedText | internal/feed/fetcher.go:208-240 | the specification of stripHTML; StrippedTextClean and StrippedTextPlain state its properties |
| HtmlText.SplitAtSpace | internal/feed/fetcher.go:237 | text with a space at k is the text before k, the space, and the text after |
| HtmlText.WordLength | internal/feed/fetcher.go:237 | the length of the leading non-space run |
| HtmlText.Fields | internal/feed/fetcher.go:237 | every field is a non-empty run without white space, made of characters from the input |
| HtmlText.JoinSingleSpaced | internal/feed/fetcher.go:237 | joining words with one space yields canonically spaced text made of the words' characters and spaces |
| HtmlText.JoinFirst | internal/feed/fetcher.go:237 | a joined list starts with its first word |
| HtmlText.JoinCons | internal/feed/fetcher.go:237 | joining a word in front of a non-empty list puts exactly one space between them |
| HtmlText.FieldsOfWord | internal/feed/fetcher.go:237 | text starting with a word has that word as its first field |
| HtmlText.FieldsAfterSpace | internal/feed/fetcher.go:237 | one separating space contributes no field |
| HtmlText.SingleSpacedTail | internal/feed/fetcher.go:236-239 | what follows a space in canonically spaced text is non-empty, starts with a non-space and is canonically spaced |
| HtmlText.FixpointStep | internal/feed/fetcher.go:237 | a word, one space, then a fixpoint of the field normalisation, is itself a fixpoint |
| HtmlText.NormalizeFixpoint | internal/feed/fetcher.go:236-237 | canonically spaced text is unchanged by strings.Join(strings.Fields(_), " ") |
| HtmlText.TrimSpaceSingleSpaced | internal/feed/fetcher.go:239 | TrimSpace leaves canonically spaced text alone |
| HtmlText.StripTagsNoBrackets | internal/feed/fetcher.go:218-233 | the tag scan outputs no `<` or `>`, only input characters and spaces |
| HtmlText.StripTagsPlain | internal/feed/fetcher.go:218-233 | text without angle brackets passes the scan unchanged |
| HtmlText.ReplaceAllPlain | internal/feed/fetcher.go:211-214 | the break/paragraph replacements change nothing in text without `<` |
| HtmlText.StrippedTextClean | internal/feed/fetcher.go:208-240 | stripHTML's output is canonically spaced (no leading or trailing white space, one space between words) and holds no `<` or `>` |
| HtmlText.StrippedTextPlain | internal/feed/fetcher.go:208-240 | plain canonically spaced text without angle brackets, "" included, maps to itself |
| HtmlText.StripHTML | internal/feed/fetcher.go:208-240 | the rune loop with its inTag flag, followed by the normalisation, computes the stripHTML specification |
| FeedFetcher.IdOf | internal/feed/fetcher.go:134-137 | the GUID, else the Link; IdentityFallbacks states it with UrlOf |
| FeedFetcher.UrlOf | internal/feed/fetcher.go:140-143 | the Link, else the GUID; IdentityFallbacks states it with IdOf |
| FeedFetcher.TitleOf | internal/feed/fetcher.go:146-149 | the title, else the placeholder; TitleNeverEmpty states it |
| FeedFetcher.DescriptionSource | internal/feed/fetcher.go:152-158 | the raw description: the item description, else its content; TextFallbacks states the stripped result |
| FeedFetcher.ContentSource | internal/feed/fetcher.go:161-165 | the raw content: the item content, else its description; TextFallbacks states the stripped result |
| FeedFetcher.AuthorOf | internal/feed/fetcher.go:168-171 | the author's name, else ""; AuthorFallback states it |
| FeedFetcher.PublishedAtOf | internal/feed/fetcher.go:174-181 | Published, else Updated, else now; DateFallbacks states it |
| FeedFetcher.UpdatedAtOf | internal/feed/fetcher.go:184-189 | Updated, else the publication time; DateFallbacks states it |
| FeedFetcher.ConvertToArticle | internal/feed/fetcher.go:200-203 | feed name, feed URL, category and webhook URL are copied from the feed configuration |
| FeedFetcher.IdentityFallbacks | internal/feed/fetcher.go:134-143 | the id is the GUID, else the Link; the URL is the Link, else the GUID; so the id is empty iff the URL is |
| FeedFetcher.TitleNeverEmpty | internal/feed/fetcher.go:146-149 | the title is the item's own, or the placeholder when it has none; never empty |
| FeedFetcher.ConvertedValidIff | internal/feed/fetcher.go:134-149 | a converted article is valid iff the item has a GUID or a Link |
| FeedFetcher.TextFallbacks | internal/feed/fetcher.go:152-165 | the description prefers the item description and the content prefers the item content, both stripped; with only one of them both fields agree |
| FeedFetcher.TextFieldsClean | internal/feed/fetcher.go:152-165 | both text fields are canonically spaced and free of `<` and `>` |
| FeedFetcher.DateFallbacks | internal/feed/fetcher.go:174-189 | PublishedAt is Published, else Updated, else now; UpdatedAt is Updated, else PublishedAt |
| FeedFetcher.AuthorFallback | internal/feed/fetcher.go:168-171 | the author's name when the item has one, else "" |
| FeedFetcher.MapFilterExact | internal/feed/fetcher.go:121-126 | the kept images are all accepted and all come from input elements; every accepted image is kept; no more outputs than inputs |
| FeedFetcher.MapFilterStep | internal/feed/fetcher.go:121-126 | one loop step: the head's image is appended when accepted, then the scan continues |
| FeedFetcher.ValidConvertedExact | internal/feed/fetcher.go:120-126 | every kept article is valid, belongs to the feed and converts some item; every item with a GUID or a Link is represented; nothing is added |
| FeedFetcher.MapFilterLoop | internal/feed/fetcher.go:121-126 | the item loop appends exactly the accepted conversions, in item order |
| FeedFetcher.FetchArticles | internal/feed/fetcher.go:119-128 | what Fetch returns after the parse is the valid conversions of the items, in order |
| StateModel.RecordOf | pkg/models/state.go:106-112 | the record copies id, title, URL and publication time and is stamped with the notification time |
| StateModel.NotifiedAfter | pkg/models/state.go:128-133 | the records notified strictly after the cutoff; NotifiedAfterExact states which |
| StateModel.Cutoff | pkg/models/state.go:125 | the cutoff lies daysOld days of 86400 seconds before now |
| StateModel.AgeFiltered | pkg/models/state.go:120-136 | a non-positive age keeps the list, otherwise the records newer than the cutoff; CleanupOldArticles is proved against it |
| StateModel.CountLimited | pkg/models/state.go:140-148 | the specification of LimitArticleCount; CountLimitedSuffix states what it keeps |
| StateModel.NotifiedAfterExact | pkg/models/state.go:125-135 | the age filter keeps exactly the records notified strictly after the cutoff, in their original order |
| StateModel.NotifiedAfterAllRecent | pkg/models/state.go:128-133 | a list whose records are all newer than the cutoff is kept whole |
| StateModel.CountLimitedSuffix | pkg/models/state.go:140-148 | a non-positive maxCount leaves the list unchanged; otherwise the count limit keeps the last min(length, maxCount) records, a suffix and not a re-sorting |
| StateModel.FeedState.constructor | pkg/models/state.go:86-89 | a new feed entry has an empty list and is stamped now |
| StateModel.FeedState.IsArticleNotified | pkg/models/state.go:95-102 | the linear search is true iff some record has the id |
| StateModel.FeedState.AddNotifiedArticle | pkg/models/state.go:105-116 | exactly one record is appended at the end, without deduplication, earlier records untouched; lastCheck is now |
| StateModel.FeedState.CleanupOldArticles | pkg/models/state.go:120-136 | daysOld <= 0 changes nothing; otherwise the rebuilt list is the age-filtered old list |
| StateModel.FeedState.LimitArticleCount | pkg/models/state.go:140-148 | the reslice leaves the count-limited old list |
| StateModel.State.constructor | pkg/models/state.go:61-72 | version "1.0", an empty feed map, all counters zero, stamped now |
| StateModel.State.GetFeedState | pkg/models/state.go:76-92 | an existing entry is returned and the map left as is; otherwise exactly one fresh empty entry is inserted under that key and the other keys are unchanged |
| StateManager.Marked | internal/state/manager.go:113-119 | marking adds the article's feed URL to the keys and removes none |
| StateManager.MarkedIsNotified | internal/state/manager.go:113-119 | after marking, the article is notified for its feed, the feed's list grew by one, other feeds' lists are unchanged, and everything notified before still is |
| StateManager.MarkedExact | internal/state/manager.go:113-119 | after marking, exactly the old pairs and the marked article's pair are notified |
| StateManager.MarkedNotFirstRun | internal/state/manager.go:181-184 | after any mark the feed map is non-empty, so it is no longer a first run |
| StateManager.EmptyNothingNotified | internal/state/manager.go:166-169 | an empty state (fresh or reset) has nothing notified and every count is 0 |
| StateManager.Cleaned | internal/state/manager.go:147-162 | cleanup removes no feed key |
| StateManager.PartlyCleaned | internal/state/manager.go:147-162 | part way through cleanup the keys are still all there |
| StateManager.PartlyCleanedStep | internal/state/manager.go:147-162 | cleaning one pending feed moves it from pending to cleaned |
| StateManager.CleanedList | internal/state/manager.go:147-154 | one feed's list after cleanup: age-filtered, then count-limited; CleanedBounds and CleanedListRecent state its properties |
| StateManager.CleanedBounds | internal/state/manager.go:138-163 | with positive limits, after cleanup every list is at most maxArticlesPerFeed long and holds only records from its old list notified after the age cutoff |
| StateManager.CleanedListBounded | internal/state/manager.go:147-154 | with positive limits, one feed's cleaned list has at most maxArticlesPerFeed records, each from its old list and notified after the cutoff |
| StateManager.CleanedRetentionBounded | internal/state/manager.go:138-163 | with positive limits, the cleaned lists satisfy the retention invariant: each at most maxArticlesPerFeed long, holding only old records of its feed notified after the cutoff |
| StateManager.CleanedListRecent | internal/state/manager.go:147-153 | a list entirely inside the age window is only count-limited |
| StateManager.NotifiedValue | internal/state/manager.go:113-119 | a mark adds exactly one to the notified counter and leaves the other statistics as they were |
| StateManager.Manager.constructor | internal/state/manager.go:30-37 | a fresh state of version "1.0": no lists, both counters 0, duration 0, lastUpdate now; 100 records per feed, 30 days, both limits positive |
| StateManager.Manager.IsArticleNotified | internal/state/manager.go:103-110 | true iff the feed exists and records the id; an unknown feed gives false and is not created |
| StateManager.Manager.MarkAsNotified | internal/state/manager.go:113-119 | the new state is the old one with one record appended to the article's feed (created when missing) and the notified counter one higher |
| StateManager.Manager.UpdateStatistics | internal/state/manager.go:127-130 | feeds-checked grows by n, the duration is overwritten, and the lists and the notified counter are unchanged |
| StateManager.Manager.CleanupFeed | internal/state/manager.go:148-154 | one feed's list becomes age-filtered then count-limited; every other list unchanged |
| StateManager.Manager.Cleanup | internal/state/manager.go:138-163 | the lists become the cleaned lists of the old state, whatever order the feeds are visited in; cleanupDays <= 0 changes nothing; with both limits positive, every list afterwards has at most maxArticlesPerFeed records, each from the feed's old list and notified after the cutoff |
| StateManager.Manager.Save | internal/state/manager.go:70-75 | cleanup, then lastUpdate := now; the counters unchanged; with both limits positive, every list afterwards has at most maxArticlesPerFeed records, each from the feed's old list and notified after the cutoff |
| StateManager.Manager.Reset | internal/state/manager.go:166-169 | a fresh state of version "1.0": no lists, both counters 0, duration 0, lastUpdate now |
| StateManager.Manager.GetNotifiedArticleCount | internal/state/manager.go:172-178 | the length of the feed's list; 0 for an unknown feed |
| StateManager.Manager.IsFirstRun | internal/state/manager.go:181-184 | true iff the feed map is empty |
| StateManager.Manager.SetMaxArticlesPerFeed | internal/state/manager.go:187-191 | a positive value is installed and a non-positive one ignored, so the limits stay positive |
| StateManager.Manager.SetCleanupDays | internal/state/manager.go:194-198 | a positive value is installed and a non-positive one ignored, so the limits stay positive |
| Discord.CategoryColor | internal/discord/notifier.go:245-259 | a known category gets its colour from the table; any other gets blurple |
| Discord.CategoryColorTable | internal/discord/notifier.go:245-259 | Tech→5793522, News→5763719, Blog→16770908, Other→15418782, anything else→5793522 |
| Discord.ArticleFields | internal/discord/notifier.go:132-148 | exactly three inline fields: feed name, publication date, category, in that order |
| Discord.CreateMessage | internal/discord/notifier.go:119-172 | exactly one embed and no content; title and URL copied; an author iff the article has one, with its name; the fixed footer |
| Discord.MessageContents | internal/discord/notifier.go:121-149 | the embed's description is the article's UTF-8 text cut to at most 300 bytes (the first 297 plus "..." when cut); the colour is the category's; the fields and the timestamp are those of the article |
| Discord.JapaneseDescriptionCut | internal/discord/notifier.go:120-121 | the 300 is a byte count although the comment says characters: a description of more than 100 kana or kanji is cut to 300 bytes ending in "..." |
| Discord.RetryFrom | internal/discord/notifier.go:175-201 | the specification of the attempt loop from attempt a on; RetryOutcome, RetrySentIff and FirstAttemptNotDelayed state its properties |
| Discord.RetryOutcome | internal/discord/notifier.go:175-201 | never more than maxRetries sends; a success is the last send made and every earlier one failed; giving up means all maxRetries sends failed; a cancellation happens in a delay after a failed send, and no further send is made |
| Discord.RetrySentIff | internal/discord/notifier.go:178-200 | the message is sent iff some attempt within the budget succeeds and no delay up to it is cancelled |
| Discord.FirstAttemptNotDelayed | internal/discord/notifier.go:179-186 | no delay runs before the first attempt: its cancellation flag never affects the outcome |
| Discord.ArticleResult | internal/discord/notifier.go:48-64 | the outcome of sending one article with retries; Discord.Notifier.SendArticle is proved against it, and Pipeline.Delivered is defined by it |
| Discord.BatchFrom | internal/discord/notifier.go:77-113 | the specification of the batch loop from article i on, with its two counters; BatchOutcome states its properties |
| Discord.BatchOutcome | internal/discord/notifier.go:77-113 | a batch that is not aborted attempts every article, counts each one as exactly one success or failure, and reports an error exactly when an article failed; an aborted batch met a cancelled context |
| Discord.SendArticlesSpec | internal/discord/notifier.go:67-116 | the specification of SendArticles; SendArticlesOutcome states its properties |
| Discord.SendArticlesOutcome | internal/discord/notifier.go:67-116 | an empty batch succeeds with no sends; a batch that is not aborted succeeds iff every article was delivered |
| Discord.Notifier.constructor | internal/discord/notifier.go:35-45 | the given URL and rate limit, three retries, five seconds apart |
| Discord.Notifier.SetRateLimit | internal/discord/notifier.go:262-264 | installs the rate limit |
| Discord.Notifier.SetMaxRetries | internal/discord/notifier.go:267-271 | a positive count is installed and a non-positive one ignored, so maxRetries stays at least 1 |
| Discord.Notifier.SetRetryDelay | internal/discord/notifier.go:274-276 | installs the retry delay |
| Discord.Notifier.SendWithRetry | internal/discord/notifier.go:175-201 | the attempt loop computes the retry specification: the outcome and the number of sends |
| Discord.Notifier.SendArticle | internal/discord/notifier.go:48-64 | the message is built by createMessage and sent with retries |
| Discord.Notifier.SendArticles | internal/discord/notifier.go:67-116 | the batch loop with its two counters computes the batch specification |
| ArticleOrder.Insert | cmd/notifier/main.go:223-230 | inserting adds exactly one element |
| ArticleOrder.SortByPublished | cmd/notifier/main.go:223-230 | the sort keeps the length |
| ArticleOrder.Reverse | cmd/notifier/main.go:214-216 | reversal keeps the length |
| ArticleOrder.NewestFirst | cmd/notifier/main.go:212-216 | the newest-first sort keeps the length |
| ArticleOrder.InsertLowerBound | cmd/notifier/main.go:226-228 | insertion preserves a common lower bound on publication times |
| ArticleOrder.InsertPermutes | cmd/notifier/main.go:226-228 | insertion adds exactly the inserted article to the multiset |
| ArticleOrder.ConsAscending | cmd/notifier/main.go:226-228 | an article no later than an oldest-first list can go in front of it |
| ArticleOrder.InsertSpec | cmd/notifier/main.go:226-228 | insertion into an oldest-first list keeps it oldest first and adds exactly that article |
| ArticleOrder.SortByPublishedSpec | cmd/notifier/main.go:223-230 | sortArticlesByPublishedAt returns a permutation of its input, with non-decreasing publication times |
| ArticleOrder.ReverseSpec | cmd/notifier/main.go:214-216 | reversal mirrors the indices and is a permutation |
| ArticleOrder.NewestFirstSpec | cmd/notifier/main.go:212-216 | the sort of limitArticles returns a permutation, newest first |
| ArticleOrder.LimitArticles | cmd/notifier/main.go:206-220 | limitArticles keeps min(length, limit) articles; LimitArticlesSpec states which |
| ArticleOrder.Dropped | cmd/notifier/main.go:206-220 | the articles limitArticles leaves out, as many as the input has beyond the limit |
| ArticleOrder.LimitArticlesSpec | cmd/notifier/main.go:206-220 | an input that fits is returned unchanged; otherwise exactly `limit` articles, newest first, none published earlier than any dropped one; kept and dropped together form the input |
| ArticleOrder.LimitArticlesSubset | cmd/notifier/main.go:206-220 | what is kept is drawn from the input and has at most `limit` articles unless it is the input |
| ArticleOrder.LimitKeepsNewest | cmd/notifier/main.go:212-219 | every input article left out is no later than every article kept |
| Pipeline.NewArticles | cmd/notifier/main.go:179-203 | the specification of filterNewArticles, no longer than its input; NewArticlesExact states what it keeps |
| Pipeline.NewArticlesExact | cmd/notifier/main.go:179-203 | the result holds exactly the valid articles not yet notified for their (feed URL, id), as an order-preserving subsequence of the input |
| Pipeline.FilterNewArticles | cmd/notifier/main.go:179-203 | the loop only queries the state and returns the filter specification |
| Pipeline.Endpoint | cmd/notifier/main.go:118-121 | the article's own webhook URL when non-empty, else the default |
| Pipeline.Capped | cmd/notifier/main.go:88-102 | with n new articles, the caps keep exactly min(n, maxArticlesPerRun) of them, or min(n, 5, maxArticlesPerRun) on a first run |
| Pipeline.CappedBounds | cmd/notifier/main.go:88-102 | the caps leave at most maxArticlesPerRun articles, at most five on a first run, all drawn from the new articles, and no new article left out is later than one kept |
| Pipeline.ToDeliver | cmd/notifier/main.go:64-112 | the batch of run, as long as the capped new articles; ToDeliverBounds states its properties |
| Pipeline.ToDeliverBounds | cmd/notifier/main.go:64-112 | with n new articles, the delivered batch has exactly min(n, maxArticlesPerRun) articles, or min(n, 5, maxArticlesPerRun) on a first run; it is oldest first and drawn from the new articles; every article in it was fetched, is valid and not yet notified; no new article left out is later than one in the batch |
| Pipeline.StopFrom | cmd/notifier/main.go:139-146 | the loop's stopping index is within the batch |
| Pipeline.StopFromSpec | cmd/notifier/main.go:139-146 | the loop stops early exactly after a delivered article, not the last, whose rate-limit wait was cancelled; otherwise it reaches the end |
| Pipeline.CountDelivered | cmd/notifier/main.go:136-137 | the success count is at most the number of articles handled |
| Pipeline.MarkAll | cmd/notifier/main.go:127-137 | the lists after marking the delivered articles among the first k, in order; no feed key is lost; MarkAllExact states what is notified afterwards |
| Pipeline.MarkAllExact | cmd/notifier/main.go:127-137 | marked iff delivered: afterwards a (feed, id) pair is notified exactly when it was before or a delivered article carries it |
| Pipeline.FailedStayUnmarked | cmd/notifier/main.go:127-133 | an article whose send failed is not marked unless a delivered one shares its (feed URL, id) |
| Pipeline.MarkedValue | cmd/notifier/main.go:127-137 | the notified counter grows by exactly the number of delivered articles; the other statistics are unchanged |
| Pipeline.Finished | cmd/notifier/main.go:157-165 | a completed run's end: the lists are cleaned, the feeds-checked counter grows by the enabled-feed count, the duration is overwritten, lastUpdate is now, the notified counter is unchanged |
| Pipeline.RunDeliveriesDeliver | cmd/notifier/main.go:116-133 | the per-article send outcome is a delivery function the loop can be specified by |
| Pipeline.DeliverOne | cmd/notifier/main.go:116-137 | one iteration: a fresh notifier for the article's endpoint sends it, and the state is marked iff that send succeeded |
| Pipeline.DeliverBatch | cmd/notifier/main.go:116-147 | the loop stops at the cancelled wait or the end; successCount is the number of delivered articles before that point; the new state marks exactly those, one per success |
| Pipeline.SelectBatch | cmd/notifier/main.go:64-112 | the first-run flag, the filter, both caps and the sort compute the batch specification, without changing the state |
| Pipeline.Run | cmd/notifier/main.go:64-165 | the flag is read before any mark; an interrupted run has marked exactly the delivered articles before the cancelled wait and skips the statistics and the save; a completed run also adds the enabled-feed count and the duration, and applies cleanup and the lastUpdate stamp; the success count is the number of delivered articles |

## Left out

- File and process I/O is not modelled:
  - `Manager.Load`, and the file write of `Manager.Save`, with its directory creation and JSON encoding;
  - `config.Load`, `loadConfigFile`'s YAML parse and `getEnv`;
  - `logger.Init` and logging everywhere.
  The decoded configuration and the environment map are inputs.
- Feed fetching is not modelled: `FetchAll`'s goroutine fan-out and the gofeed network parse. A parsed feed is an abstract list of items, and the fetched articles are an input of `Pipeline.Run`.
- The HTTP round trip of `send` is a transport oracle that reports success or failure for each attempt. It replaces the JSON encoding, the request, the status check and the 30-second client timeout.
- Each wait is an oracle that says whether the context was found cancelled there: the retry delay, the rate-limit pause and the loop's context check. The elapsed time of a wait is not modelled, and the oracles need not be consistent with one another. `run` itself uses `context.Background()`, which is never cancelled; the model allows any cancellation pattern, so it covers that case too.
- One `now` is used for every clock reading of a call. This covers the `time.Now()` stamps and the cutoff.
- "d days ago" is `d * 86400` seconds, not calendar arithmetic. They differ across a daylight-saving change.
- The two date renderings of an embed field and its timestamp are an opaque `DateFormat` parameter.
- `LastRunDuration` is a `real`, and the measured duration of a run is a parameter. No float64 rounding is modelled.
- `FeedState.lastCheck` is kept by the `FeedState` class but is not part of the manager's `Value()`. The Manager contracts therefore say nothing about it.
- The thumbnail branch of `createMessage` is left out. It reads an `ImageURL` field that the `Article` struct does not declare, so the model's embed never has a thumbnail.
- `sort.Slice` is not stable. The model's insertion sort is one admissible order: it is specified as sorted plus a permutation. Where publication times are equal, the model may pick a different order from the one the Go program produces.
- Articles.GetShortDescription returns the byte sequence of the shortened description, not a string: a cut may split a multi-byte character, which no Dafny string can hold.
- Articles.GetShortDescription requires maxLength >= 0. Go panics on a negative length, and the only caller passes 300.
- The statistics counters (`TotalArticlesNotified`, `TotalFeedsChecked`) and the success count are unbounded integers. Go's `int` would wrap after 2^63 - 1 increments, which no run reaches.
- ConfigModel.Validate returns only the new configuration. The source's error result is always nil.
- ArticleOrder.LimitArticles and ArticleOrder.Dropped require limit >= 0, and Pipeline.Capped and Pipeline.ToDeliver require maxPerRun >= 0. Go's `sorted[:limit]` panics on a negative limit. The callers pass 5 and a validated maxArticlesPerRun > 0.
- Pipeline.Run requires maxArticlesPerRun > 0. ConfigModel.Validate establishes this for every configuration the program runs with.
- Pipeline.Run takes the delivery outcome of each batch article as a ghost function `d`. It is constrained by `DeliveredBy` to agree with the transport oracles, and `Pipeline.RunDeliveriesDeliver` shows that such a `d` always exists.
- Pipeline.DeliverBatch: the same applies to its ghost function `d`.
- Go's nil values are not modelled: a nil feed in the configuration, a nil `Statistics` or a nil `Feeds` map in a loaded state file. They cannot arise from the constructors modelled here. The nil-map branch of `State.GetFeedState` is therefore absent.
- The texts of error and log messages are not modelled. Errors are datatype constructors.
- `Manager.GetFeedState` and `Manager.GetState` are not modelled: they are accessors. `AppConfig.GetEnabledFeeds` is not modelled either: it forwards to `ConfigModel.GetEnabledFeeds`.
- `internal/discord/message.go` declares types only. Those types are the embed datatypes of `Discord`.
