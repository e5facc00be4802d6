// Delivery to a Discord webhook, after internal/discord/notifier.go and the
// message shapes of internal/discord/message.go. The HTTP round trip is a
// transport oracle that says whether a given attempt succeeds; each wait
// (the retry delay, the rate-limit pause, a context check) is an oracle
// that says whether the context was found cancelled there. Durations are
// integer nanoseconds, as Go's time.Duration.
module Discord {
  import opened Optional
  import opened Articles
  import opened Utf8

  datatype EmbedField = EmbedField(name: string, value: string, inline: bool)
  datatype EmbedAuthor = EmbedAuthor(name: string, url: string, iconURL: string)
  datatype EmbedFooter = EmbedFooter(text: string, iconURL: string)
  datatype EmbedImage = EmbedImage(url: string)

  datatype Embed = Embed(
    title: string,
    description: seq<byte>,
    url: string,
    color: int,
    fields: seq<EmbedField>,
    author: Option<EmbedAuthor>,
    footer: Option<EmbedFooter>,
    timestamp: string,
    thumbnail: Option<EmbedImage>)

  datatype WebhookMessage = WebhookMessage(content: string, embeds: seq<Embed>)

  /** The two time renderings an embed uses: "2006-01-02 15:04" and RFC 3339. */
  datatype DateFormat = DateFormat(short: int -> string, rfc3339: int -> string)

  const Nanosecond := 1
  const Second := 1_000_000_000 * Nanosecond

  const DefaultMaxRetries := 3
  const DefaultRetryDelay := 5 * Second
  const MaxDescriptionLength := 300
  const FooterText := "RSS Discord Notifier"

  const Blurple := 5793522
  const Green := 5763719
  const Yellow := 16770908
  const Pink := 15418782

  /** The colour table of getCategoryColor. */
  const CategoryColors: map<string, int> :=
    map["Tech" := Blurple, "News" := Green, "Blog" := Yellow, "Other" := Pink]

  /** The embed colour of a category; unknown categories get the default blurple. */
  function CategoryColor(category: string): (color: int)
    ensures category in CategoryColors ==> color == CategoryColors[category]
    ensures category !in CategoryColors ==> color == Blurple
  {
    if category in CategoryColors then CategoryColors[category] else Blurple
  }

  /** The four known categories and their colours; everything else is blurple. */
  lemma CategoryColorTable(category: string)
    ensures CategoryColor("Tech") == 5793522 && CategoryColor("News") == 5763719
    ensures CategoryColor("Blog") == 16770908 && CategoryColor("Other") == 15418782
    ensures category != "Tech" && category != "News" && category != "Blog" && category != "Other" ==>
      CategoryColor(category) == 5793522
  {
  }

  /** The three inline fields, in order: feed name, publication date, category. */
  function ArticleFields(a: Article, fmt: DateFormat): (fields: seq<EmbedField>)
    ensures |fields| == 3
    ensures forall i :: 0 <= i < 3 ==> fields[i].inline
    ensures fields[0].value == a.feedName && fields[1].value == fmt.short(a.publishedAt)
    ensures fields[2].value == a.category
  {
    [ EmbedField("📰 フィード", a.feedName, true),
      EmbedField("📅 公開日時", fmt.short(a.publishedAt), true),
      EmbedField("🏷️ カテゴリ", a.category, true) ]
  }

  /** createMessage: a message holding exactly one embed describing the article. */
  function CreateMessage(a: Article, fmt: DateFormat): (m: WebhookMessage)
    ensures |m.embeds| == 1 && m.content == ""
    ensures m.embeds[0].title == a.title && m.embeds[0].url == a.url
    ensures m.embeds[0].author.Some? <==> a.author != ""
    ensures m.embeds[0].author.Some? ==> m.embeds[0].author.value.name == a.author
    ensures m.embeds[0].footer == Some(EmbedFooter(FooterText, ""))
    ensures m.embeds[0].thumbnail.None?
  {
    var author := if a.author != "" then Some(EmbedAuthor(a.author, "", "")) else None;
    var embed := Embed(
      a.title, GetShortDescription(a, MaxDescriptionLength), a.url, CategoryColor(a.category),
      ArticleFields(a, fmt), author, Some(EmbedFooter(FooterText, "")), fmt.rfc3339(a.publishedAt), None);
    WebhookMessage("", [embed])
  }

  /**
   * The embed's description is the article's UTF-8 text cut to at most 300
   * bytes (with "..." when it had to be cut), and its colour is the category's.
   */
  lemma MessageContents(a: Article, fmt: DateFormat)
    ensures var e := CreateMessage(a, fmt).embeds[0];
      |e.description| <= MaxDescriptionLength &&
      (|Encode(a.description)| <= MaxDescriptionLength ==> e.description == Encode(a.description)) &&
      (|Encode(a.description)| > MaxDescriptionLength ==>
        e.description == Encode(a.description)[..MaxDescriptionLength - 3] + Ellipsis) &&
      e.color == CategoryColor(a.category) &&
      e.fields == ArticleFields(a, fmt) && e.timestamp == fmt.rfc3339(a.publishedAt)
  {
  }

  /**
   * The limit is in bytes: a description of more than 100 kana or kanji is
   * cut, although it has fewer than 300 characters.
   */
  lemma JapaneseDescriptionCut(a: Article, fmt: DateFormat)
    requires IsThreeByte(a.description) && |a.description| > 100
    ensures var d := CreateMessage(a, fmt).embeds[0].description;
      |d| == MaxDescriptionLength && d[MaxDescriptionLength - 3..] == Ellipsis
  {
    ThreeByteShortDescription(a, MaxDescriptionLength);
  }

  /** The transport: does the attempt-th POST of a message to a URL come back 2xx. */
  type Transport = (string, WebhookMessage, nat) -> bool

  /** Is the context found cancelled during the wait before the attempt-th send. */
  type Delay = nat -> bool

  datatype SendResult = Sent | Failed | Cancelled

  /** The outcome of the retry loop and how many sends it made. */
  datatype Retry = Retry(result: SendResult, attempts: nat)

  /** The outcome of each attempt of one message to one URL. */
  function Attempts(transport: Transport, url: string, message: WebhookMessage): nat -> bool {
    (k: nat) => transport(url, message, k)
  }

  /**
   * Specification of sendWithRetry from attempt `a` on: before every attempt
   * but the first the delay runs and can be cancelled; the loop stops at the
   * first success and gives up after `maxRetries` attempts.
   */
  function RetryFrom(a: nat, maxRetries: int, ok: nat -> bool, cancelled: Delay): Retry
    decreases maxRetries - a
  {
    if a >= maxRetries then Retry(Failed, a)
    else if a > 0 && cancelled(a) then Retry(Cancelled, a)
    else if ok(a) then Retry(Sent, a + 1)
    else RetryFrom(a + 1, maxRetries, ok, cancelled)
  }

  /**
   * What the retry loop guarantees: never more than maxRetries sends; a
   * success is the last send made and every earlier one failed; giving up
   * means all maxRetries sends failed; a cancellation happens in a delay,
   * after a failed send and before any further send.
   */
  lemma {:induction false} RetryOutcome(a: nat, maxRetries: int, ok: nat -> bool, cancelled: Delay)
    requires a <= maxRetries
    ensures var r := RetryFrom(a, maxRetries, ok, cancelled);
      a <= r.attempts <= maxRetries &&
      (forall b :: a <= b < r.attempts - 1 ==> !ok(b)) &&
      (r.result == Sent ==> r.attempts > a && ok(r.attempts - 1)) &&
      (r.result == Failed ==> r.attempts == maxRetries && (r.attempts > a ==> !ok(r.attempts - 1))) &&
      (r.result == Cancelled ==>
        r.attempts > 0 && cancelled(r.attempts) && r.attempts < maxRetries &&
        (r.attempts > a ==> !ok(r.attempts - 1)))
    decreases maxRetries - a
  {
    if a < maxRetries && !(a > 0 && cancelled(a)) && !ok(a) {
      RetryOutcome(a + 1, maxRetries, ok, cancelled);
    }
  }

  /**
   * The loop succeeds exactly when some attempt within the budget succeeds
   * and no delay up to that attempt was cancelled.
   */
  lemma {:induction false} RetrySentIff(a: nat, maxRetries: int, ok: nat -> bool, cancelled: Delay)
    ensures RetryFrom(a, maxRetries, ok, cancelled).result == Sent <==>
      exists k :: a <= k < maxRetries && ok(k) && forall b :: a <= b <= k && b > 0 ==> !cancelled(b)
    decreases if a <= maxRetries then maxRetries - a else 0
  {
    if a < maxRetries && !(a > 0 && cancelled(a)) && !ok(a) {
      RetrySentIff(a + 1, maxRetries, ok, cancelled);
      if RetryFrom(a, maxRetries, ok, cancelled).result == Sent {
        var k :| a + 1 <= k < maxRetries && ok(k) && forall b :: a + 1 <= b <= k && b > 0 ==> !cancelled(b);
        assert forall b :: a <= b <= k && b > 0 ==> !cancelled(b);
      }
      if exists k :: a <= k < maxRetries && ok(k) && forall b :: a <= b <= k && b > 0 ==> !cancelled(b) {
        var k :| a <= k < maxRetries && ok(k) && forall b :: a <= b <= k && b > 0 ==> !cancelled(b);
        assert k != a;
        assert forall b :: a + 1 <= b <= k && b > 0 ==> !cancelled(b);
      }
    }
  }

  /** No delay runs before the first attempt, so its cancellation flag is never read. */
  lemma {:induction false} FirstAttemptNotDelayed(a: nat, maxRetries: int, ok: nat -> bool, c1: Delay, c2: Delay)
    requires forall b :: b > 0 ==> c1(b) == c2(b)
    ensures RetryFrom(a, maxRetries, ok, c1) == RetryFrom(a, maxRetries, ok, c2)
    decreases if a <= maxRetries then maxRetries - a else 0
  {
    if a < maxRetries && !(a > 0 && c1(a)) && !ok(a) {
      FirstAttemptNotDelayed(a + 1, maxRetries, ok, c1, c2);
    }
  }

  /** Whether sendArticle delivers `a` to `url` within `maxRetries` attempts. */
  function ArticleResult(url: string, maxRetries: int, a: Article, fmt: DateFormat,
                         transport: Transport, cancelled: Delay): SendResult
  {
    RetryFrom(0, maxRetries, Attempts(transport, url, CreateMessage(a, fmt)), cancelled).result
  }

  datatype BatchResult = AllSent | SomeFailed(errorCount: nat) | Aborted

  /** The outcome of SendArticles and its two counters. */
  datatype Batch = Batch(result: BatchResult, successes: nat, errors: nat)

  /**
   * Specification of the loop of SendArticles from article `i` on, with `s`
   * successes and `e` failures so far: the context is checked before each
   * article, a failed article is counted and skipped, and after every
   * successful article but the last the rate-limit wait can be cancelled.
   */
  function BatchFrom(i: nat, n: nat, s: nat, e: nat, sent: nat -> bool,
                     ctxDone: nat -> bool, waitCancelled: nat -> bool): Batch
    decreases n - i
  {
    if i >= n then Batch(if e > 0 then SomeFailed(e) else AllSent, s, e)
    else if ctxDone(i) then Batch(Aborted, s, e)
    else if !sent(i) then BatchFrom(i + 1, n, s, e + 1, sent, ctxDone, waitCancelled)
    else if i < n - 1 && waitCancelled(i) then Batch(Aborted, s + 1, e)
    else BatchFrom(i + 1, n, s + 1, e, sent, ctxDone, waitCancelled)
  }

  /**
   * A batch that is not aborted attempts every article, counts each one as
   * exactly one success or one failure, and reports an error exactly when
   * some article failed; an aborted batch met a cancelled context.
   */
  lemma {:induction false} BatchOutcome(i: nat, n: nat, s: nat, e: nat, sent: nat -> bool,
                                        ctxDone: nat -> bool, waitCancelled: nat -> bool)
    requires i <= n
    ensures var b := BatchFrom(i, n, s, e, sent, ctxDone, waitCancelled);
      b.successes >= s && b.errors >= e &&
      (b.result != Aborted ==>
        b.successes + b.errors == s + e + (n - i) &&
        (forall k :: i <= k < n ==> !ctxDone(k)) &&
        (b.errors == e <==> forall k :: i <= k < n ==> sent(k)) &&
        (b.result == AllSent <==> b.errors == 0) &&
        (b.result.SomeFailed? ==> b.result.errorCount == b.errors)) &&
      (b.result == Aborted ==>
        exists k :: i <= k < n && (ctxDone(k) || (sent(k) && k < n - 1 && waitCancelled(k))))
    decreases n - i
  {
    if i < n && !ctxDone(i) {
      if !sent(i) {
        BatchOutcome(i + 1, n, s, e + 1, sent, ctxDone, waitCancelled);
      } else if !(i < n - 1 && waitCancelled(i)) {
        BatchOutcome(i + 1, n, s + 1, e, sent, ctxDone, waitCancelled);
      }
    }
  }

  /** The delivery outcome of each article of a batch sent through one notifier. */
  function Deliveries(url: string, maxRetries: int, articles: seq<Article>, fmt: DateFormat,
                      transports: nat -> Transport, delays: nat -> Delay): nat -> bool
  {
    (i: nat) => i < |articles| && ArticleResult(url, maxRetries, articles[i], fmt, transports(i), delays(i)) == Sent
  }

  /** Specification of SendArticles: nothing to do for an empty batch. */
  function SendArticlesSpec(url: string, maxRetries: int, articles: seq<Article>, fmt: DateFormat,
                            transports: nat -> Transport, delays: nat -> Delay,
                            ctxDone: nat -> bool, waitCancelled: nat -> bool): Batch
  {
    if |articles| == 0 then Batch(AllSent, 0, 0)
    else BatchFrom(0, |articles|, 0, 0, Deliveries(url, maxRetries, articles, fmt, transports, delays),
                   ctxDone, waitCancelled)
  }

  /**
   * SendArticles, end to end: an empty batch succeeds; otherwise, unless a
   * cancellation aborts it, every article is attempted and the batch fails
   * exactly when one of them was not delivered.
   */
  lemma SendArticlesOutcome(url: string, maxRetries: int, articles: seq<Article>, fmt: DateFormat,
                            transports: nat -> Transport, delays: nat -> Delay,
                            ctxDone: nat -> bool, waitCancelled: nat -> bool)
    ensures var b := SendArticlesSpec(url, maxRetries, articles, fmt, transports, delays, ctxDone, waitCancelled);
      (|articles| == 0 ==> b == Batch(AllSent, 0, 0)) &&
      (b.result != Aborted ==>
        b.successes + b.errors == |articles| &&
        (b.result == AllSent <==>
          forall k :: 0 <= k < |articles| ==>
            ArticleResult(url, maxRetries, articles[k], fmt, transports(k), delays(k)) == Sent))
  {
    if |articles| > 0 {
      var sent := Deliveries(url, maxRetries, articles, fmt, transports, delays);
      BatchOutcome(0, |articles|, 0, 0, sent, ctxDone, waitCancelled);
      assert forall k :: 0 <= k < |articles| ==>
        (sent(k) <==> ArticleResult(url, maxRetries, articles[k], fmt, transports(k), delays(k)) == Sent);
    }
  }

  class Notifier {
    var webhookURL: string
    var rateLimit: int
    var maxRetries: int
    var retryDelay: int

    /** At least one attempt is always made. */
    predicate Valid()
      reads this
    {
      maxRetries >= 1
    }

    /** NewNotifier: three attempts, five seconds apart. */
    constructor (webhookURL: string, rateLimit: int)
      ensures Valid()
      ensures this.webhookURL == webhookURL && this.rateLimit == rateLimit
      ensures maxRetries == DefaultMaxRetries && retryDelay == DefaultRetryDelay
    {
      this.webhookURL := webhookURL;
      this.rateLimit := rateLimit;
      maxRetries := DefaultMaxRetries;
      retryDelay := DefaultRetryDelay;
    }

    method SetRateLimit(duration: int)
      modifies this`rateLimit
      ensures rateLimit == duration
    {
      rateLimit := duration;
    }

    /** A non-positive count is ignored, so the notifier stays valid. */
    method SetMaxRetries(count: int)
      modifies this`maxRetries
      ensures maxRetries == if count > 0 then count else old(maxRetries)
      ensures old(Valid()) ==> Valid()
    {
      if count > 0 {
        maxRetries := count;
      }
    }

    method SetRetryDelay(duration: int)
      modifies this`retryDelay
      ensures retryDelay == duration
    {
      retryDelay := duration;
    }

    /** sendWithRetry: the attempt loop, proved against RetryFrom. */
    method SendWithRetry(message: WebhookMessage, transport: Transport, cancelled: Delay)
      returns (result: SendResult, attempts: nat)
      ensures Retry(result, attempts) == RetryFrom(0, maxRetries, Attempts(transport, webhookURL, message), cancelled)
    {
      var ok := Attempts(transport, webhookURL, message);
      var attempt: nat := 0;
      while attempt < maxRetries
        invariant RetryFrom(attempt, maxRetries, ok, cancelled) == RetryFrom(0, maxRetries, ok, cancelled)
        decreases maxRetries - attempt
      {
        if attempt > 0 && cancelled(attempt) {
          return Cancelled, attempt;
        }
        var sentOk := transport(webhookURL, message, attempt);
        if sentOk {
          return Sent, attempt + 1;
        }
        attempt := attempt + 1;
      }
      return Failed, attempt;
    }

    /** SendArticle: build the message, then send it with retries. */
    method SendArticle(a: Article, fmt: DateFormat, transport: Transport, cancelled: Delay)
      returns (result: SendResult)
      ensures result == ArticleResult(webhookURL, maxRetries, a, fmt, transport, cancelled)
    {
      var message := CreateMessage(a, fmt);
      var attempts;
      result, attempts := SendWithRetry(message, transport, cancelled);
    }

    /** SendArticles: the batch loop with its two counters, proved against SendArticlesSpec. */
    method SendArticles(articles: seq<Article>, fmt: DateFormat, transports: nat -> Transport, delays: nat -> Delay,
                        ctxDone: nat -> bool, waitCancelled: nat -> bool)
      returns (b: Batch)
      ensures b == SendArticlesSpec(webhookURL, maxRetries, articles, fmt, transports, delays, ctxDone, waitCancelled)
    {
      if |articles| == 0 {
        return Batch(AllSent, 0, 0);
      }
      var sent := Deliveries(webhookURL, maxRetries, articles, fmt, transports, delays);
      var n := |articles|;
      var successCount: nat := 0;
      var errorCount: nat := 0;
      var i := 0;
      while i < n
        invariant 0 <= i <= n
        invariant BatchFrom(i, n, successCount, errorCount, sent, ctxDone, waitCancelled) ==
          BatchFrom(0, n, 0, 0, sent, ctxDone, waitCancelled)
      {
        if ctxDone(i) {
          return Batch(Aborted, successCount, errorCount);
        }
        var r := SendArticle(articles[i], fmt, transports(i), delays(i));
        assert sent(i) <==> r == Sent;
        if r != Sent {
          errorCount := errorCount + 1;
        } else {
          successCount := successCount + 1;
          if i < n - 1 && waitCancelled(i) {
            return Batch(Aborted, successCount, errorCount);
          }
        }
        i := i + 1;
      }
      b := Batch(if errorCount > 0 then SomeFailed(errorCount) else AllSent, successCount, errorCount);
    }
  }
}
