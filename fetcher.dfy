// Feed-item normalisation of internal/feed/fetcher.go. A parsed feed is an
// abstract list of items; the clock reading used when an item carries no
// date at all is the parameter `now`.
module FeedFetcher {
  import opened Optional
  import opened Articles
  import FeedConfigs
  import opened HtmlText

  datatype Person = Person(name: string)

  /** The fields of a parsed feed item that the conversion reads. */
  datatype Item = Item(
    guid: string,
    link: string,
    title: string,
    description: string,
    content: string,
    author: Option<Person>,
    published: Option<int>,
    updated: Option<int>)

  /** Title given to an item that has none. */
  const UntitledPlaceholder := "（タイトルなし）"

  /** The id: the GUID, or the Link when there is no GUID. */
  function IdOf(item: Item): string {
    if item.guid == "" then item.link else item.guid
  }

  /** The URL: the Link, or the GUID when there is no Link. */
  function UrlOf(item: Item): string {
    if item.link == "" then item.guid else item.link
  }

  function TitleOf(item: Item): string {
    if item.title == "" then UntitledPlaceholder else item.title
  }

  /** The raw description: the item description, or its content when that is all there is. */
  function DescriptionSource(item: Item): string {
    if item.description == "" && item.content != "" then item.content else item.description
  }

  /** The raw content: the item content, or its description when it has none. */
  function ContentSource(item: Item): string {
    if item.content == "" then item.description else item.content
  }

  function AuthorOf(item: Item): string {
    if item.author.Some? then item.author.value.name else ""
  }

  function PublishedAtOf(item: Item, now: int): int {
    if item.published.Some? then item.published.value
    else if item.updated.Some? then item.updated.value
    else now
  }

  function UpdatedAtOf(item: Item, now: int): int {
    if item.updated.Some? then item.updated.value else PublishedAtOf(item, now)
  }

  /** convertToArticle: each field from its fallback chain, the feed's fields copied. */
  function ConvertToArticle(item: Item, fc: FeedConfigs.FeedConfig, now: int): (a: Article)
    ensures a.feedName == fc.name && a.feedURL == fc.url
    ensures a.category == fc.category && a.webhookURL == fc.webhookURL
  {
    Article(IdOf(item), TitleOf(item), UrlOf(item),
            StrippedText(DescriptionSource(item)), StrippedText(ContentSource(item)), AuthorOf(item),
            PublishedAtOf(item, now), UpdatedAtOf(item, now), fc.name, fc.url, fc.category, fc.webhookURL)
  }

  /** The id prefers the GUID, the URL prefers the Link, each falling back on the other. */
  lemma IdentityFallbacks(item: Item, fc: FeedConfigs.FeedConfig, now: int)
    ensures var a := ConvertToArticle(item, fc, now);
      (item.guid != "" ==> a.id == item.guid) && (item.guid == "" ==> a.id == item.link) &&
      (item.link != "" ==> a.url == item.link) && (item.link == "" ==> a.url == item.guid) &&
      (a.id == "" <==> a.url == "")
  {
  }

  /** The title is the item's own, or the placeholder; never empty. */
  lemma TitleNeverEmpty(item: Item, fc: FeedConfigs.FeedConfig, now: int)
    ensures var a := ConvertToArticle(item, fc, now);
      a.title != "" && (item.title != "" ==> a.title == item.title)
  {
  }

  /** Because id and URL share one fallback pair, validity only needs a GUID or a Link. */
  lemma ConvertedValidIff(item: Item, fc: FeedConfigs.FeedConfig, now: int)
    ensures IsValid(ConvertToArticle(item, fc, now)) <==> (item.guid != "" || item.link != "")
  {
    IdentityFallbacks(item, fc, now);
    TitleNeverEmpty(item, fc, now);
  }

  /**
   * Description prefers the item description and Content prefers the item
   * content, each stripped of markup; when the item has only one of the two,
   * both fields hold the same text.
   */
  lemma TextFallbacks(item: Item, fc: FeedConfigs.FeedConfig, now: int)
    ensures var a := ConvertToArticle(item, fc, now);
      (item.description != "" ==> a.description == StrippedText(item.description)) &&
      (item.content != "" ==> a.content == StrippedText(item.content)) &&
      (item.description == "" || item.content == "" ==> a.description == a.content)
  {
  }

  /** Both text fields come out single-spaced and free of angle brackets. */
  lemma TextFieldsClean(item: Item, fc: FeedConfigs.FeedConfig, now: int)
    ensures var a := ConvertToArticle(item, fc, now);
      SingleSpaced(a.description) && SingleSpaced(a.content) &&
      (forall c :: c in a.description ==> c != '<' && c != '>') &&
      (forall c :: c in a.content ==> c != '<' && c != '>')
  {
    StrippedTextClean(DescriptionSource(item));
    StrippedTextClean(ContentSource(item));
  }

  /** PublishedAt is Published, else Updated, else now; UpdatedAt is Updated, else PublishedAt. */
  lemma DateFallbacks(item: Item, fc: FeedConfigs.FeedConfig, now: int)
    ensures var a := ConvertToArticle(item, fc, now);
      (item.published.Some? ==> a.publishedAt == item.published.value) &&
      (item.published.None? && item.updated.Some? ==> a.publishedAt == item.updated.value) &&
      (item.published.None? && item.updated.None? ==> a.publishedAt == now) &&
      (item.updated.Some? ==> a.updatedAt == item.updated.value) &&
      (item.updated.None? ==> a.updatedAt == a.publishedAt)
  {
  }

  /** The author's name when the item has an author, otherwise "". */
  lemma AuthorFallback(item: Item, fc: FeedConfigs.FeedConfig, now: int)
    ensures var a := ConvertToArticle(item, fc, now);
      a.author == (if item.author.Some? then item.author.value.name else "")
  {
  }

  /** The images under `f` of the elements of `xs` that `keep` accepts, in order. */
  function MapFilter<A, B>(xs: seq<A>, f: A -> B, keep: B -> bool): seq<B>
    decreases |xs|
  {
    if xs == [] then []
    else
      var rest := MapFilter(xs[1..], f, keep);
      if keep(f(xs[0])) then [f(xs[0])] + rest else rest
  }

  lemma {:induction false} MapFilterExact<A, B>(xs: seq<A>, f: A -> B, keep: B -> bool)
    ensures |MapFilter(xs, f, keep)| <= |xs|
    ensures forall b :: b in MapFilter(xs, f, keep) ==> keep(b) && exists i :: 0 <= i < |xs| && b == f(xs[i])
    ensures forall i :: 0 <= i < |xs| && keep(f(xs[i])) ==> f(xs[i]) in MapFilter(xs, f, keep)
    decreases |xs|
  {
    if xs != [] {
      MapFilterExact(xs[1..], f, keep);
      var rest := MapFilter(xs[1..], f, keep);
      forall b | b in MapFilter(xs, f, keep)
        ensures keep(b) && exists i :: 0 <= i < |xs| && b == f(xs[i])
      {
        if b != f(xs[0]) || !keep(f(xs[0])) {
          assert b in rest;
          var j :| 0 <= j < |xs[1..]| && b == f(xs[1..][j]);
          assert xs[1..][j] == xs[j + 1];
        }
      }
      forall i | 0 <= i < |xs| && keep(f(xs[i])) ensures f(xs[i]) in MapFilter(xs, f, keep) {
        if i > 0 {
          assert xs[1..][i - 1] == xs[i];
        }
      }
    }
  }

  /** One step of the scan: the head is kept when accepted, then the scan goes on. */
  lemma MapFilterStep<A, B>(xs: seq<A>, i: nat, f: A -> B, keep: B -> bool)
    requires i < |xs|
    ensures MapFilter(xs[i..], f, keep) ==
      (if keep(f(xs[i])) then [f(xs[i])] else []) + MapFilter(xs[i + 1..], f, keep)
  {
    assert xs[i..][1..] == xs[i + 1..];
  }

  /** The conversion for one feed at one instant, as a function value. */
  function Converter(fc: FeedConfigs.FeedConfig, now: int): Item -> Article {
    item => ConvertToArticle(item, fc, now)
  }

  /** Specification of the item loop in Fetch: the valid conversions, in item order. */
  function ValidConverted(items: seq<Item>, fc: FeedConfigs.FeedConfig, now: int): seq<Article> {
    MapFilter(items, Converter(fc, now), IsValid)
  }

  /**
   * Fetch keeps exactly the conversions that are valid: every article kept
   * is valid, belongs to the feed and comes from some item, every item with
   * a GUID or a Link is represented, and nothing is added.
   */
  lemma ValidConvertedExact(items: seq<Item>, fc: FeedConfigs.FeedConfig, now: int)
    ensures |ValidConverted(items, fc, now)| <= |items|
    ensures forall a :: a in ValidConverted(items, fc, now) ==>
      IsValid(a) && a.feedURL == fc.url && exists i :: 0 <= i < |items| && a == ConvertToArticle(items[i], fc, now)
    ensures forall i :: 0 <= i < |items| && (items[i].guid != "" || items[i].link != "") ==>
      ConvertToArticle(items[i], fc, now) in ValidConverted(items, fc, now)
  {
    MapFilterExact(items, Converter(fc, now), IsValid);
    forall i | 0 <= i < |items| && (items[i].guid != "" || items[i].link != "")
      ensures ConvertToArticle(items[i], fc, now) in ValidConverted(items, fc, now)
    {
      ConvertedValidIff(items[i], fc, now);
    }
  }

  /** The item loop of Fetch: each element converted, the accepted ones appended in order. */
  method MapFilterLoop<A, B>(xs: seq<A>, f: A -> B, keep: B -> bool) returns (ys: seq<B>)
    ensures ys == MapFilter(xs, f, keep)
  {
    ys := [];
    var i := 0;
    while i < |xs|
      invariant 0 <= i <= |xs|
      invariant ys + MapFilter(xs[i..], f, keep) == MapFilter(xs, f, keep)
    {
      var y := f(xs[i]);
      MapFilterStep(xs, i, f, keep);
      if keep(y) {
        assert ys + MapFilter(xs[i..], f, keep) == (ys + [y]) + MapFilter(xs[i + 1..], f, keep);
        ys := ys + [y];
      }
      i := i + 1;
    }
    assert xs[|xs|..] == [];
  }

  /** Fetch after the parse: convert every item and keep the valid articles. */
  method FetchArticles(items: seq<Item>, fc: FeedConfigs.FeedConfig, now: int) returns (articles: seq<Article>)
    ensures articles == ValidConverted(items, fc, now)
  {
    articles := MapFilterLoop(items, Converter(fc, now), IsValid);
  }
}
