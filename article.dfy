// The article record of pkg/models/article.go. Times are integer seconds;
// text fields are strings, measured in UTF-8 bytes where Go measures them.
module Articles {
  import opened Utf8

  datatype Article = Article(
    id: string,
    title: string,
    url: string,
    description: string,
    content: string,
    author: string,
    publishedAt: int,
    updatedAt: int,
    feedName: string,
    feedURL: string,
    category: string,
    webhookURL: string)

  /** An article needs an id, a title and a URL. */
  predicate IsValid(a: Article) {
    a.id != "" && a.title != "" && a.url != ""
  }

  /** "..." as bytes. */
  const Ellipsis: seq<byte> := [46, 46, 46]

  /**
   * GetShortDescription: Go's len and slicing count the bytes of the UTF-8
   * text. The description's bytes when they fit, otherwise their first
   * maxLength - 3 bytes and "..." (or, for maxLength <= 3, their first
   * maxLength bytes). A cut can fall inside a multi-byte character. Go
   * panics on a negative maxLength.
   */
  function GetShortDescription(a: Article, maxLength: int): (r: seq<byte>)
    requires maxLength >= 0
    ensures |Encode(a.description)| <= maxLength ==> r == Encode(a.description)
    ensures |Encode(a.description)| > maxLength && maxLength > 3 ==>
      r == Encode(a.description)[..maxLength - 3] + Ellipsis && |r| == maxLength
    ensures |Encode(a.description)| > maxLength && maxLength <= 3 ==> r == Encode(a.description)[..maxLength]
    ensures |r| <= maxLength
  {
    var b := Encode(a.description);
    if |b| <= maxLength then b
    else if maxLength > 3 then b[..maxLength - 3] + Ellipsis
    else b[..maxLength]
  }

  /** Whatever is kept of the description's bytes is a prefix of them. */
  lemma ShortDescriptionPrefix(a: Article, maxLength: int)
    requires maxLength >= 0
    ensures var r, b := GetShortDescription(a, maxLength), Encode(a.description);
      var keep := if r == b then |r| else if maxLength > 3 then maxLength - 3 else maxLength;
      keep <= |r| && keep <= |b| && r[..keep] == b[..keep]
  {
  }

  /** ASCII descriptions are measured in characters, since each is one byte. */
  lemma AsciiShortDescription(a: Article, maxLength: int)
    requires maxLength >= 0 && IsAscii(a.description)
    ensures |a.description| <= maxLength ==> GetShortDescription(a, maxLength) == Encode(a.description)
    ensures |a.description| > maxLength ==> |GetShortDescription(a, maxLength)| == maxLength
  {
    AsciiLength(a.description);
  }

  /**
   * A description of kana or kanji is cut once it has more than a third of
   * maxLength characters: 200 such characters are 600 bytes, more than 300.
   */
  lemma ThreeByteShortDescription(a: Article, maxLength: int)
    requires maxLength > 3 && IsThreeByte(a.description) && 3 * |a.description| > maxLength
    ensures GetShortDescription(a, maxLength) != Encode(a.description)
    ensures |GetShortDescription(a, maxLength)| == maxLength
  {
    ThreeByteLength(a.description);
  }
}
