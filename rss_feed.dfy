/** The RSS ingestion step (`extractRSSFeed`): each raw feed item is normalised, with
    its image picked by `extractImage`, and then merged, in feed order, with the result
    of scraping the item's page. Fetching and parsing the feed is a parameter: `None`
    stands for `parser.parseURL` throwing. */
module RssFeed {
  import opened Wrappers
  import opened JsString
  import NewsExtractor

  // ---------------------------------------------------------------------------
  // Raw and normalised items
  // ---------------------------------------------------------------------------

  datatype Enclosure = Enclosure(url: Option<string>, kind: Option<string>)

  /** One `media:content` entry; `url` is `m.$?.url` (`None` when `$` or its `url` is
      missing). */
  datatype Media = Media(url: Option<string>)

  /** A feed item as `rss-parser` delivers it; every field may be missing. */
  datatype CustomItem = CustomItem(
    title: Option<string>,
    link: Option<string>,
    description: Option<string>,
    content: Option<string>,
    contentSnippet: Option<string>,
    isoDate: Option<string>,
    pubDate: Option<string>,
    enclosure: Option<Enclosure>,
    mediaContent: Option<seq<Media>>)

  datatype NormalizedItem = NormalizedItem(
    title: string,
    url: string,
    summary: string,
    publishedAt: string,
    image: Option<string>)

  /** A possibly missing string is truthy when it is present and non-empty. */
  predicate Truthy(o: Option<string>)
  {
    o.Some? && o.value != ""
  }

  /** `a || b || ... || ""` over possibly missing strings. */
  function FirstTruthy(os: seq<Option<string>>): string
  {
    if os == [] then ""
    else if Truthy(os[0]) then os[0].value
    else FirstTruthy(os[1..])
  }

  /** The chain of `||` yields the earliest truthy operand, and `""` when there is none. */
  lemma {:induction false} FirstTruthyIsEarliest(os: seq<Option<string>>)
    ensures FirstTruthy(os) != "" <==> exists i :: 0 <= i < |os| && Truthy(os[i])
    ensures forall i :: 0 <= i < |os| && Truthy(os[i]) && (forall j :: 0 <= j < i ==> !Truthy(os[j])) ==>
              FirstTruthy(os) == os[i].value
  {
    if os != [] && !Truthy(os[0]) {
      var rest := os[1..];
      FirstTruthyIsEarliest(rest);
      if exists i :: 0 <= i < |os| && Truthy(os[i]) {
        var i :| 0 <= i < |os| && Truthy(os[i]);
        assert rest[i - 1] == os[i];
      }
      forall i | 0 <= i < |os| && Truthy(os[i]) && (forall j :: 0 <= j < i ==> !Truthy(os[j]))
        ensures FirstTruthy(os) == os[i].value
      {
        assert rest[i - 1] == os[i];
        forall j | 0 <= j < i - 1 ensures !Truthy(rest[j]) {
          assert rest[j] == os[j + 1];
        }
      }
    }
  }

  // ---------------------------------------------------------------------------
  // description.match(/<img[^>]+src="([^">]+)"/)
  // ---------------------------------------------------------------------------

  predicate IsGreaterThan(c: char)
  {
    c == '>'
  }

  /** The characters that end the capture `[^">]+`. */
  predicate EndsCapture(c: char)
  {
    c == '"' || c == '>'
  }

  /** What the capture group can produce: a non-empty run without `"` or `>`. */
  predicate CaptureShaped(v: string)
  {
    v != [] && forall k :: 0 <= k < |v| ==> !EndsCapture(v[k])
  }

  /** The tail `src="([^">]+)"` of the pattern tried at position `j`: the capture is the
      longest run of characters other than `"` and `>`, and it must be followed by `"`. */
  function CaptureAt(s: string, j: nat): (r: Option<string>)
    ensures r.Some? ==> CaptureShaped(r.value)
    ensures r.Some? ==> OccursAt(s, "src=\"", j) && OccursAt(s, r.value + "\"", j + 5)
  {
    if !OccursAt(s, "src=\"", j) then None
    else
      var c := j + 5;
      var n := PieceLength(s[c..], EndsCapture);
      if n > 0 && c + n < |s| && s[c + n] == '"' then
        var v := s[c..c + n];
        assert forall k :: 0 <= k < n ==> v[k] == s[c..][k];
        assert s[c..c + n + 1] == v + "\"";
        Some(v)
      else None
  }

  /** Backtracking out of the greedy `[^>]+`: the positions `lo .. hi - 1` are tried from
      the right, and the first one where the tail matches wins. */
  function LastCapture(s: string, lo: nat, hi: nat): (r: Option<string>)
    ensures r.Some? ==> CaptureShaped(r.value)
    ensures r.Some? ==> exists j :: lo <= j < hi && CaptureAt(s, j) == r
    decreases hi
  {
    if hi <= lo then None
    else
      match CaptureAt(s, hi - 1)
      case Some(v) => Some(v)
      case None => LastCapture(s, lo, hi - 1)
  }

  /** The pattern anchored at position `i`: `<img`, then at least one character other
      than `>` (the run ends at index `m`), then the tail somewhere inside or just after
      that run. */
  function ImgAt(s: string, i: nat): (r: Option<string>)
    ensures r.Some? ==> CaptureShaped(r.value)
    ensures r.Some? ==> OccursAt(s, "<img", i)
  {
    if !OccursAt(s, "<img", i) then None
    else
      var m := i + 4 + PieceLength(s[i + 4..], IsGreaterThan);
      LastCapture(s, i + 5, m + 1)
  }

  /** The leftmost match, starting the search at `i`. */
  function MatchFrom(s: string, i: nat): (r: Option<string>)
    ensures r.Some? ==> CaptureShaped(r.value)
    decreases |s| - i
  {
    if i > |s| then None
    else
      match ImgAt(s, i)
      case Some(v) => Some(v)
      case None => MatchFrom(s, i + 1)
  }

  /** `imgMatch[1]`, or `None` when the description does not match. */
  function ImgMatch(s: string): Option<string>
  {
    MatchFrom(s, 0)
  }

  /** A captured image address is non-empty and holds neither `"` nor `>`; it stands in
      the description right after `src="` and right before a `"`. */
  lemma ImgMatchShape(s: string)
    ensures ImgMatch(s).Some? ==> CaptureShaped(ImgMatch(s).value)
    ensures ImgMatch(s).Some? ==>
              exists j: nat :: OccursAt(s, "src=\"", j) && OccursAt(s, ImgMatch(s).value + "\"", j + 5)
  {
    var r := ImgMatch(s);
    if r.Some? {
      var i := MatchPosition(s, 0);
      var m := i + 4 + PieceLength(s[i + 4..], IsGreaterThan);
      var j :| i + 5 <= j < m + 1 && CaptureAt(s, j) == r;
    }
  }

  /** Where the leftmost match starts. */
  lemma {:induction false} MatchPosition(s: string, from: nat) returns (i: nat)
    requires MatchFrom(s, from).Some?
    ensures from <= i <= |s| && ImgAt(s, i) == MatchFrom(s, from)
    decreases |s| - from
  {
    if ImgAt(s, from).Some? {
      i := from;
    } else {
      i := MatchPosition(s, from + 1);
    }
  }

  /** A description without `<img` yields no image. */
  lemma {:induction false} NoImgTagNoMatch(s: string, from: nat)
    requires forall i :: from <= i <= |s| ==> !OccursAt(s, "<img", i)
    ensures MatchFrom(s, from) == None
    decreases |s| - from
  {
    if from <= |s| {
      NoImgTagNoMatch(s, from + 1);
    }
  }

  // ---------------------------------------------------------------------------
  // extractImage
  // ---------------------------------------------------------------------------

  /** The test `m.$?.url` of `find`, giving the address it found. */
  function MediaUrl(m: Media): Option<string>
  {
    if Truthy(m.url) then m.url else None
  }

  function MediaImage(item: CustomItem): Option<string>
  {
    if item.mediaContent.Some? && |item.mediaContent.value| > 0 then
      FirstSome(item.mediaContent.value, MediaUrl)
    else None
  }

  predicate HasImageEnclosure(item: CustomItem)
  {
    item.enclosure.Some? && Truthy(item.enclosure.value.url) &&
    item.enclosure.value.kind.Some? && StartsWith(item.enclosure.value.kind.value, "image")
  }

  function DescriptionImage(item: CustomItem): Option<string>
  {
    if item.description.Some? then ImgMatch(item.description.value) else None
  }

  /** `extractImage(item)`: the first `media:content` address, then an image
      enclosure's address, then an `<img src="...">` in the description. */
  function ExtractImage(item: CustomItem): (r: Option<string>)
    ensures r.Some? ==> r.value != ""
  {
    var media := MediaImage(item);
    if media.Some? then
      FirstSomeIsEarliest(item.mediaContent.value, MediaUrl);
      media
    else if HasImageEnclosure(item) then item.enclosure.value.url
    else DescriptionImage(item)
  }

  /** Some `media:content` entry has an address. */
  predicate AnyMediaUrl(item: CustomItem)
  {
    item.mediaContent.Some? &&
    exists i :: 0 <= i < |item.mediaContent.value| && Truthy(item.mediaContent.value[i].url)
  }

  /** The priority order of `extractImage`: the earliest `media:content` entry with an
      address wins; without one an image enclosure is used; only then is the description
      searched; and `None` when none of the three applies. */
  lemma ExtractImageCascade(item: CustomItem)
    ensures AnyMediaUrl(item) ==>
              exists i :: 0 <= i < |item.mediaContent.value| &&
                          ExtractImage(item) == item.mediaContent.value[i].url &&
                          Truthy(item.mediaContent.value[i].url) &&
                          forall j :: 0 <= j < i ==> !Truthy(item.mediaContent.value[j].url)
    ensures !AnyMediaUrl(item) ==>
              ExtractImage(item) ==
                if HasImageEnclosure(item) then item.enclosure.value.url
                else if item.description.Some? then ImgMatch(item.description.value)
                else None
  {
    if item.mediaContent.Some? {
      var ms := item.mediaContent.value;
      FirstSomeIsEarliest(ms, MediaUrl);
      if exists i :: 0 <= i < |ms| && Truthy(ms[i].url) {
        var i :| 0 <= i < |ms| && MediaUrl(ms[i]).Some? && FirstSome(ms, MediaUrl) == MediaUrl(ms[i]) &&
                 forall j :: 0 <= j < i ==> MediaUrl(ms[j]).None?;
        assert ExtractImage(item) == ms[i].url;
      }
    }
  }

  // ---------------------------------------------------------------------------
  // Normalisation
  // ---------------------------------------------------------------------------

  /** The `map` of `extractRSSFeed` applied to one item. */
  function Normalize(item: CustomItem): NormalizedItem
  {
    NormalizedItem(
      FirstTruthy([item.title]),
      FirstTruthy([item.link]),
      FirstTruthy([item.contentSnippet, item.content, item.description]),
      FirstTruthy([item.isoDate, item.pubDate]),
      ExtractImage(item))
  }

  function OrEmpty(o: Option<string>): string
  {
    if Truthy(o) then o.value else ""
  }

  lemma SingleTruthy(o: Option<string>)
    ensures FirstTruthy([o]) == OrEmpty(o)
  {
    assert [o][1..] == [];
  }

  /** Missing or empty title, link and date become `""`; the summary is the first
      truthy one of `contentSnippet`, `content`, `description`; the ISO date wins over
      `pubDate`. */
  lemma NormalizeRules(item: CustomItem)
    ensures Normalize(item).title == OrEmpty(item.title)
    ensures Normalize(item).url == OrEmpty(item.link)
    ensures Normalize(item).summary ==
              if Truthy(item.contentSnippet) then item.contentSnippet.value
              else if Truthy(item.content) then item.content.value
              else OrEmpty(item.description)
    ensures Normalize(item).publishedAt ==
              if Truthy(item.isoDate) then item.isoDate.value else OrEmpty(item.pubDate)
    ensures Normalize(item).image == ExtractImage(item)
  {
    SingleTruthy(item.title);
    SingleTruthy(item.link);
    PairTruthy(item.isoDate, item.pubDate);
    PairTruthy(item.content, item.description);
    var ss := [item.contentSnippet, item.content, item.description];
    assert ss[1..] == [item.content, item.description];
  }

  lemma PairTruthy(a: Option<string>, b: Option<string>)
    ensures FirstTruthy([a, b]) == if Truthy(a) then a.value else OrEmpty(b)
  {
    SingleTruthy(b);
    assert [a, b][1..] == [b];
  }

  /** `feed.items.map(...)`: one normalised item per feed item, in the same order; an
      item without a title or link is kept. */
  function NormalizeAll(items: seq<CustomItem>): (r: seq<NormalizedItem>)
    ensures |r| == |items|
    ensures forall k :: 0 <= k < |items| ==> r[k] == Normalize(items[k])
  {
    seq(|items|, k requires 0 <= k < |items| => Normalize(items[k]))
  }

  // ---------------------------------------------------------------------------
  // Merging with the scrape results
  // ---------------------------------------------------------------------------

  /** The `image` of a merged article: the feed's address, the scraped cover photo
      object, or nothing. */
  datatype ArticleImage = FromFeed(url: string) | FromCover(photo: NewsExtractor.CoverPhoto) | NoImage

  datatype FeedArticle = FeedArticle(
    title: string,
    url: string,
    summary: string,
    publishedAt: string,
    image: ArticleImage,
    content: string)

  function FeedImage(o: Option<string>): ArticleImage
  {
    if o.Some? then FromFeed(o.value) else NoImage
  }

  function CoverImage(o: Option<NewsExtractor.CoverPhoto>): ArticleImage
  {
    if o.Some? then FromCover(o.value) else NoImage
  }

  predicate Scraped(details: NewsExtractor.ExtractionResult)
  {
    details.success && details.data.Some?
  }

  /** One step of the merge loop: `{...item, image: item.image || data.coverPhoto,
      content: data.content}` after a successful scrape, `{...item, content: ""}` after
      a failed one. */
  function Merge(item: NormalizedItem, details: NewsExtractor.ExtractionResult): FeedArticle
  {
    if Scraped(details) then
      FeedArticle(item.title, item.url, item.summary, item.publishedAt,
                  if Truthy(item.image) then FeedImage(item.image) else CoverImage(details.data.value.coverPhoto),
                  details.data.value.content)
    else
      FeedArticle(item.title, item.url, item.summary, item.publishedAt, FeedImage(item.image), "")
  }

  /** The body of the merge loop, on one item and its scrape result. */
  method MergeItem(item: NormalizedItem, details: NewsExtractor.ExtractionResult) returns (a: FeedArticle)
    ensures a == Merge(item, details)
  {
    if details.success && details.data.Some? {
      var image := if Truthy(item.image) then FeedImage(item.image) else CoverImage(details.data.value.coverPhoto);
      a := FeedArticle(item.title, item.url, item.summary, item.publishedAt, image, details.data.value.content);
    } else {
      a := FeedArticle(item.title, item.url, item.summary, item.publishedAt, FeedImage(item.image), "");
    }
  }

  /** The merge never touches the normalised text fields; a successful scrape supplies
      the content and, only when the feed had no image, the cover photo; a failed one
      leaves the content empty and the image as the feed gave it. */
  lemma MergeRules(item: NormalizedItem, details: NewsExtractor.ExtractionResult)
    ensures var a := Merge(item, details);
      a.title == item.title && a.url == item.url && a.summary == item.summary &&
      a.publishedAt == item.publishedAt
    ensures Scraped(details) ==> Merge(item, details).content == details.data.value.content
    ensures Scraped(details) && Truthy(item.image) ==> Merge(item, details).image == FromFeed(item.image.value)
    ensures Scraped(details) && !Truthy(item.image) ==>
              Merge(item, details).image == CoverImage(details.data.value.coverPhoto)
    ensures !Scraped(details) ==>
              Merge(item, details).content == "" && Merge(item, details).image == FeedImage(item.image)
  {
  }

  /** The network as seen by the `k`-th call of `scrapeNews` (on the item's `url`). */
  datatype Network = Network(
    fetch: (nat, string) -> NewsExtractor.FetchOutcome,
    render: (nat, string) -> NewsExtractor.RenderOutcome)

  function Details(net: Network, env: NewsExtractor.Env, k: nat, url: string): NewsExtractor.ExtractionResult
  {
    NewsExtractor.Scrape(net.fetch(k, url), net.render(k, url), env).result
  }

  /** `extractRSSFeed(url)`, where `feed` is what `parser.parseURL` returns (`None` when
      it throws): the normalised items, each merged with the scrape of its page. */
  function ReadFeed(feed: Option<seq<CustomItem>>, net: Network, env: NewsExtractor.Env): seq<FeedArticle>
  {
    match feed
    case None => []
    case Some(items) =>
      var ns := NormalizeAll(items);
      seq(|ns|, k requires 0 <= k < |ns| => Merge(ns[k], Details(net, env, k, ns[k].url)))
  }

  /** The result has one article per feed item, in feed order, carrying that item's
      normalised fields, and its content is the scraped content exactly when that
      item's scrape succeeded. A feed that cannot be read gives the empty list. */
  lemma ReadFeedKeepsItems(feed: Option<seq<CustomItem>>, net: Network, env: NewsExtractor.Env)
    ensures feed.None? ==> ReadFeed(feed, net, env) == []
    ensures feed.Some? ==> |ReadFeed(feed, net, env)| == |feed.value|
    ensures feed.Some? ==> forall k :: 0 <= k < |feed.value| ==>
              var n := Normalize(feed.value[k]);
              var a := ReadFeed(feed, net, env)[k];
              var d := Details(net, env, k, n.url);
              a.title == n.title && a.url == n.url && a.summary == n.summary &&
              a.publishedAt == n.publishedAt &&
              a.content == (if Scraped(d) then d.data.value.content else "")
  {
    if feed.Some? {
      forall k | 0 <= k < |feed.value| ensures
        var n := Normalize(feed.value[k]);
        var d := Details(net, env, k, n.url);
        ReadFeed(feed, net, env)[k] == Merge(n, d)
      {
      }
    }
  }

  /** `extractRSSFeed`: normalise, then scrape and merge the items one after another,
      pushing each article onto the result. */
  method ExtractRSSFeed(feed: Option<seq<CustomItem>>, net: Network, env: NewsExtractor.Env)
    returns (result: seq<FeedArticle>)
    ensures result == ReadFeed(feed, net, env)
  {
    if feed.None? {
      return [];
    }
    var normalized := NormalizeAll(feed.value);
    result := [];
    var k := 0;
    while k < |normalized|
      invariant 0 <= k <= |normalized|
      invariant |result| == k
      invariant forall j :: 0 <= j < k ==>
                  result[j] == Merge(normalized[j], Details(net, env, j, normalized[j].url))
    {
      var item := normalized[k];
      var report := NewsExtractor.ScrapeNews(net.fetch(k, item.url), net.render(k, item.url), env);
      var article := MergeItem(item, report.result);
      result := result + [article];
      k := k + 1;
    }
  }
}
