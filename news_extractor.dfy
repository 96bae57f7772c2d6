/** `NewsContentExtractor` and `scrapeNews`: from one HTML page to its main text, title
    and cover photo. The document is parsed by JSDOM (a parameter), stripped of noise
    elements in place, and then queried. */
module NewsExtractor {
  import opened Wrappers
  import opened JsString
  import opened Dom
  import JsonLd
  import opened NewsText

  // ---------------------------------------------------------------------------
  // Selectors
  // ---------------------------------------------------------------------------

  /** A selector string naming one compound selector. */
  function Sel(c: Compound): seq<Selector>
  {
    [Select(c)]
  }

  /** `contentSelectors`, in the order they are tried. */
  const ContentSelectors: seq<seq<Selector>> := [
    Sel([Tag("article")]), Sel([Attr("role", "main")]), Sel([Class("article-content")]),
    Sel([Class("post-content")]), Sel([Class("entry-content")]), Sel([Class("content")]),
    Sel([Class("story-body")]), Sel([Class("article-body")]), Sel([Class("post-body")]),
    Sel([Id("main-content")]), Sel([Class("main-content")]), Sel([Class("article-text")]),
    Sel([Class("story-content")])]

  /** `removeSelectors`: the 23 kinds of noise element deleted before any extraction. */
  const RemoveSelectors: seq<Compound> := [
    [Tag("nav")], [Tag("header")], [Tag("footer")], [Tag("aside")],
    [Class("advertisement")], [Class("ad")], [Class("ads")], [Class("social-share")],
    [Class("share-buttons")], [Class("related-articles")], [Class("recommended")],
    [Class("comments")], [Class("comment-section")], [Class("newsletter-signup")],
    [Class("subscription")], [Tag("script")], [Tag("style")], [Tag("iframe")],
    [Class("menu")], [Class("navigation")], [Class("nav")], [Class("sidebar")],
    [Class("widget")]]

  const DensityCandidates: seq<Selector> := [Select([Tag("div")]), Select([Tag("section")]), Select([Tag("main")])]

  const ParagraphCandidates: seq<Selector> :=
    [Select([Tag("div")]), Select([Tag("section")]), Select([Tag("main")]), Select([Tag("article")])]

  const Paragraphs: seq<Selector> := [Select([Tag("p")])]

  const TitleSelectors: seq<seq<Selector>> := [
    Sel([Tag("h1")]), Sel([Class("article-title")]), Sel([Class("post-title")]),
    Sel([Class("entry-title")]), Sel([Attr("data-testid", "headline")]), Sel([Class("headline")])]

  /** The content selectors `extractArticleImage` looks for an image in. */
  const ArticleSelectors: seq<seq<Selector>> := [
    Sel([Tag("article")]), Sel([Attr("role", "main")]), Sel([Class("article-content")]),
    Sel([Class("post-content")]), Sel([Class("content")])]

  function InContainer(c: Simple): seq<Selector>
  {
    [Within([c], [Tag("img")])]
  }

  const FeaturedSelectors: seq<seq<Selector>> := [
    InContainer(Class("featured-image")), InContainer(Class("hero-image")),
    InContainer(Class("article-image")), InContainer(Class("post-image")),
    InContainer(Class("cover-image")), InContainer(Class("thumbnail")),
    InContainer(Attr("data-testid", "featured-image")), InContainer(Class("article-header")),
    InContainer(Class("story-image"))]

  const JsonLdScripts: seq<Selector> := Sel([Tag("script"), Attr("type", "application/ld+json")])

  // ---------------------------------------------------------------------------
  // The collaborators the extractor cannot see
  // ---------------------------------------------------------------------------

  /** JSDOM's parser and `JSON.parse` (`None` when they throw), the text-density score
      of an element (a ratio of text to serialised HTML), and `Math.log`. */
  datatype Env = Env(
    parseHtml: string -> Option<seq<Node>>,
    parseJson: string -> Option<JsonLd.Json>,
    density: Node -> real,
    logOf: nat -> real)

  // ---------------------------------------------------------------------------
  // The document, stripped in place
  // ---------------------------------------------------------------------------

  /** The parsed document: its top-level nodes, which removal rewrites. */
  class Document {
    var nodes: seq<Node>

    constructor(nodes: seq<Node>)
      ensures this.nodes == nodes
    {
      this.nodes := nodes;
    }
  }

  /** `removeUnwantedElements`: for each noise selector in turn, every matching element
      is removed together with its subtree. Afterwards no element matches any of them. */
  method RemoveUnwantedElements(doc: Document)
    modifies doc
    ensures doc.nodes == PruneAll(old(doc.nodes), RemoveSelectors)
    ensures forall k :: 0 <= k < |RemoveSelectors| ==> Free(doc.nodes, RemoveSelectors[k])
  {
    ghost var original := doc.nodes;
    var i := 0;
    while i < |RemoveSelectors|
      invariant 0 <= i <= |RemoveSelectors|
      invariant doc.nodes == PruneAll(original, RemoveSelectors[..i])
    {
      assert RemoveSelectors[..i + 1][..i] == RemoveSelectors[..i];
      doc.nodes := Prune(doc.nodes, RemoveSelectors[i]);
      i := i + 1;
    }
    assert RemoveSelectors[..i] == RemoveSelectors;
    PruneAllRemovesAll(original, RemoveSelectors);
  }

  /** `getTextContent`: the text of a copy of the element with the noise elements
      inside it removed (the element itself is kept even if it is noise). */
  function GetTextContent(n: Node): string
  {
    match n
    case Text(s) => s
    case Element(_, _, ch) => TextOfAll(PruneAll(ch, RemoveSelectors))
  }

  /** In a document already stripped of the noise elements, as every strategy sees it,
      the clone's removals find nothing: `getTextContent` of any element a query returns
      is its plain `textContent`. */
  lemma GetTextContentInStripped(nodes: seq<Node>, sels: seq<Selector>, k: nat)
    requires forall j :: 0 <= j < |RemoveSelectors| ==> Free(nodes, RemoveSelectors[j])
    requires k < |QueryAll(nodes, sels)|
    ensures GetTextContent(QueryAll(nodes, sels)[k].node) == TextContent(QueryAll(nodes, sels)[k].node)
  {
    var l := QueryAll(nodes, sels)[k];
    var locs := Preorder(nodes, []);
    assert l in locs;
    var i :| 0 <= i < |locs| && locs[i] == l;
    forall j | 0 <= j < |RemoveSelectors| ensures Free(l.node.children, RemoveSelectors[j]) {
      FreeBelow(nodes, [], RemoveSelectors[j], i);
    }
    PruneAllOfFree(l.node.children, RemoveSelectors);
  }

  // ---------------------------------------------------------------------------
  // Strategy 1: the first content selector whose first match has > 200 characters
  // ---------------------------------------------------------------------------

  /** The text of the first match of `sel`, if its `length` is above 200. */
  function SelectorText(nodes: seq<Node>, sel: seq<Selector>): Option<string>
  {
    match QueryFirst(nodes, sel)
    case None => None
    case Some(el) =>
      var text := GetTextContent(el.node);
      if Utf16Length(text) > 200 then Some(text) else None
  }

  function SelectorStep(nodes: seq<Node>): seq<Selector> -> Option<string>
  {
    sel => SelectorText(nodes, sel)
  }

  function BySelectors(nodes: seq<Node>): Option<string>
  {
    FirstSome(ContentSelectors, SelectorStep(nodes))
  }

  /** The text of the first selector, in list order, whose first match has a text
      `length` above 200; none when no selector qualifies. */
  lemma BySelectorsIsFirstLongMatch(nodes: seq<Node>)
    ensures BySelectors(nodes).Some? <==>
              exists i :: 0 <= i < |ContentSelectors| && QueryFirst(nodes, ContentSelectors[i]).Some? &&
                          Utf16Length(GetTextContent(QueryFirst(nodes, ContentSelectors[i]).value.node)) > 200
    ensures BySelectors(nodes).Some? ==>
              exists i :: 0 <= i < |ContentSelectors| && QueryFirst(nodes, ContentSelectors[i]).Some? &&
                          BySelectors(nodes) == Some(GetTextContent(QueryFirst(nodes, ContentSelectors[i]).value.node)) &&
                          Utf16Length(BySelectors(nodes).value) > 200 &&
                          forall j :: 0 <= j < i ==>
                            QueryFirst(nodes, ContentSelectors[j]).None? ||
                            Utf16Length(GetTextContent(QueryFirst(nodes, ContentSelectors[j]).value.node)) <= 200
  {
    FirstSomeIsEarliest(ContentSelectors, SelectorStep(nodes));
  }

  method ExtractBySelectors(doc: Document) returns (r: Option<string>)
    ensures r == BySelectors(doc.nodes)
  {
    var i := 0;
    while i < |ContentSelectors|
      invariant 0 <= i <= |ContentSelectors|
      invariant FirstSome(ContentSelectors[i..], SelectorStep(doc.nodes)) == BySelectors(doc.nodes)
    {
      FirstSomeStep(ContentSelectors, i, SelectorStep(doc.nodes));
      var element := QueryFirst(doc.nodes, ContentSelectors[i]);
      if element.Some? {
        var text := GetTextContent(element.value.node);
        if Utf16Length(text) > 200 {
          return Some(text);
        }
      }
      i := i + 1;
    }
    return None;
  }

  // ---------------------------------------------------------------------------
  // Strategies 2 and 3: the highest-scoring candidate element
  // ---------------------------------------------------------------------------

  /** The state of an argmax loop: the best element so far and its score, starting from
      no element and score 0, replaced only on a strictly higher score. */
  datatype Leader<T> = Leader(best: Option<T>, highest: real)

  function Lead<T>(xs: seq<T>, score: T -> real): Leader<T>
  {
    if xs == [] then Leader(None, 0.0)
    else
      var l := Lead(xs[..|xs| - 1], score);
      var last := xs[|xs| - 1];
      if score(last) > l.highest then Leader(Some(last), score(last)) else l
  }

  /** The loop picks the first element of maximal score, provided that score is positive,
      and nothing when no score is positive. */
  lemma {:induction false} LeadIsFirstMaximum<T>(xs: seq<T>, score: T -> real)
    ensures Lead(xs, score).highest >= 0.0
    ensures forall j :: 0 <= j < |xs| ==> score(xs[j]) <= Lead(xs, score).highest
    ensures Lead(xs, score).best.None? ==> Lead(xs, score).highest == 0.0
    ensures Lead(xs, score).best.Some? ==>
              Lead(xs, score).highest > 0.0 &&
              exists i :: 0 <= i < |xs| && Lead(xs, score).best == Some(xs[i]) &&
                          score(xs[i]) == Lead(xs, score).highest &&
                          forall j :: 0 <= j < i ==> score(xs[j]) < score(xs[i])
  {
    if xs != [] {
      var init, last := xs[..|xs| - 1], xs[|xs| - 1];
      LeadIsFirstMaximum(init, score);
      var l := Lead(init, score);
      assert forall j :: 0 <= j < |init| ==> xs[j] == init[j];
      if score(last) <= l.highest && l.best.Some? {
        var i :| 0 <= i < |init| && l.best == Some(init[i]) && score(init[i]) == l.highest &&
                 forall j :: 0 <= j < i ==> score(init[j]) < score(init[i]);
        assert xs[i] == init[i];
      }
    }
  }

  /** No candidate wins exactly when no candidate scores above 0. */
  lemma LeadNoneIff<T>(xs: seq<T>, score: T -> real)
    ensures Lead(xs, score).best.None? <==> forall j :: 0 <= j < |xs| ==> score(xs[j]) <= 0.0
  {
    LeadIsFirstMaximum(xs, score);
  }

  method ArgMax<T>(xs: seq<T>, score: T -> real) returns (best: Option<T>)
    ensures best == Lead(xs, score).best
  {
    var highest := 0.0;
    best := None;
    var i := 0;
    while i < |xs|
      invariant 0 <= i <= |xs|
      invariant Leader(best, highest) == Lead(xs[..i], score)
    {
      assert xs[..i + 1][..i] == xs[..i];
      var s := score(xs[i]);
      if s > highest {
        highest := s;
        best := Some(xs[i]);
      }
      i := i + 1;
    }
    assert xs[..i] == xs;
  }

  function DensityScore(env: Env): Located -> real
  {
    (l: Located) => env.density(l.node)
  }

  /** `paragraphs.length * Math.log(textLength + 1)`. */
  function ParagraphScore(env: Env): Located -> real
  {
    (l: Located) => (|QueryAllWithin(l, Paragraphs)| as real) * env.logOf(Utf16Length(GetTextContent(l.node)) + 1)
  }

  function TextOfBest(best: Option<Located>): Option<string>
  {
    match best
    case None => None
    case Some(l) => Some(GetTextContent(l.node))
  }

  function ByTextDensity(nodes: seq<Node>, env: Env): Option<string>
  {
    TextOfBest(Lead(QueryAll(nodes, DensityCandidates), DensityScore(env)).best)
  }

  function ByParagraphScore(nodes: seq<Node>, env: Env): Option<string>
  {
    TextOfBest(Lead(QueryAll(nodes, ParagraphCandidates), ParagraphScore(env)).best)
  }

  method ExtractByTextDensity(doc: Document, env: Env) returns (r: Option<string>)
    ensures r == ByTextDensity(doc.nodes, env)
  {
    var candidates := QueryAll(doc.nodes, DensityCandidates);
    var best := ArgMax(candidates, DensityScore(env));
    r := if best.Some? then Some(GetTextContent(best.value.node)) else None;
  }

  method ExtractByParagraphScore(doc: Document, env: Env) returns (r: Option<string>)
    ensures r == ByParagraphScore(doc.nodes, env)
  {
    var candidates := QueryAll(doc.nodes, ParagraphCandidates);
    var best := ArgMax(candidates, ParagraphScore(env));
    r := if best.Some? then Some(GetTextContent(best.value.node)) else None;
  }

  // ---------------------------------------------------------------------------
  // Strategy 4: every substantial paragraph
  // ---------------------------------------------------------------------------

  /** The accumulated `content`: each paragraph whose trimmed text has a `length` above
      50, followed by a blank line. */
  function LongParagraphs(ps: seq<Located>): string
  {
    if ps == [] then ""
    else
      var acc := LongParagraphs(ps[..|ps| - 1]);
      var text := ParagraphText(ps[|ps| - 1]);
      if Utf16Length(text) > 50 then acc + text + "\n\n" else acc
  }

  /** `p.textContent?.trim() ?? ""`. */
  function ParagraphText(p: Located): string
  {
    Trim(TextContent(p.node))
  }

  function Fallback(nodes: seq<Node>): Option<string>
  {
    var content := Trim(LongParagraphs(QueryAll(nodes, Paragraphs)));
    if Utf16Length(content) > 0 then Some(content) else None
  }

  /** With no paragraph long enough, nothing is accumulated. */
  lemma {:induction false} ShortParagraphsAddNothing(ps: seq<Located>)
    requires forall k :: 0 <= k < |ps| ==> Utf16Length(ParagraphText(ps[k])) <= 50
    ensures LongParagraphs(ps) == ""
  {
    if ps != [] {
      var init := ps[..|ps| - 1];
      forall k | 0 <= k < |init| ensures Utf16Length(ParagraphText(init[k])) <= 50 {
        assert init[k] == ps[k];
      }
      ShortParagraphsAddNothing(init);
    }
  }

  /** One long paragraph puts a non-whitespace character into the accumulated text. */
  lemma {:induction false} LongParagraphShows(ps: seq<Located>, k: nat) returns (i: nat)
    requires k < |ps| && Utf16Length(ParagraphText(ps[k])) > 50
    ensures i < |LongParagraphs(ps)| && !IsSpace(LongParagraphs(ps)[i])
  {
    var init := ps[..|ps| - 1];
    var text := ParagraphText(ps[|ps| - 1]);
    LongParagraphsLast(ps);
    if k == |ps| - 1 || Utf16Length(text) > 50 {
      i := AppendedShows(LongParagraphs(init), text);
    } else {
      assert init[k] == ps[k];
      i := LongParagraphShows(init, k);
    }
  }

  lemma LongParagraphsLast(ps: seq<Located>)
    requires ps != []
    ensures var text := ParagraphText(ps[|ps| - 1]);
      LongParagraphs(ps) ==
        if Utf16Length(text) > 50 then LongParagraphs(ps[..|ps| - 1]) + text + "\n\n" else LongParagraphs(ps[..|ps| - 1])
  {
  }

  lemma AppendedShows(acc: string, text: string) returns (i: nat)
    requires text != [] && !IsSpace(text[0])
    ensures i < |acc + text + "\n\n"| && !IsSpace((acc + text + "\n\n")[i])
  {
    i := |acc|;
  }

  /** `fallbackExtraction` gives nothing exactly when no paragraph's trimmed text has a
      `length` above 50. */
  lemma FallbackNoneIff(nodes: seq<Node>)
    ensures Fallback(nodes).None? <==>
              forall k :: 0 <= k < |QueryAll(nodes, Paragraphs)| ==>
                Utf16Length(ParagraphText(QueryAll(nodes, Paragraphs)[k])) <= 50
  {
    var ps := QueryAll(nodes, Paragraphs);
    TrimEmptyIffAllSpace(LongParagraphs(ps));
    if forall k :: 0 <= k < |ps| ==> Utf16Length(ParagraphText(ps[k])) <= 50 {
      ShortParagraphsAddNothing(ps);
    } else {
      var k :| 0 <= k < |ps| && Utf16Length(ParagraphText(ps[k])) > 50;
      var i := LongParagraphShows(ps, k);
    }
  }

  method FallbackExtraction(doc: Document) returns (r: Option<string>)
    ensures r == Fallback(doc.nodes)
  {
    var paragraphs := QueryAll(doc.nodes, Paragraphs);
    var content := "";
    var i := 0;
    while i < |paragraphs|
      invariant 0 <= i <= |paragraphs|
      invariant content == LongParagraphs(paragraphs[..i])
    {
      assert paragraphs[..i + 1][..i] == paragraphs[..i];
      var text := ParagraphText(paragraphs[i]);
      if Utf16Length(text) > 50 {
        content := content + text + "\n\n";
      }
      i := i + 1;
    }
    assert paragraphs[..i] == paragraphs;
    var trimmed := Trim(content);
    r := if Utf16Length(trimmed) > 0 then Some(trimmed) else None;
  }

  // ---------------------------------------------------------------------------
  // Title
  // ---------------------------------------------------------------------------

  /** The trimmed text of the first match of `sel`, if it is not blank. */
  function TitleText(nodes: seq<Node>, sel: seq<Selector>): Option<string>
  {
    match QueryFirst(nodes, sel)
    case None => None
    case Some(el) =>
      var text := Trim(TextContent(el.node));
      if text != "" then Some(text) else None
  }

  function TitleStep(nodes: seq<Node>): seq<Selector> -> Option<string>
  {
    sel => TitleText(nodes, sel)
  }

  /** `document.querySelector("title")?.textContent?.trim()`: may be the empty string. */
  function PageTitle(nodes: seq<Node>): Option<string>
  {
    match QueryFirst(nodes, Sel([Tag("title")]))
    case None => None
    case Some(el) => Some(Trim(TextContent(el.node)))
  }

  function Title(nodes: seq<Node>): Option<string>
  {
    var heading := FirstSome(TitleSelectors, TitleStep(nodes));
    if heading.Some? then heading else PageTitle(nodes)
  }

  /** The title is the trimmed, non-blank text of the first title selector whose first
      match has one; only when there is none does the page `<title>` count, and that
      one may be blank. */
  lemma TitleIsFirstNonBlank(nodes: seq<Node>)
    ensures (exists i :: 0 <= i < |TitleSelectors| && TitleText(nodes, TitleSelectors[i]).Some?) ==>
              Title(nodes).Some? && Title(nodes).value != "" && Trim(Title(nodes).value) == Title(nodes).value &&
              exists i :: 0 <= i < |TitleSelectors| && Title(nodes) == TitleText(nodes, TitleSelectors[i]) &&
                          forall j :: 0 <= j < i ==> TitleText(nodes, TitleSelectors[j]).None?
    ensures (forall i :: 0 <= i < |TitleSelectors| ==> TitleText(nodes, TitleSelectors[i]).None?) ==>
              Title(nodes) == PageTitle(nodes)
  {
    FirstSomeIsEarliest(TitleSelectors, TitleStep(nodes));
    var heading := FirstSome(TitleSelectors, TitleStep(nodes));
    if heading.Some? {
      var i :| 0 <= i < |TitleSelectors| && heading == TitleText(nodes, TitleSelectors[i]);
      TrimIdempotent(TextContent(QueryFirst(nodes, TitleSelectors[i]).value.node));
    }
  }

  method ExtractTitle(doc: Document) returns (r: Option<string>)
    ensures r == Title(doc.nodes)
  {
    var i := 0;
    while i < |TitleSelectors|
      invariant 0 <= i <= |TitleSelectors|
      invariant FirstSome(TitleSelectors[i..], TitleStep(doc.nodes)) == FirstSome(TitleSelectors, TitleStep(doc.nodes))
    {
      FirstSomeStep(TitleSelectors, i, TitleStep(doc.nodes));
      var element := QueryFirst(doc.nodes, TitleSelectors[i]);
      if element.Some? {
        var text := Trim(TextContent(element.value.node));
        if text != "" {
          return Some(text);
        }
      }
      i := i + 1;
    }
    return PageTitle(doc.nodes);
  }

  // ---------------------------------------------------------------------------
  // Cover photo
  // ---------------------------------------------------------------------------

  /** The `url` of a cover photo: a string, or, from JSON-LD, whatever truthy non-string
      value the search returned (`resolveUrl` swallows the `TypeError` and hands it back). */
  datatype PhotoUrl = Link(href: string) | Other(value: JsonLd.Json)

  datatype CoverPhoto = CoverPhoto(
    url: PhotoUrl,
    alt: Option<string>,
    width: Option<Number>,
    height: Option<Number>,
    source: string)

  /** `resolveUrl`: protocol-relative URLs get `https:`, everything else is returned as
      it is. */
  function ResolveUrl(url: string): string
  {
    if StartsWith(url, "http://") || StartsWith(url, "https://") then url
    else if StartsWith(url, "//") then "https:" + url
    else url
  }

  /** Only a protocol-relative URL is changed, resolving twice is resolving once, and a
      resolved URL is never protocol-relative. */
  lemma ResolveUrlSpec(url: string)
    ensures StartsWith(url, "//") ==> ResolveUrl(url) == "https:" + url
    ensures !StartsWith(url, "//") ==> ResolveUrl(url) == url
    ensures ResolveUrl(ResolveUrl(url)) == ResolveUrl(url)
    ensures !StartsWith(ResolveUrl(url), "//")
  {
    if StartsWith(url, "//") {
      assert url[..2] == "//";
      assert !StartsWith(url, "http://") by { assert url[0] == '/'; }
      assert !StartsWith(url, "https://") by { assert url[0] == '/'; }
      var r := "https:" + url;
      assert r[..8] == "https://" by { assert r[6..8] == url[..2]; }
      assert r[0] == 'h';
    }
  }

  /** `x || undefined` on an attribute value. */
  function OrUndefined(o: Option<string>): Option<string>
  {
    if o.Some? && o.value != "" then o else None
  }

  /** `x || fallback` on an attribute value. */
  function OrElse(o: Option<string>, fallback: string): string
  {
    if o.Some? && o.value != "" then o.value else fallback
  }

  function MetaSel(attr: string, value: string): seq<Selector>
  {
    Sel([Tag("meta"), Attr(attr, value)])
  }

  /** `document.querySelector(sels)?.getAttribute("content")`. */
  function MetaContent(nodes: seq<Node>, sels: seq<Selector>): Option<string>
  {
    match QueryFirst(nodes, sels)
    case None => None
    case Some(m) => GetAttribute(m.node, "content")
  }

  /** `x ? parseInt(x, 10) : undefined`. */
  function ParsedIfPresent(o: Option<string>): Option<Number>
  {
    if o.Some? && o.value != "" then Some(ParseInt(o.value)) else None
  }

  function OgImage(nodes: seq<Node>): Option<CoverPhoto>
  {
    var content := MetaContent(nodes, MetaSel("property", "og:image"));
    if content.Some? && content.value != "" then
      Some(CoverPhoto(
        Link(ResolveUrl(content.value)),
        OrUndefined(MetaContent(nodes, MetaSel("property", "og:image:alt"))),
        ParsedIfPresent(MetaContent(nodes, MetaSel("property", "og:image:width"))),
        ParsedIfPresent(MetaContent(nodes, MetaSel("property", "og:image:height"))),
        "og:image"))
    else None
  }

  function TwitterImage(nodes: seq<Node>): Option<CoverPhoto>
  {
    var content := MetaContent(nodes, MetaSel("name", "twitter:image") + MetaSel("property", "twitter:image"));
    if content.Some? && content.value != "" then
      var alt := MetaContent(nodes, MetaSel("name", "twitter:image:alt") + MetaSel("property", "twitter:image:alt"));
      Some(CoverPhoto(Link(ResolveUrl(content.value)), OrUndefined(alt), None, None, "twitter:image"))
    else None
  }

  /** The og:image step yields exactly when the first `og:image` meta has a non-empty
      `content`. Its address is that content resolved: `//x` becomes `https://x`, and the
      result is never protocol-relative. The alt is present only when non-empty; width
      and height are present exactly when their metas have non-empty content, and are
      then that content parsed by `parseInt`. */
  lemma OgImageSpec(nodes: seq<Node>)
    ensures var c := MetaContent(nodes, MetaSel("property", "og:image"));
      (OgImage(nodes).Some? <==> c.Some? && c.value != "") &&
      (OgImage(nodes).Some? ==>
         var p := OgImage(nodes).value;
         var w := MetaContent(nodes, MetaSel("property", "og:image:width"));
         var h := MetaContent(nodes, MetaSel("property", "og:image:height"));
         p.source == "og:image" && p.url.Link? && !StartsWith(p.url.href, "//") &&
         (StartsWith(c.value, "//") ==> p.url.href == "https:" + c.value) &&
         (!StartsWith(c.value, "//") ==> p.url.href == c.value) &&
         (p.alt.Some? ==> p.alt.value != "") &&
         (p.width.Some? <==> w.Some? && w.value != "") && (p.width.Some? ==> p.width.value == ParseInt(w.value)) &&
         (p.height.Some? <==> h.Some? && h.value != "") && (p.height.Some? ==> p.height.value == ParseInt(h.value)))
  {
    var c := MetaContent(nodes, MetaSel("property", "og:image"));
    if c.Some? && c.value != "" {
      ResolveUrlSpec(c.value);
    }
  }

  /** The twitter:image step yields exactly when the first `twitter:image` meta (by
      `name` or by `property`) has a non-empty `content`; its address is that content
      resolved, never protocol-relative, and it never carries a width or a height. */
  lemma TwitterImageSpec(nodes: seq<Node>)
    ensures var c := MetaContent(nodes, MetaSel("name", "twitter:image") + MetaSel("property", "twitter:image"));
      (TwitterImage(nodes).Some? <==> c.Some? && c.value != "") &&
      (TwitterImage(nodes).Some? ==>
         var p := TwitterImage(nodes).value;
         p.source == "twitter:image" && p.url == Link(ResolveUrl(c.value)) && !StartsWith(p.url.href, "//") &&
         (p.alt.Some? ==> p.alt.value != "") && p.width.None? && p.height.None?)
  {
    var c := MetaContent(nodes, MetaSel("name", "twitter:image") + MetaSel("property", "twitter:image"));
    if c.Some? && c.value != "" {
      ResolveUrlSpec(c.value);
    }
  }

  function PhotoUrlOf(v: JsonLd.Json): PhotoUrl
  {
    if v.JStr? then Link(ResolveUrl(v.s)) else Other(v)
  }

  /** One JSON-LD script: parse its text, search it, and keep a truthy result. A parse
      error or an exception from the search moves on to the next script. */
  function JsonLdPhoto(env: Env, l: Located): (r: Option<CoverPhoto>)
    ensures r.Some? ==> r.value.source == "json-ld"
  {
    match env.parseJson(TextContent(l.node))
    case None => None
    case Some(data) =>
      match JsonLd.FindImage(data)
      case Found(v) => if JsonLd.Truthy(v) then Some(CoverPhoto(PhotoUrlOf(v), None, None, None, "json-ld")) else None
      case _ => None
  }

  function JsonLdStep(env: Env): Located -> Option<CoverPhoto>
  {
    (l: Located) => JsonLdPhoto(env, l)
  }

  function JsonLdImage(nodes: seq<Node>, env: Env): Option<CoverPhoto>
  {
    FirstSome(QueryAll(nodes, JsonLdScripts), JsonLdStep(env))
  }

  method ExtractJsonLdImage(doc: Document, env: Env) returns (r: Option<CoverPhoto>)
    ensures r == JsonLdImage(doc.nodes, env)
  {
    var scripts := QueryAll(doc.nodes, JsonLdScripts);
    var i := 0;
    while i < |scripts|
      invariant 0 <= i <= |scripts|
      invariant FirstSome(scripts[i..], JsonLdStep(env)) == JsonLdImage(doc.nodes, env)
    {
      FirstSomeStep(scripts, i, JsonLdStep(env));
      var data := env.parseJson(TextContent(scripts[i].node));
      if data.Some? {
        var image := JsonLd.FindImage(data.value);
        if image.Found? && JsonLd.Truthy(image.v) {
          return Some(CoverPhoto(PhotoUrlOf(image.v), None, None, None, "json-ld"));
        }
      }
      i := i + 1;
    }
    return None;
  }

  // Image filter --------------------------------------------------------------

  const ExcludePatterns: seq<string> :=
    ["icon", "logo", "avatar", "profile", "ad", "banner", "widget", "button", "pixel", "tracker", "1x1"]

  /** `src || data-src`, the address an image element is judged by. */
  function ImageSrc(n: Node): string
  {
    OrElse(GetAttribute(n, "src"), OrElse(GetAttribute(n, "data-src"), ""))
  }

  /** `parseInt(img.getAttribute(name) || "0", 10)`. */
  function Dimension(n: Node, name: string): Number
  {
    ParseInt(OrElse(GetAttribute(n, name), "0"))
  }

  predicate Positive(x: Number)
  {
    x.Int? && x.value > 0
  }

  /** Both dimensions are known and positive, and one of them is below 100. */
  predicate TooSmall(n: Node)
  {
    var w, h := Dimension(n, "width"), Dimension(n, "height");
    Positive(w) && Positive(h) && (w.value < 100 || h.value < 100)
  }

  predicate Excluded(src: string)
  {
    exists k :: 0 <= k < |ExcludePatterns| && Includes(ToLower(src), ExcludePatterns[k])
  }

  /** `isValidImage`. */
  predicate IsValidImage(n: Node)
  {
    n.Element? && n.tag == "img" && ImageSrc(n) != "" && !TooSmall(n) && !Excluded(ImageSrc(n))
  }

  /** The four ways an image is rejected, each enough on its own. */
  lemma IsValidImageRejects(n: Node)
    ensures !(n.Element? && n.tag == "img") ==> !IsValidImage(n)
    ensures ImageSrc(n) == "" ==> !IsValidImage(n)
    ensures (Positive(Dimension(n, "width")) && Positive(Dimension(n, "height")) &&
             (Dimension(n, "width").value < 100 || Dimension(n, "height").value < 100)) ==> !IsValidImage(n)
    ensures (exists k :: 0 <= k < |ExcludePatterns| && Includes(ToLower(ImageSrc(n)), ExcludePatterns[k])) ==>
              !IsValidImage(n)
    ensures IsValidImage(n) ==>
              (ImageSrc(n) != "" &&
               (Dimension(n, "width").Int? && Dimension(n, "height").Int? &&
                Dimension(n, "width").value > 0 && Dimension(n, "height").value > 0 ==>
                  Dimension(n, "width").value >= 100 && Dimension(n, "height").value >= 100))
  {
  }

  /** A missing height makes the size rule inapplicable, however small the width. */
  lemma MissingHeightIsNotTooSmall(n: Node)
    requires GetAttribute(n, "height").None?
    ensures !TooSmall(n)
  {
    assert OrElse(GetAttribute(n, "height"), "0") == "0";
    ParseIntOfDecimal(0);
    assert DecimalString(0) == "0";
  }

  /** An exclusion token anywhere in the lowered address rejects the image. */
  lemma InvalidIfToken(n: Node, k: nat, i: nat)
    requires k < |ExcludePatterns| && OccursAt(ToLower(ImageSrc(n)), ExcludePatterns[k], i)
    ensures !IsValidImage(n)
  {
  }

  /** The exclusion tokens are matched as substrings: "ad" rules out any address
      containing "uploads". */
  lemma UploadsPathIsExcluded(n: Node, before: string, after: string)
    requires GetAttribute(n, "src") == Some(before + "uploads" + after)
    ensures !IsValidImage(n)
  {
    var m := "uploads";
    assert ImageSrc(n) == before + m + after;
    LowerAround(before, m, after);
    var lb := ToLower(before);
    assert (lb + m + ToLower(after))[|lb| + 4..|lb| + 6] == m[4..6];
    InvalidIfToken(n, 4, |lb| + 4);
  }

  /** Lowering leaves a lower-case middle part in place. */
  lemma LowerAround(before: string, m: string, after: string)
    requires forall i :: 0 <= i < |m| ==> LowerAlready(m[i])
    ensures ToLower(before + m + after) == ToLower(before) + m + ToLower(after)
  {
    ToLowerAppend(before + m, after);
    ToLowerAppend(before, m);
    ToLowerOfLower(m);
  }

  /** `toLowerCase` folds U+212A KELVIN SIGN to `k`: an address spelling "tracker" with
      it is excluded too. */
  lemma KelvinSignIsFolded(n: Node, before: string, after: string)
    requires GetAttribute(n, "src") == Some(before + "trac\U{212A}er" + after)
    ensures !IsValidImage(n)
  {
    var m := "trac\U{212A}er";
    ToLowerAppend(before + m, after);
    ToLowerAppend(before, m);
    KelvinTrackerLowers();
    var lb := ToLower(before);
    assert (lb + "tracker" + ToLower(after))[|lb|..|lb| + 7] == "tracker";
    InvalidIfToken(n, 9, |lb|);
  }

  lemma KelvinTrackerLowers()
    ensures ToLower("trac\U{212A}er") == "tracker"
  {
    var p, kelvin, q := "trac", "\U{212A}", "er";
    assert "trac\U{212A}er" == p + kelvin + q;
    ToLowerAppend(p + kelvin, q);
    ToLowerAppend(p, kelvin);
    ToLowerOfLower(p);
    ToLowerOfLower(q);
    assert ToLower(kelvin) == "k" by { assert kelvin[1..] == []; }
  }

  /** A non-zero integer, else `undefined` (`parseInt(...) || undefined`). */
  function NonZero(x: Number): Option<Number>
  {
    if x.Int? && x.value != 0 then Some(x) else None
  }

  /** `createCoverPhotoFromImg`. */
  function CreateCoverPhoto(n: Node, source: string): (p: CoverPhoto)
    ensures p.width.Some? ==> p.width.value.Int? && p.width.value.value != 0
    ensures p.height.Some? ==> p.height.value.Int? && p.height.value.value != 0
  {
    CoverPhoto(
      Link(ResolveUrl(ImageSrc(n))),
      OrUndefined(GetAttribute(n, "alt")),
      NonZero(Dimension(n, "width")),
      NonZero(Dimension(n, "height")),
      source)
  }

  /** The photo of the first image inside the first match of `sel`, if that image
      passes the filter. */
  function ArticlePhoto(nodes: seq<Node>, sel: seq<Selector>): (r: Option<CoverPhoto>)
    ensures r.Some? ==> r.value.source == "article content"
  {
    match QueryFirst(nodes, sel)
    case None => None
    case Some(container) =>
      match QueryFirstWithin(container, Sel([Tag("img")]))
      case None => None
      case Some(img) => if IsValidImage(img.node) then Some(CreateCoverPhoto(img.node, "article content")) else None
  }

  function ArticleStep(nodes: seq<Node>): seq<Selector> -> Option<CoverPhoto>
  {
    sel => ArticlePhoto(nodes, sel)
  }

  function ArticleImage(nodes: seq<Node>): Option<CoverPhoto>
  {
    FirstSome(ArticleSelectors, ArticleStep(nodes))
  }

  method ExtractArticleImage(doc: Document) returns (r: Option<CoverPhoto>)
    ensures r == ArticleImage(doc.nodes)
  {
    var i := 0;
    while i < |ArticleSelectors|
      invariant 0 <= i <= |ArticleSelectors|
      invariant FirstSome(ArticleSelectors[i..], ArticleStep(doc.nodes)) == ArticleImage(doc.nodes)
    {
      FirstSomeStep(ArticleSelectors, i, ArticleStep(doc.nodes));
      var container := QueryFirst(doc.nodes, ArticleSelectors[i]);
      if container.Some? {
        var img := QueryFirstWithin(container.value, Sel([Tag("img")]));
        if img.Some? && IsValidImage(img.value.node) {
          return Some(CreateCoverPhoto(img.value.node, "article content"));
        }
      }
      i := i + 1;
    }
    return None;
  }

  function FeaturedPhoto(nodes: seq<Node>, sel: seq<Selector>): (r: Option<CoverPhoto>)
    ensures r.Some? ==> r.value.source == "featured image"
  {
    match QueryFirst(nodes, sel)
    case None => None
    case Some(img) => if IsValidImage(img.node) then Some(CreateCoverPhoto(img.node, "featured image")) else None
  }

  function FeaturedStep(nodes: seq<Node>): seq<Selector> -> Option<CoverPhoto>
  {
    sel => FeaturedPhoto(nodes, sel)
  }

  function FeaturedImage(nodes: seq<Node>): Option<CoverPhoto>
  {
    FirstSome(FeaturedSelectors, FeaturedStep(nodes))
  }

  method ExtractFeaturedImage(doc: Document) returns (r: Option<CoverPhoto>)
    ensures r == FeaturedImage(doc.nodes)
  {
    var i := 0;
    while i < |FeaturedSelectors|
      invariant 0 <= i <= |FeaturedSelectors|
      invariant FirstSome(FeaturedSelectors[i..], FeaturedStep(doc.nodes)) == FeaturedImage(doc.nodes)
    {
      FirstSomeStep(FeaturedSelectors, i, FeaturedStep(doc.nodes));
      var img := QueryFirst(doc.nodes, FeaturedSelectors[i]);
      if img.Some? && IsValidImage(img.value.node) {
        return Some(CreateCoverPhoto(img.value.node, "featured image"));
      }
      i := i + 1;
    }
    return None;
  }

  /** `extractCoverPhoto`: the first of the five steps that yields a photo. */
  function CoverPhotoOf(nodes: seq<Node>, env: Env): Option<CoverPhoto>
  {
    var og := OgImage(nodes);
    if og.Some? then og
    else
      var twitter := TwitterImage(nodes);
      if twitter.Some? then twitter
      else
        var ld := JsonLdImage(nodes, env);
        if ld.Some? then ld
        else
          var article := ArticleImage(nodes);
          if article.Some? then article else FeaturedImage(nodes)
  }

  /** Each step labels its photo with its own source. */
  lemma StepSources(nodes: seq<Node>, env: Env)
    ensures OgImage(nodes).Some? ==> OgImage(nodes).value.source == "og:image"
    ensures TwitterImage(nodes).Some? ==> TwitterImage(nodes).value.source == "twitter:image"
    ensures JsonLdImage(nodes, env).Some? ==> JsonLdImage(nodes, env).value.source == "json-ld"
    ensures ArticleImage(nodes).Some? ==> ArticleImage(nodes).value.source == "article content"
    ensures FeaturedImage(nodes).Some? ==> FeaturedImage(nodes).value.source == "featured image"
  {
    FirstSomeIsEarliest(QueryAll(nodes, JsonLdScripts), JsonLdStep(env));
    FirstSomeIsEarliest(ArticleSelectors, ArticleStep(nodes));
    FirstSomeIsEarliest(FeaturedSelectors, FeaturedStep(nodes));
  }

  /** The photo comes from the earliest step that yields one, and its `source` tells
      which: every step before it came up empty, and later steps play no part. */
  lemma CoverPhotoIsEarliestStep(nodes: seq<Node>, env: Env)
    ensures var r := CoverPhotoOf(nodes, env);
      (r.Some? <==> OgImage(nodes).Some? || TwitterImage(nodes).Some? || JsonLdImage(nodes, env).Some? ||
                    ArticleImage(nodes).Some? || FeaturedImage(nodes).Some?) &&
      (OgImage(nodes).Some? ==> r == OgImage(nodes)) &&
      (r.Some? && r.value.source == "twitter:image" ==> OgImage(nodes).None? && r == TwitterImage(nodes)) &&
      (r.Some? && r.value.source == "json-ld" ==>
         OgImage(nodes).None? && TwitterImage(nodes).None? && r == JsonLdImage(nodes, env)) &&
      (r.Some? && r.value.source == "article content" ==>
         OgImage(nodes).None? && TwitterImage(nodes).None? && JsonLdImage(nodes, env).None? &&
         r == ArticleImage(nodes)) &&
      (r.Some? && r.value.source == "featured image" ==>
         OgImage(nodes).None? && TwitterImage(nodes).None? && JsonLdImage(nodes, env).None? &&
         ArticleImage(nodes).None? && r == FeaturedImage(nodes))
  {
    StepSources(nodes, env);
  }

  method ExtractCoverPhoto(doc: Document, env: Env) returns (r: Option<CoverPhoto>)
    ensures r == CoverPhotoOf(doc.nodes, env)
  {
    r := OgImage(doc.nodes);
    if r.Some? { return; }
    r := TwitterImage(doc.nodes);
    if r.Some? { return; }
    r := ExtractJsonLdImage(doc, env);
    if r.Some? { return; }
    r := ExtractArticleImage(doc);
    if r.Some? { return; }
    r := ExtractFeaturedImage(doc);
  }

  /** In a document stripped of every `script` element the JSON-LD step finds nothing. */
  lemma NoJsonLdWithoutScripts(nodes: seq<Node>, env: Env)
    requires Free(nodes, [Tag("script")])
    ensures JsonLdImage(nodes, env).None?
  {
    var t: Compound := [Tag("script"), Attr("type", "application/ld+json")];
    forall n | MatchesCompound(t, n) ensures MatchesCompound([Tag("script")], n) {
      assert MatchesSimple(t[0], n);
    }
    QueryAllOfFree(nodes, [Tag("script")], t);
  }

  // ---------------------------------------------------------------------------
  // extractContent
  // ---------------------------------------------------------------------------

  datatype ExtractedContent = ExtractedContent(
    content: string,
    title: Option<string>,
    coverPhoto: Option<CoverPhoto>,
    wordCount: nat,
    characterCount: nat)

  /** The four extraction methods, in the order they are tried. */
  datatype Strategy = Selectors | TextDensity | ParagraphCount | ParagraphFallback

  const Strategies: seq<Strategy> := [Selectors, TextDensity, ParagraphCount, ParagraphFallback]

  function Run(s: Strategy, nodes: seq<Node>, env: Env): Option<string>
  {
    match s
    case Selectors => BySelectors(nodes)
    case TextDensity => ByTextDensity(nodes, env)
    case ParagraphCount => ByParagraphScore(nodes, env)
    case ParagraphFallback => Fallback(nodes)
  }

  /** `content && isValidContent(content)`. */
  function Accepted(c: Option<string>): Option<string>
  {
    if c.Some? && IsValidContent(c.value) then c else None
  }

  function StrategyStep(nodes: seq<Node>, env: Env): Strategy -> Option<string>
  {
    s => Accepted(Run(s, nodes, env))
  }

  function Build(raw: string, nodes: seq<Node>, env: Env): ExtractedContent
  {
    var content := CleanText(raw);
    ExtractedContent(content, Title(nodes), CoverPhotoOf(nodes, env), CountWords(content), Utf16Length(content))
  }

  /** The document after removal of the noise elements, if the page parses. */
  function Stripped(html: string, env: Env): Option<seq<Node>>
  {
    match env.parseHtml(html)
    case None => None
    case Some(parsed) => Some(PruneAll(parsed, RemoveSelectors))
  }

  /** `extractContent(html)`: `None` when parsing throws or when no method qualifies.
      The title and cover photo are read from the stripped document. */
  function Extract(html: string, env: Env): Option<ExtractedContent>
  {
    match Stripped(html, env)
    case None => None
    case Some(nodes) =>
      match FirstSome(Strategies, StrategyStep(nodes, env))
      case None => None
      case Some(raw) => Some(Build(raw, nodes, env))
  }

  method RunStrategy(doc: Document, s: Strategy, env: Env) returns (r: Option<string>)
    ensures r == Run(s, doc.nodes, env)
  {
    match s {
      case Selectors => r := ExtractBySelectors(doc);
      case TextDensity => r := ExtractByTextDensity(doc, env);
      case ParagraphCount => r := ExtractByParagraphScore(doc, env);
      case ParagraphFallback => r := FallbackExtraction(doc);
    }
  }

  /** The success result: the cleaned text with its counts, the title and the cover photo. */
  method BuildContent(doc: Document, raw: string, env: Env) returns (r: ExtractedContent)
    ensures r == Build(raw, doc.nodes, env)
  {
    var cleaned := CleanText(raw);
    var title := ExtractTitle(doc);
    var coverPhoto := ExtractCoverPhoto(doc, env);
    r := ExtractedContent(cleaned, title, coverPhoto, CountWords(cleaned), Utf16Length(cleaned));
  }

  method ExtractContent(html: string, env: Env) returns (r: Option<ExtractedContent>)
    ensures r == Extract(html, env)
  {
    var parsed := env.parseHtml(html);
    if parsed.None? {
      return None;
    }
    var doc := new Document(parsed.value);
    RemoveUnwantedElements(doc);
    var i := 0;
    while i < |Strategies|
      invariant 0 <= i <= |Strategies|
      invariant Stripped(html, env) == Some(doc.nodes)
      invariant FirstSome(Strategies[i..], StrategyStep(doc.nodes, env)) ==
                FirstSome(Strategies, StrategyStep(doc.nodes, env))
    {
      FirstSomeStep(Strategies, i, StrategyStep(doc.nodes, env));
      var content := RunStrategy(doc, Strategies[i], env);
      if content.Some? && IsValidContent(content.value) {
        var built := BuildContent(doc, content.value, env);
        return Some(built);
      }
      i := i + 1;
    }
    return None;
  }

  /** The content comes from the first method, in the order selectors, text density,
      paragraph score, paragraph fallback, whose text is valid; there is none when no
      method qualifies. */
  lemma FirstValidStrategy(nodes: seq<Node>, env: Env)
    ensures FirstSome(Strategies, StrategyStep(nodes, env)).Some? <==>
              exists i :: 0 <= i < |Strategies| && Accepted(Run(Strategies[i], nodes, env)).Some?
    ensures FirstSome(Strategies, StrategyStep(nodes, env)).Some? ==>
              exists i :: 0 <= i < |Strategies| && Accepted(Run(Strategies[i], nodes, env)).Some? &&
                          FirstSome(Strategies, StrategyStep(nodes, env)) == Run(Strategies[i], nodes, env) &&
                          forall j :: 0 <= j < i ==> Accepted(Run(Strategies[j], nodes, env)).None?
  {
    FirstSomeIsEarliest(Strategies, StrategyStep(nodes, env));
  }

  /** `extractContent` succeeds exactly when the page parses and some method's text is
      valid, and then its content is the cleaned text of the first such method. */
  lemma ExtractIsFirstValid(html: string, env: Env)
    ensures Extract(html, env).Some? <==>
              Stripped(html, env).Some? &&
              exists i :: 0 <= i < |Strategies| && Accepted(Run(Strategies[i], Stripped(html, env).value, env)).Some?
    ensures Extract(html, env).Some? ==>
              exists i :: 0 <= i < |Strategies| &&
                          Accepted(Run(Strategies[i], Stripped(html, env).value, env)).Some? &&
                          Extract(html, env).value.content == CleanText(Run(Strategies[i], Stripped(html, env).value, env).value) &&
                          forall j :: 0 <= j < i ==> Accepted(Run(Strategies[j], Stripped(html, env).value, env)).None?
  {
    if Stripped(html, env).Some? {
      FirstValidStrategy(Stripped(html, env).value, env);
    }
  }

  /** On success the counts describe the cleaned content (`characterCount` is its
      `length` in UTF-16 code units), which keeps the at least 20 words the validity test
      demanded of the raw text. */
  lemma ExtractCounts(html: string, env: Env)
    requires Extract(html, env).Some?
    ensures var e := Extract(html, env).value;
      e.characterCount == Utf16Length(e.content) && e.characterCount >= |e.content| && e.wordCount == CountWords(e.content) && e.wordCount >= 20 &&
      e.content != [] && CleanText(e.content) == e.content
  {
    var nodes := Stripped(html, env).value;
    FirstSomeIsEarliest(Strategies, StrategyStep(nodes, env));
    var raw := FirstSome(Strategies, StrategyStep(nodes, env)).value;
    assert IsValidContent(raw);
    WordsOfCleanText(raw);
    CleanTextIdempotent(raw);
  }

  /** Scripts are removed before the cover photo is looked for, so in a stripped
      document a photo never comes from JSON-LD. */
  lemma StrippedCoverNeverJsonLd(parsed: seq<Node>, env: Env)
    ensures var r := CoverPhotoOf(PruneAll(parsed, RemoveSelectors), env);
      r.Some? ==> r.value.source != "json-ld"
  {
    var nodes := PruneAll(parsed, RemoveSelectors);
    PruneAllRemovesAll(parsed, RemoveSelectors);
    assert RemoveSelectors[15] == [Tag("script")];
    NoJsonLdWithoutScripts(nodes, env);
    StepSources(nodes, env);
  }

  /** The cover photo of an extraction never comes from JSON-LD. */
  lemma ExtractNeverUsesJsonLd(html: string, env: Env)
    requires Extract(html, env).Some? && Extract(html, env).value.coverPhoto.Some?
    ensures Extract(html, env).value.coverPhoto.value.source != "json-ld"
  {
    var parsed := env.parseHtml(html).value;
    assert Extract(html, env).value.coverPhoto == CoverPhotoOf(PruneAll(parsed, RemoveSelectors), env);
    StrippedCoverNeverJsonLd(parsed, env);
  }

  // ---------------------------------------------------------------------------
  // scrapeNews
  // ---------------------------------------------------------------------------

  /** What `fetch(url)` produced: a thrown error's message, or a response. */
  datatype FetchOutcome = FetchFailed(message: string) | Response(status: nat, statusText: string, body: string)

  /** What the headless-browser fallback produced: the connection failed (no session);
      opening the page, navigating or reading it failed (the session stays open); or
      the rendered HTML, with the error of `browser.close()` if that threw. */
  datatype RenderOutcome =
    | ConnectFailed(message: string)
    | PageFailed(message: string)
    | Rendered(html: string, closeError: Option<string>)

  datatype ExtractionResult = ExtractionResult(success: bool, data: Option<ExtractedContent>, error: Option<string>)

  datatype ScrapeReport = ScrapeReport(result: ExtractionResult, browserUsed: bool, sessionLeftOpen: bool)

  function Failure(message: string): ExtractionResult
  {
    ExtractionResult(false, None, Some(message))
  }

  function Success(data: ExtractedContent): ExtractionResult
  {
    ExtractionResult(true, Some(data), None)
  }

  const NoContentMessage: string := "Could not extract main content from the page"

  /** `response.ok`. */
  predicate IsOk(status: nat)
  {
    200 <= status <= 299
  }

  /** `HTTP ${response.status}: ${response.statusText}`. */
  function HttpErrorMessage(status: nat, statusText: string): string
  {
    "HTTP " + DecimalString(status) + ": " + statusText
  }

  function Scrape(fetch: FetchOutcome, render: RenderOutcome, env: Env): ScrapeReport
  {
    match fetch
    case FetchFailed(m) => ScrapeReport(Failure(m), false, false)
    case Response(status, statusText, body) =>
      if !IsOk(status) then ScrapeReport(Failure(HttpErrorMessage(status, statusText)), false, false)
      else
        match Extract(body, env)
        case Some(d) => ScrapeReport(Success(d), false, false)
        case None =>
          match render
          case ConnectFailed(m) => ScrapeReport(Failure(m), true, false)
          case PageFailed(m) => ScrapeReport(Failure(m), true, true)
          case Rendered(html, closeError) =>
            if closeError.Some? then ScrapeReport(Failure(closeError.value), true, true)
            else
              match Extract(html, env)
              case Some(d) => ScrapeReport(Success(d), true, false)
              case None => ScrapeReport(Failure(NoContentMessage), true, false)
  }

  method ScrapeNews(fetch: FetchOutcome, render: RenderOutcome, env: Env) returns (report: ScrapeReport)
    ensures report == Scrape(fetch, render, env)
  {
    if fetch.FetchFailed? {
      return ScrapeReport(Failure(fetch.message), false, false);
    }
    if !IsOk(fetch.status) {
      return ScrapeReport(Failure(HttpErrorMessage(fetch.status, fetch.statusText)), false, false);
    }
    var extracted := ExtractContent(fetch.body, env);
    var browserUsed := false;
    if extracted.None? {
      browserUsed := true;
      match render {
        case ConnectFailed(m) =>
          return ScrapeReport(Failure(m), true, false);
        case PageFailed(m) =>
          return ScrapeReport(Failure(m), true, true);
        case Rendered(html, closeError) =>
          extracted := ExtractContent(html, env);
          if closeError.Some? {
            return ScrapeReport(Failure(closeError.value), true, true);
          }
      }
    }
    if extracted.Some? {
      report := ScrapeReport(Success(extracted.value), browserUsed, false);
    } else {
      report := ScrapeReport(Failure(NoContentMessage), browserUsed, false);
    }
  }

  /** A result carries data exactly when it succeeded and an error exactly when it did
      not; data only ever comes from the fetched page or, failing that, the rendered one. */
  lemma ScrapeResultIsConsistent(fetch: FetchOutcome, render: RenderOutcome, env: Env)
    ensures var r := Scrape(fetch, render, env).result;
      (r.success <==> r.data.Some?) && (r.success <==> r.error.None?) &&
      (r.success ==> fetch.Response? && IsOk(fetch.status) &&
                     (r.data == Extract(fetch.body, env) ||
                      (Extract(fetch.body, env).None? && render.Rendered? && r.data == Extract(render.html, env))))
  {
  }

  /** The browser is used only when the fetched page was fine but yielded no content,
      and a session is left open only when the page work or the close failed. */
  lemma ScrapeBrowserUse(fetch: FetchOutcome, render: RenderOutcome, env: Env)
    ensures var s := Scrape(fetch, render, env);
      (s.browserUsed <==> fetch.Response? && IsOk(fetch.status) && Extract(fetch.body, env).None?) &&
      (s.sessionLeftOpen <==> s.browserUsed && (render.PageFailed? || (render.Rendered? && render.closeError.Some?)))
  {
  }

  /** A failed response is reported with its status code first, which reads back as the
      same number. */
  lemma HttpErrorNamesStatus(status: nat, statusText: string)
    ensures var m := HttpErrorMessage(status, statusText);
      StartsWith(m, "HTTP ") && ParseInt(m[5..]) == Int(status)
  {
    var m := HttpErrorMessage(status, statusText);
    assert m[5..] == DecimalString(status) + (": " + statusText);
    ParseIntOfDecimalThen(status, ": " + statusText);
  }
}
