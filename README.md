# News ingestion and notification core, in Dafny

This project models, and proves properties of, the news-ingestion path of a stock-market
news back end and the notification helpers of its job worker:

- **Article content extractor** (`NewsContentExtractor`, `scrapeNews`). From one HTML page
  to its main text, title and cover photo:
  - delete 23 kinds of noise element in place;
  - try four extraction methods in a fixed order (content selectors, text density,
    paragraph score, paragraph fallback);
  - accept the first text that passes the validity test (length, words, sentences);
  - clean its whitespace and count its words and characters;
  - pick a cover photo through a five-step cascade (og:image, twitter:image, JSON-LD,
    first article image, featured-image selectors), with an image filter and URL
    resolution;
  - `scrapeNews` fetches the page and, when the static page yields nothing, renders it
    in a remote browser and extracts again.
- **Feed normaliser** (`extractRSSFeed`). Maps feed items to normalised items:
  - "first truthy wins" for summary and date;
  - the item image is a three-step cascade that ends in a regular-expression capture;
  - each item is then merged, in order, with the result of scraping its page.
- **Notification helpers** (`aiService`):
  - the dispatch from a job type string to its handler;
  - the push sender, which posts tokens in batches of 100 with a one-second wait between
    batches;
  - the per-user de-duplication loops of the trial-user and free-user broadcasts;
  - the early-exit guards of the comment and reaction notifications;
  - the batched news update (markets in groups of 5, database writes awaited in groups
    of 10).

## Layout

| file | module | contents |
|---|---|---|
| `wrappers.dfy` | `Wrappers` | `Option`/`Result`; generic list helpers used by several loops: first hit of a cascade (`FirstSome`), fixed-size batching (`Chunks`), first-seen de-duplication (`Distinct`), with their lemmas |
| `js_string.dfy` | `JsString` | the JavaScript string built-ins the core relies on: `length` in UTF-16 code units, the `\s` whitespace set, `trim`, `split(/\s+/)` as `Words`, `split` on a character class and the sentence split, `toLowerCase` (ASCII letters, U+212A and U+0130), `includes`/`startsWith`, `parseInt(…, 10)` |
| `dom.dfy` | `Dom` | the parsed document as a tree of text and element nodes; the selector engine for the selector shapes the extractor uses (tag, class, id, attribute compounds, one descendant step), with `class` split on ASCII whitespace; `querySelector(All)`, `textContent`, and removal of matched subtrees |
| `json_ld.dfy` | `JsonLd` | parsed JSON values and `findImageInJsonLd` |
| `news_text.dfy` | `NewsText` | `isValidContent`, `cleanText`, `countWords` |
| `news_extractor.dfy` | `NewsExtractor` | the extractor; the parsed document is a `class Document` whose `nodes` the removal step rewrites; the extraction and cover-photo cascades are loops proved equal to specification functions |
| `rss_feed.dfy` | `RssFeed` | `extractImage`, normalisation, the merge loop |
| `ai_service.dfy` | `AiService` | the dispatch, the push sender, the de-duplication loops, the guards, `updateNews` |

The imperative code of the source stays imperative here. Each such loop is a `method`
whose `ensures` ties its result to a specification function. The properties the source
promises are then proved about that function as lemmas:

- `RemoveUnwantedElements` changes the document in place;
- the argmax loops are `ArgMax`;
- the paragraph accumulation is `FallbackExtraction`;
- the early-return cascades are `ExtractContent`, `ExtractArticleImage`,
  `ExtractFeaturedImage` and `ExtractCoverPhoto`;
- the batching loops are `SendPushNotificationsInBatches`, `AwaitInGroups` and
  `UpdateNewsJob`;
- the de-duplication loop is `CollectRecipients`;
- the merge loop is `ExtractRSSFeed`.

Pure code of the source (`resolveUrl`, `isValidContent`, `cleanText`,
`findImageInJsonLd`, `extractImage`, the normalisation map, the dispatch switch) is made
of functions and lemmas.

### What the model takes as parameters

| parameter | stands for |
|---|---|
| `Env.parseHtml`, `Env.parseJson` | JSDOM's parser and `JSON.parse`; `None` means the call threw |
| `Env.density`, `Env.logOf` | the floating-point text-density score and `Math.log` |
| `FetchOutcome`, `RenderOutcome` | the outcome of `fetch(url)` and of the browser session, for `scrapeNews` |
| `Network` (`fetch`, `render`) | these outcomes for the `k`-th item of a feed |
| `feed: Option<seq<CustomItem>>` | the value `parser.parseURL` returns (`None` when it throws) |
| `post: (nat, seq<string>) -> PostOutcome` | the push endpoint's answer to batch number `k` |
| `news: (nat, string) -> NewsFetch` | the news API's answer for market number `k` |
| `pushTokens`, users, comments, preferences | what the Prisma queries returned |

Timers are events in the result (`Wait`, `Delay`), and so are the posts (`Post`) and the
awaited database groups (`Awaited`).

### Behaviour of the code worth knowing

- **Title source.** The title is read from the document *after* the noise elements were
  removed, not from the original page (`src/lib/news-extractor.ts:85`, `:99`).
- **No JSON-LD cover photo.** `script` is one of the removed selectors (`:67`), and
  removal happens before the cover photo is looked for (`:100`). So the JSON-LD step
  never sees a script, and an extracted cover photo never has source `json-ld`. See
  `ExtractNeverUsesJsonLd`.
- **Blank-line rule of `cleanText`.** It runs after every whitespace run has become one
  space, so it never applies, and paragraph breaks are lost. See
  `BlankLineRuleIsInert` and `ParagraphBreakIsLost`.
- **Source labels.** They are the code's strings: `og:image`, `twitter:image`, `json-ld`,
  `article content`, `featured image`.
- **Merged image.** In a merged article it is `item.image || data.coverPhoto`: the whole
  cover-photo object, not its `url`. An empty-string image also falls through to it
  (`src/lib/rss-feed.ts:75`).
- **No item is skipped.** Feed items without title or link are kept and get empty
  strings (`src/lib/rss-feed.ts:62-68`).
- **Browser sessions can stay open.** A session is not closed when the page work throws
  or `close` itself fails (`src/lib/news-extractor.ts:551-583`). This is the
  `sessionLeftOpen` flag of `ScrapeReport`.
- **A post with no response stops the sender.** A post that fails without an HTTP
  response ends the push sender: the `catch` block reads `error.response.data`, which
  then throws. A post answered with an error status is logged, and the loop goes on
  (`src/job/aiService.ts:171-176`). See `SendingAbortsIff`.
- **The reaction record is created first.** The reaction handler creates its record
  before it looks at the preference, so a user with notifications disabled still gets
  the record, but no push (`src/job/aiService.ts:127-143`).

## Model

| member | source | states |
|---|---|---|
| Dom.PruneRemovesAll | src/lib/news-extractor.ts:394-398 | after `querySelectorAll(sel).forEach(el => el.remove())` no element of the tree matches `sel` |
| Dom.PruneKeepsFree | src/lib/news-extractor.ts:394-398 | a later removal never brings back what an earlier removal took out |
| Dom.PruneAllRemovesAll | src/lib/news-extractor.ts:394-398 | after removing the matches of every selector of the list in turn, none of the selectors matches anything |
| Dom.QueryAllOfFree | src/lib/news-extractor.ts:201-203 | in a tree free of `c`, a selector whose every match also matches `c` (as `script[type=…]` does `script`) finds nothing |
| Dom.ClassNames | src/lib/news-extractor.ts:34-47 | the class names a `.name` selector tests are non-empty and hold no ASCII whitespace |
| Dom.ClassNamesOfToken | src/lib/news-extractor.ts:34-47 | a non-empty text without ASCII whitespace is exactly one class name |
| Dom.NoBreakSpaceJoinsClasses | src/lib/news-extractor.ts:34-47 | a no-break space does not separate class names: two names joined by U+00A0 form one class |
| NewsExtractor.RemoveUnwantedElements | src/lib/news-extractor.ts:394-398 | the document's nodes become the old nodes with every match of the 23 selectors removed, and then no selector of the list matches anything |
| NewsText.ValidContentShape | src/lib/news-extractor.ts:501-515 | a text that passes the validity test has a `length` of at least 100 UTF-16 code units (so at least 50 characters), at least 20 non-empty, whitespace-free words and at least 3 sentence pieces, each non-blank and free of `.`, `!`, `?` |
| JsString.Words | src/lib/news-extractor.ts:527 | every word counted is non-empty and contains no whitespace character |
| JsString.Sentences | src/lib/news-extractor.ts:509-511 | every kept piece is non-blank after `trim` and holds no `.`, `!` or `?` |
| JsString.Split | src/lib/news-extractor.ts:509-510 | `split` on a character class gives at least one piece, and no piece holds a delimiter |
| JsString.SplitOfPiece | src/lib/news-extractor.ts:509-510 | a text without delimiters splits into itself alone |
| JsString.SplitOfJoin | src/lib/news-extractor.ts:509-510 | a delimiter-free piece followed by a maximal delimiter run splits off as one piece, before the pieces of the rest; the run is dropped |
| JsString.SplitConcat | src/lib/news-extractor.ts:509-510 | the pieces, concatenated in order, are the text with exactly its delimiter characters removed |
| JsString.SentencesOfPiece | src/lib/news-extractor.ts:509-511 | a text without sentence marks is one sentence, or none when it is blank |
| JsString.SentencesOfJoin | src/lib/news-extractor.ts:509-511 | a piece ended by a run of marks counts as one sentence when not blank, followed by the sentences of the rest, in order |
| JsString.Utf16Length | src/lib/news-extractor.ts:502 | `length` counts UTF-16 code units: at least the number of characters and at most twice it |
| JsString.Utf16LengthOfBmp | src/lib/news-extractor.ts:502 | for text inside the Basic Multilingual Plane `length` is the number of characters |
| JsString.Utf16LengthAppend | src/lib/news-extractor.ts:462-464 | the `length` of a concatenation is the sum of the lengths |
| JsString.Trim | src/lib/news-extractor.ts:522 | the result neither starts nor ends with whitespace |
| JsString.TrimIdempotent | src/lib/news-extractor.ts:522 | trimming twice is trimming once |
| JsString.TrimEmptyIffAllSpace | src/lib/news-extractor.ts:468-469 | `trim` gives the empty string exactly when the text is all whitespace |
| JsString.WordsOfTrim | src/lib/news-extractor.ts:522 | `trim` changes no word |
| NewsText.Collapse | src/lib/news-extractor.ts:520 | the result has only plain spaces as whitespace and never two in a row; it is empty exactly when the input is, and starts with a space exactly when the input starts with whitespace |
| NewsText.BlankLineRuleIsInert | src/lib/news-extractor.ts:520-521 | the `\n\s*\n` rule finds nothing to replace in collapsed text |
| NewsText.CleanTextShape | src/lib/news-extractor.ts:518-523 | the cleaned text has no leading or trailing whitespace, no two adjacent whitespace characters, no newline, and only plain spaces |
| NewsText.CleanTextIdempotent | src/lib/news-extractor.ts:518-523 | cleaning twice is cleaning once |
| NewsText.WordsOfCleanText | src/lib/news-extractor.ts:518-528 | cleaning keeps every word in order, so `countWords` of the cleaned text equals the word count of the raw text |
| NewsText.ParagraphBreakIsLost | src/lib/news-extractor.ts:520-521 | `"a\n\nb"` cleans to `"a b"` |
| NewsExtractor.BySelectorsIsFirstLongMatch | src/lib/news-extractor.ts:402-414 | the text returned is that of the first selector in list order whose first match has a text `length` (in UTF-16 code units) above 200; every earlier selector had no match or a shorter text; null when none qualifies |
| NewsExtractor.ExtractBySelectors | src/lib/news-extractor.ts:402-414 | the early-return loop over the 13 content selectors computes `BySelectors` |
| NewsExtractor.LeadIsFirstMaximum | src/lib/news-extractor.ts:419-428 | the loop's score is at least 0 and at least every candidate's score; its element is the first candidate of maximal score, and it has one only when that score is positive |
| NewsExtractor.LeadNoneIff | src/lib/news-extractor.ts:430 | no element is chosen exactly when no candidate scores above 0 |
| NewsExtractor.ArgMax | src/lib/news-extractor.ts:422-428 | the `forEach` loop with `score > highestScore` yields the element `Lead` describes |
| NewsExtractor.ExtractByTextDensity | src/lib/news-extractor.ts:417-431 | the text of the best `div, section, main` by density score, null when none scores above 0 |
| NewsExtractor.ExtractByParagraphScore | src/lib/news-extractor.ts:434-453 | the text of the best `div, section, main, article` by paragraph count times the log of its text `length` (UTF-16 code units) plus one |
| NewsExtractor.GetTextContentInStripped | src/lib/news-extractor.ts:487-498 | in a document already stripped of the noise elements, `getTextContent` of any element a query returns equals its `textContent`: the clone's removals find nothing |
| NewsExtractor.ShortParagraphsAddNothing | src/lib/news-extractor.ts:460-466 | with no trimmed paragraph of `length` above 50 (UTF-16 code units) nothing is accumulated |
| NewsExtractor.LongParagraphShows | src/lib/news-extractor.ts:460-466 | one paragraph of trimmed `length` above 50 (UTF-16 code units) puts a non-whitespace character into the accumulated text |
| NewsExtractor.FallbackNoneIff | src/lib/news-extractor.ts:456-470 | the fallback returns null exactly when no paragraph's trimmed text has a `length` above 50 UTF-16 code units |
| NewsExtractor.FallbackExtraction | src/lib/news-extractor.ts:456-470 | the accumulation loop and final trim compute `Fallback` |
| NewsExtractor.TitleIsFirstNonBlank | src/lib/news-extractor.ts:371-391 | if some title selector yields, the title is the non-empty trimmed text of the first one that does; otherwise it is the trimmed page `<title>` (possibly missing or blank) |
| NewsExtractor.ExtractTitle | src/lib/news-extractor.ts:371-391 | the early-return loop over the six title selectors computes `Title` |
| NewsExtractor.ResolveUrlSpec | src/lib/news-extractor.ts:352-370 | `//x` becomes `https://x`, every other string (absolute or relative) is returned unchanged, resolving is idempotent, and a resolved URL never starts with `//` |
| NewsExtractor.OgImageSpec | src/lib/news-extractor.ts:148-173 | the og:image step yields exactly when the `og:image` meta has non-empty content; the address is that content resolved (`//x` gives `https://x`) and never protocol-relative; a present alt is non-empty; width and height are present exactly when their metas have non-empty content, and are then that content parsed |
| NewsExtractor.TwitterImageSpec | src/lib/news-extractor.ts:176-197 | the twitter:image step yields exactly when the first `twitter:image` meta, by `name` or `property`, has non-empty content; the address is that content resolved and never protocol-relative; a present alt is non-empty; no width or height is ever set |
| JsonLd.Get | src/lib/news-extractor.ts:229 | a member lookup finds a value exactly when the object has that key, and the value is that of a member with the key |
| JsonLd.DirectRules | src/lib/news-extractor.ts:228-240 | a non-empty string `image` is returned directly; for a non-empty array the first element, its truthy `url`, null, or the TypeError of a null element, with no further search; an object with a truthy `url` gives the `url` |
| JsonLd.SearchFieldsIsEarliest | src/lib/news-extractor.ts:242-250 | the key search finds something exactly when some member's value does, and then returns the result of the first such member in key order; otherwise null |
| JsonLd.FoundIsWithin | src/lib/news-extractor.ts:225-251 | whatever the search returns is a value taken from inside the data |
| JsonLd.NoImageNoResult | src/lib/news-extractor.ts:225-251 | data with no `image` member anywhere (including non-objects) yields nothing |
| NewsExtractor.JsonLdPhoto | src/lib/news-extractor.ts:205-218 | a photo found in one script is labelled `json-ld` |
| NewsExtractor.ExtractJsonLdImage | src/lib/news-extractor.ts:200-222 | the loop over JSON-LD scripts, skipping parse and search errors, computes `JsonLdImage` |
| NewsExtractor.NoJsonLdWithoutScripts | src/lib/news-extractor.ts:200-222 | in a document without `script` elements the JSON-LD step finds nothing |
| NewsExtractor.IsValidImageRejects | src/lib/news-extractor.ts:301-333 | an image is rejected when it is not `img`, has no `src`/`data-src`, has both dimensions positive and one below 100, or its lowercased address contains any of the 11 tokens; an accepted image has an address and, when both dimensions are positive, both are at least 100 |
| NewsExtractor.MissingHeightIsNotTooSmall | src/lib/news-extractor.ts:309-314 | without a height the size rule never applies, whatever the width |
| NewsExtractor.UploadsPathIsExcluded | src/lib/news-extractor.ts:317-332 | the `ad` token rejects every address that contains `uploads`, whatever comes before or after it |
| NewsExtractor.KelvinSignIsFolded | src/lib/news-extractor.ts:317-332 | `toLowerCase` turns U+212A KELVIN SIGN into `k`, so every address containing `trac\u212Aer` is rejected by the `tracker` token |
| JsString.ToLower | src/lib/news-extractor.ts:317 | the lowered text is at least as long as the input and holds no ASCII capital, U+212A or U+0130 |
| JsString.ToLowerIdempotent | src/lib/news-extractor.ts:317 | lowering twice is lowering once |
| NewsExtractor.CreateCoverPhoto | src/lib/news-extractor.ts:336-349 | a width or height is present only as a non-zero parsed integer |
| NewsExtractor.ArticlePhoto | src/lib/news-extractor.ts:264-270 | a photo from a content container is labelled `article content` |
| NewsExtractor.ExtractArticleImage | src/lib/news-extractor.ts:254-274 | the early-return loop over the five containers computes `ArticleImage` |
| NewsExtractor.FeaturedPhoto | src/lib/news-extractor.ts:291-294 | a photo from a featured-image selector is labelled `featured image` |
| NewsExtractor.ExtractFeaturedImage | src/lib/news-extractor.ts:277-298 | the early-return loop over the nine featured selectors computes `FeaturedImage` |
| NewsExtractor.StepSources | src/lib/news-extractor.ts:148-298 | each cascade step labels its photo with its own source string |
| NewsExtractor.CoverPhotoIsEarliestStep | src/lib/news-extractor.ts:120-145 | there is a photo exactly when some step yields one; it is the og:image one when that exists, and a photo labelled by a later step implies every earlier step yielded nothing and the photo is that step's |
| NewsExtractor.ExtractCoverPhoto | src/lib/news-extractor.ts:120-145 | the early-return cascade computes `CoverPhotoOf` |
| NewsExtractor.StrippedCoverNeverJsonLd | src/lib/news-extractor.ts:85-100 | in a document stripped of the noise elements the cover photo never comes from JSON-LD |
| NewsExtractor.RunStrategy | src/lib/news-extractor.ts:88-93 | each of the four methods computes its specification |
| NewsExtractor.BuildContent | src/lib/news-extractor.ts:98-108 | the success value is the cleaned text, its word and character counts, the title and the cover photo of the stripped document |
| NewsExtractor.ExtractContent | src/lib/news-extractor.ts:79-117 | parse, strip in place, and return the first accepted method's result, as `Extract` defines |
| NewsExtractor.FirstValidStrategy | src/lib/news-extractor.ts:95-112 | some method is accepted exactly when the cascade yields, and then the raw text is that of the first non-null valid method, every earlier one having failed |
| NewsExtractor.ExtractIsFirstValid | src/lib/news-extractor.ts:79-117 | extraction succeeds exactly when the page parses and some method's text is non-null and valid, and its content is the cleaned text of the first such method; null when parsing throws or none qualifies |
| NewsExtractor.ExtractCounts | src/lib/news-extractor.ts:98-108 | on success `characterCount` is the content's `length` in UTF-16 code units (at least its number of characters), `wordCount` is `countWords(content)` and at least 20, and the content is non-empty and already clean |
| NewsExtractor.ExtractNeverUsesJsonLd | src/lib/news-extractor.ts:79-117 | an extracted cover photo never has source `json-ld` |
| NewsExtractor.ScrapeNews | src/lib/news-extractor.ts:532-628 | the branch structure (fetch error, non-ok status, static extraction, browser rendering, no content) computes `Scrape` |
| NewsExtractor.ScrapeResultIsConsistent | src/lib/news-extractor.ts:532-628 | a result has data exactly when it succeeded and an error exactly when it failed; success needs an ok response, and the data is the static page's extraction or, when that failed, the rendered page's |
| NewsExtractor.ScrapeBrowserUse | src/lib/news-extractor.ts:549-584 | the browser is used exactly when the ok static page gave no content; a session stays open exactly when the page work or the close failed |
| NewsExtractor.HttpErrorNamesStatus | src/lib/news-extractor.ts:536-541 | the error of a failed response starts with `HTTP ` followed by the status, which parses back to the same number |
| Wrappers.FirstSomeIsEarliest | src/lib/news-extractor.ts:95-110 | an early-return cascade returns the first step's result that is present, after only absent ones, or nothing when all are absent |
| RssFeed.FirstTruthyIsEarliest | src/lib/rss-feed.ts:65-66 | the first-truthy chain of the summary and the date is non-empty exactly when some value is truthy, and then is the first truthy value |
| RssFeed.CaptureAt | src/lib/rss-feed.ts:53 | a capture read at a position is non-empty, free of `"` and `>`, and sits between `src="` and a closing `"` at that position |
| RssFeed.LastCapture | src/lib/rss-feed.ts:53 | the backtracking of `[^>]+` from the right takes a capture starting at some position in the allowed range |
| RssFeed.ImgAt | src/lib/rss-feed.ts:53 | a match attempt succeeds only at an `<img` and yields a well-shaped capture |
| RssFeed.MatchFrom | src/lib/rss-feed.ts:53 | the leftmost match from a position yields a well-shaped capture |
| RssFeed.ImgMatchShape | src/lib/rss-feed.ts:53 | a captured image address is non-empty, contains no `"` or `>`, and occurs in the description right after `src="` and before a `"` |
| RssFeed.MatchPosition | src/lib/rss-feed.ts:53 | the leftmost match is the match attempt at one definite position of the description |
| RssFeed.NoImgTagNoMatch | src/lib/rss-feed.ts:53 | without `<img` in the description there is no match |
| RssFeed.ExtractImage | src/lib/rss-feed.ts:43-57 | an image found is never the empty string |
| RssFeed.ExtractImageCascade | src/lib/rss-feed.ts:43-57 | the first media entry with a truthy url wins; else an enclosure url of an `image…` type; else the description's regex capture; else null |
| RssFeed.NormalizeRules | src/lib/rss-feed.ts:62-68 | title and url default to `""`; summary is the first truthy of contentSnippet, content, description, else `""`; publishedAt prefers isoDate over pubDate, else `""`; the image is `extractImage` |
| RssFeed.NormalizeAll | src/lib/rss-feed.ts:62-68 | one normalised item per feed item, in order; none is dropped |
| RssFeed.MergeItem | src/lib/rss-feed.ts:72-83 | one step of the loop computes `Merge` |
| RssFeed.MergeRules | src/lib/rss-feed.ts:72-83 | the text fields are never touched; after a successful scrape the content is the scraped content and the image is the item's truthy image or else the cover photo; after a failure the content is `""` and the image stays the item's |
| RssFeed.ReadFeedKeepsItems | src/lib/rss-feed.ts:59-90 | an unreadable feed gives `[]`; otherwise one article per item in feed order, carrying that item's normalised fields and the content of its own scrape |
| RssFeed.ExtractRSSFeed | src/lib/rss-feed.ts:59-90 | the sequential scrape-and-push loop computes `ReadFeed` |
| AiService.AddToAIQueue | src/job/aiService.ts:4-23 | an accepted string is the type string of the handler returned; a rejected one is the type string of no handler and gives "Invalid operation type" |
| AiService.DispatchRoundTrip | src/job/aiService.ts:4-23 | every handler is dispatched from its own string, and no two handlers share one |
| AiService.DispatchAcceptsExactly | src/job/aiService.ts:4-23 | exactly the seven listed strings are accepted |
| Wrappers.ChunksConcat | src/job/aiService.ts:156-157 | the batches `slice(i, i + size)` for `i = 0, size, …` concatenate back to the list |
| Wrappers.ChunksBounded | src/job/aiService.ts:156-157 | every batch holds between 1 and `size` elements |
| Wrappers.ChunksCount | src/job/aiService.ts:156-157 | there are ceil(n / size) batches |
| AiService.SendingBounded | src/job/aiService.ts:155-157 | every posted batch has between 1 and 100 tokens |
| AiService.SendingCoversTokens | src/job/aiService.ts:155-157 | unless a post gets no response, the posted batches concatenate to the tokens in order and there are ceil(n / 100) of them |
| AiService.NoResponseAborts | src/job/aiService.ts:171-175 | a batch that gets no response stops the sender |
| AiService.DeliverPostsAll | src/job/aiService.ts:156-182 | rejected batches do not stop the loop: without a missing response every batch is posted, in order |
| AiService.DeliverStopsAt | src/job/aiService.ts:156-182 | an aborted run stopped at the first batch without a response, having posted exactly the batches up to it |
| AiService.SendingAbortsIff | src/job/aiService.ts:159-176 | the sender stops early exactly when some batch gets no response |
| AiService.DeliverAlternates | src/job/aiService.ts:178-181 | posts and waits alternate, starting with a post; there are events exactly when there are batches |
| AiService.SendingWaitsBetween | src/job/aiService.ts:178-181 | an empty token list sends nothing; the wait only separates two batches and never follows the last one |
| AiService.SendPushNotificationsInBatches | src/job/aiService.ts:149-184 | the `i += 100` loop with its posts and waits computes `Sending` |
| AiService.UserIds | src/job/aiService.ts:258 | the user ids of the tokens, in order |
| AiService.TokensOf | src/job/aiService.ts:270 | the token strings, in order |
| AiService.RecordsFor | src/job/aiService.ts:261-267 | one push record per id, in order, addressed to that id |
| Wrappers.DistinctSpec | src/job/aiService.ts:257-271 | the `ids.includes` loop keeps no duplicate, keeps exactly the values that occur, in the order of their first occurrence |
| AiService.CollectRecipients | src/job/aiService.ts:253-271 | the loop's `ids` are the distinct user ids in first-seen order, `tokens` all tokens in order, and the records one per id |
| AiService.OneRecordPerUser | src/job/aiService.ts:253-271 | the ids have no duplicates, contain exactly the users that occur, in first-seen order, and the records are one per id with that user id (the same loop is at 315-333) |
| AiService.NotifyPlanUsers | src/job/aiService.ts:253-278 | records are created only when `saveNotification` is set, while the push goes to every token regardless (the same code is at 315-340) |
| AiService.GuardsStopEarly | src/job/aiService.ts:43-49 | the comment and reaction handlers (the latter at 112-118) create and send nothing exactly when the target user is missing or is the author; otherwise the comment handler creates one record for the target user and pushes to its tokens |
| AiService.ReactionPushUnlessDisabled | src/job/aiService.ts:127-143 | past the guards the reaction record is always created, and the push is skipped exactly when `enableFullNotifications` is explicitly false |
| AiService.MarketsInGroupsOfFive | src/job/aiService.ts:397-400 | the markets are taken in consecutive groups of 1 to 5, none lost or reordered |
| AiService.UpsertsOf | src/job/aiService.ts:420-443 | one upsert per news item, in order |
| AiService.QueueItems | src/job/aiService.ts:420-443 | the push loop appends the item upserts to the queued ones |
| AiService.SkipsMissingData | src/job/aiService.ts:415-443 | a symbol without `data` queues nothing; a symbol's items are queued in order, each with the symbol and the item's id |
| AiService.FailurePersists | src/job/aiService.ts:406-409 | once a news request fails, the whole batch fails |
| AiService.FetchBatchNews | src/job/aiService.ts:404-444 | the per-market loop computes `BatchUpserts` |
| AiService.AwaitedInGroupsOfTen | src/job/aiService.ts:447-462 | the queued upserts are awaited in consecutive groups of 1 to 10, all of them in order, each group followed by the pause |
| AiService.AwaitInGroups | src/job/aiService.ts:447-462 | the `j += 10` loop computes the awaited groups and pauses |
| AiService.UpdateNewsJob | src/job/aiService.ts:384-473 | the nested batch loops compute `Updating` |

## Left out

- Network and rendering are abstract outcomes (`FetchOutcome`, `RenderOutcome`): `fetch`, the
  connection to the remote browser, its user agent, headers, viewport, navigation timeout,
  and `response.text()`.
- The HTML parser, `JSON.parse` and `parser.parseURL` are not modelled: their results are
  inputs or parameters. The selector engine is modelled (module `Dom`) only for the
  selector shapes the core uses, which are written out as selector values; other CSS
  selector syntax is left out.
- The text-density score and `Math.log` are floating point; they are parameters (`Env.density`,
  `Env.logOf`) of type `real`. The argmax loops around them are modelled.
- `img.src` (the URL the DOM resolves) is approximated by the `src` attribute.
- JSON objects are member lists in the order `JSON.parse` gives them; duplicate keys are not
  modelled. Inherited properties are not either: a parsed object has none of its own
  beyond its members. The one `hasOwnProperty` effect that JSON data can cause, a member
  named `hasOwnProperty` shadowing the method so that the call throws, is modelled.
- All `console` logging is left out, as are the thrown error's message rewrapping in
  `catch (error) { throw new Error(error.message) }` and the "Unknown error" case of
  non-`Error` exceptions; a failure is a flag or a `Failure` message.
- Prisma queries are inputs; `createMany`'s `skipDuplicates` and the database's own
  behaviour are not modelled: `created` is the data handed to the database.
- `setTimeout` waits are `Wait`/`Delay` events; their durations are not modelled.
- `sendPushNoti` and `sendPushNotiAnalysis` are only dispatched to; their handler bodies
  (a query and one call of the push sender) are not modelled.
- `new Date(item.post_date)` is not modelled: the upsert keeps the raw `post_date`.
- The BullMQ queue and worker, Redis, the cron jobs, the agents, the controllers and the
  routes are outside this model.
- NewsText.ValidContentShape: states the direction "valid implies the shape"; the
  converse is the definition of `IsValidContent` itself.
- Strings are sequences of Unicode scalar values, so text holding a lone UTF-16 surrogate
  cannot be represented; `length` counts a character above U+FFFF as two code units.
- IsValidImageRejects: `toLowerCase` is modelled for the characters whose lower case holds
  an ASCII letter (`A`-`Z`, U+212A, U+0130). Every other character is kept as it is,
  although JavaScript lowers many of them. No such character lowers to ASCII, and the
  exclusion tokens are all ASCII. So whether a token occurs in the address is the same
  either way.
- RssFeed.ExtractImage: its own contract only says a found image is non-empty; the
  cascade order is stated by `ExtractImageCascade`.
