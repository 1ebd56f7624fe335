# wikihow2zim core, modelled in Dafny

This project models the core of `wikihow2zim`, the scraper that turns wikiHow
pages into a ZIM archive. It covers five parts:

- **Identity, URL and CSS helpers** (`utils.py`):
  - the Adler-32 digest used as every media file's dedup key;
  - the URL helpers;
  - the line-by-line `url(...)` rewriter of stylesheets.
- **Image and video registries** (`imager.py`, `videos.py`):
  - two small stateful classes that hand out an archive path at once and
    schedule exactly one job per digest;
  - the decision tree each job runs against the S3 cache.
- **HTML rewriting** (`rewriter.py`):
  - link relativisation and external-link marking;
  - removal of links to excluded articles and categories;
  - stripping of `<picture>` sources;
  - deferral of `<img>` sources to the image registry, in the order the page
    rewrite applies them.
- **Option validation** (`scraper.py`): the all-or-nothing check of the required
  options in the scraper's set-up.

Modules:

| module | file | models |
|---|---|---|
| `Wrappers` | `wrappers.dfy` | Option and Result |
| `PyStr` | `pystr.dfy` | the Python string operations the code calls: `index`, `strip`, slicing with clamped bounds, `split`, `join` |
| `Utf8`, `Decimal`, `Adler32`, `Digest` | `digest.dfy` | the pieces of `get_digest` |
| `Urls` | `urls.dfy` | the `utils.py` URL helpers, `first`, `rebuild_uri` and the version-header choice |
| `Css` | `css.dfy` | `parse_css`: a loop method specified by a function over the beautified lines |
| `Media` | `media.dfy` | what images and videos share: `pathlib` names, S3 keys, the ZIM creator's item list, and the registry ledger (`handled`, `nb_requested`, submitted jobs) |
| `Images`, `Videos` | `images.dfy`, `videos.dfy` | the `Imager` and `VideoGrabber` classes with their pure derivations and job decision trees |
| `Html` | `html.dfy` | the BeautifulSoup tree: a node sequence with parent indexes and the decomposed and blanked sets, and the `Soup` object edited in place |
| `Rewriting` | `rewriter.dfy` | the `Rewriter` class |
| `Scraper` | `scraper.dfy` | the `wikihow2zim` class's `__init__` |

These libraries are parameters, not models:

- `urllib.parse` (`urlparse`, `urlunparse`, `unquote`, `geturl`, the port,
  username, password and hostname accessors) is the `Urls.UrlLib` record of
  functions.
- `get_fld` and `normalize_youtube_url` are the `Videos.VideoLib` record. Each
  may raise, which is the value `None`.
- `cssbeautifier.beautify` and `soup.select` are function parameters.
- A parsed page is a given `Html.Tree`. Failure to build the soup is the
  input `None`.

Network, S3, image conversion, `youtube_dl` and `ffmpeg` are modelled only by
their outcomes. For images these are an `ImageEnv`: the fetched bytes or a
failure, the HEAD and GET headers, and the cache outcome `Hit`, `NotFound` or
`Failed`. For videos they are a `VideoEnv` plus a `VideoFetch`: whether the
download worked, the directory listing, and whether the re-encode works.

Where the code and its documentation differ, the model follows the code:

- `rewrite_images` deletes `onload` only when it is truthy. An empty `onload=""`
  stays (`rewriter.py:209-210`).
- The `if not soup` test in `rewrite` cannot fire: a BeautifulSoup object is
  always truthy. The model has no such path.
- `rewrite` calls `getattr(soup, "body").unwrap()`, and this raises
  `AttributeError` when the page has no `<body>`. The model returns
  `Failed(AttributeError)`.
- `rewrite_relative_link` returns `None` on success and `True` only when parsing
  raises. The parse-failure case is the one that marks the link external.
- `remove_link_for_exclusion` reaches `link.parent` and
  `link.parent.previous_sibling`. Either can be `None`, which raises. A link
  whose parent was already decomposed raises `TypeError` when its attributes
  are read. All three are modelled as `Raised` outcomes.
- `rewrite_pictures` decomposes children while iterating `picture.contents`. So
  the child right after each removed one is skipped (`Rewriting.Swept`).
- `parse_css` tests `line[start + 1]` for a quote, one place past the first
  character of the URL (`Css.QuotesKept`). In the quoted branch the URL then
  loses its last character and keeps its opening quote (`Css.RewriteLineQuoted`).
- `parse_css` takes the end of the URL from the first `)` on the line, even
  one before the `url(`. The URL is then empty, it is still recorded, and the
  text from that `)` on is written twice (`Css.RewriteLineCloseFirst`,
  `Css.CloseFirstRendered`).
- `parse_css` reads `line[start + 1]` without checking the line's length, so a
  line with at most one character after its first `url(`, such as
  `url()`, raises `IndexError` (`Css.UrlAtEndRaises`).

## Model

| member | source | states |
|---|---|---|
| Utf8.Encode | wikihow2zim/utils.py:61 | UTF-8 encoding never shortens a string and is empty exactly for the empty string |
| Utf8.EncodeAscii | wikihow2zim/utils.py:61 | an ASCII string encodes to one byte per character, each equal to the code point |
| Decimal.Show | wikihow2zim/utils.py:61 | `str(n)` is a non-empty string of digits with no leading zero, and has one digit exactly when n < 10 |
| Decimal.ParseShow | wikihow2zim/utils.py:61 | reading back the decimal rendering gives the number |
| Decimal.ShowInjective | wikihow2zim/utils.py:61 | distinct numbers have distinct renderings |
| Adler32.Run | wikihow2zim/utils.py:61 | both running sums of Adler-32 stay below 65521, as section 8.2 of RFC 1950 requires |
| Adler32.RunClosedForm | wikihow2zim/utils.py:61 | the loop computes A = 1 + the sum of the bytes and B = the sum of the successive A values, both mod 65521 (section 8.2 of RFC 1950) |
| Adler32.ChecksumHalves | wikihow2zim/utils.py:61 | the checksum fits in 32 bits, with B in the high half and A in the low half |
| Adler32.ChecksumEmpty | wikihow2zim/utils.py:61 | the checksum of no bytes is 1 |
| Adler32.ChecksumCollision | wikihow2zim/utils.py:61 | "aca" and "bab" have the same checksum |
| Digest.GetDigest | wikihow2zim/utils.py:59-61 | the digest is a non-empty string of decimal digits |
| Digest.DigestValue | wikihow2zim/utils.py:59-61 | the digest reads back as the Adler-32 of the string's UTF-8 bytes and is below 2^32 |
| Digest.DigestEqualIff | wikihow2zim/utils.py:59-61 | two strings share a digest exactly when their UTF-8 bytes share an Adler-32 |
| Digest.DigestEmpty | wikihow2zim/utils.py:59-61 | the digest of "" is "1" |
| Digest.DigestCollision | wikihow2zim/utils.py:59-61 | two different URLs can share a digest, so the registries can merge them |
| Urls.ToUrl | wikihow2zim/utils.py:20-27 | a value starting with "http" is returned unchanged; anything else gets the site URL prefixed |
| Urls.ToUrlIdempotent | wikihow2zim/utils.py:20-27 | when the site URL starts with "http", resolving twice equals resolving once |
| Urls.ToRel | wikihow2zim/utils.py:30-35 | the path is returned exactly when the netloc is the configured domain; None otherwise; an error exactly when parsing raises |
| Urls.CatIdentFor | wikihow2zim/utils.py:64-66 | fails exactly when the href holds no ":" |
| Urls.CatIdentForFirstColon | wikihow2zim/utils.py:64-66 | the identifier is the decoded text after the first colon, later colons kept |
| Urls.ArticleIdentFor | wikihow2zim/utils.py:74-76 | defined exactly for on-domain links, and then it is the decoded path without its first character |
| Urls.First | wikihow2zim/utils.py:124-126 | the first present argument, or the fallback when none is present |
| Urls.First2 | wikihow2zim/utils.py:124-126 | the two-argument case spelled out |
| Urls.First3 | wikihow2zim/utils.py:124-126 | the three-argument case spelled out |
| Urls.Netloc | wikihow2zim/utils.py:148-152 | the netloc starts with the user name; with no credentials and a falsy port it is the hostname and the port's text |
| Urls.NetlocIsHostname | wikihow2zim/utils.py:148-152 | no credentials and no port give the bare hostname |
| Urls.NetlocPortZero | wikihow2zim/utils.py:148-152 | port 0 is falsy, so it drops the ":" but still writes the "0" |
| Urls.RebuildParts | wikihow2zim/utils.py:143-164 | fails exactly when the port accessor raises; every other part is the override when given, else the original |
| Urls.RebuildNetlocPlain | wikihow2zim/utils.py:144-152 | without credentials, port or overrides the rebuilt netloc is the hostname |
| Urls.RebuildUri | wikihow2zim/utils.py:129-174 | with failsafe it never fails and an error gives back the input uri; without failsafe an error is re-raised; otherwise the re-parsed rebuild |
| Urls.ChooseVersionHeader | wikihow2zim/utils.py:195-199 | the first non-empty of ETag, Last-Modified and Content-Length, else "-1" |
| Urls.VersionIdentFor | wikihow2zim/utils.py:177-199 | None exactly when both the HEAD and the one-block GET fail; the GET headers are used only when HEAD fails |
| PyStr.Find | wikihow2zim/utils.py:102-103 | `str.index`: the first position where the pattern occurs, or none when it never does |
| PyStr.Strip | wikihow2zim/rewriter.py:96 | `str.strip()`: no whitespace at either end, empty exactly for all-whitespace input, and a substring of the input |
| PyStr.Slice | wikihow2zim/utils.py:110 | Python slicing: the plain slice when the bounds are in range, never longer than the string |
| PyStr.Split | wikihow2zim/utils.py:97 | `str.split(sep)` gives at least one part, and no part holds the separator |
| PyStr.JoinSplit | wikihow2zim/utils.py:97 | joining the parts of a split with the separator gives back the string |
| Css.AssetPath | wikihow2zim/utils.py:116 | a resource path is "assets/" followed by a non-empty digest, with no newline |
| Css.RewriteLine | wikihow2zim/utils.py:98-119 | a line without "url(" is copied, one with "url(" and no ")" raises, and a found URL never starts with "data:" |
| Css.RewriteLineKeeps | wikihow2zim/utils.py:102-119 | a rewritten line keeps the text before the URL and the text after it: the head is a prefix of the line and the tail a suffix |
| Css.RewriteLineJoins | wikihow2zim/utils.py:102-119 | when head and tail do not overlap the line is exactly head, URL and tail; when they do (a `)` before the `url(`) the URL is empty |
| PyStr.SliceJoin | wikihow2zim/utils.py:110-119 | `s[:i]`, `s[i:j]` and `s[j:]` put back together give `s` when the cuts are in order; when they cross the middle is empty |
| Css.RewriteCssLine | wikihow2zim/utils.py:98-119 | the loop body's outcome for a line is the one RewriteLine defines |
| Css.ParseCss | wikihow2zim/utils.py:79-121 | raises exactly when some beautified line raises; otherwise the output text and resource list are those of the line-by-line definition |
| Css.CssStep | wikihow2zim/utils.py:92-119 | each line adds its rendering and one "\n" to the output, adds its resources, and raises exactly when its own outcome does |
| Css.CssAppend | wikihow2zim/utils.py:89-121 | the output and the resources of concatenated inputs are the concatenations |
| Css.CssTextLines | wikihow2zim/utils.py:92-97 | splitting the output on "\n" gives one rendered line per input line, in order, then an empty tail |
| Css.ParsedLines | wikihow2zim/utils.py:97 | the same holds for the lines of any beautified text |
| Css.CssResources | wikihow2zim/utils.py:112-117 | the reference list of resources: every one is `(url, "assets/" + digest(url))` and no resource URL starts with "data:" |
| Css.CssText | wikihow2zim/utils.py:88-94 | the reference output text: empty exactly when there are no lines, and otherwise ending with the last line's "\n" |
| Css.CssWithoutUrls | wikihow2zim/utils.py:97-100 | a stylesheet with no "url(" is copied line by line and yields no resources |
| Css.RewriteLinePlain | wikihow2zim/utils.py:102-114 | an unquoted `url(u)` is found with its exact head, URL and tail, and a "data:" URL is copied |
| Css.LineTextPlain | wikihow2zim/utils.py:102-119 | an unquoted `url(u)` line becomes `url(../assets/<digest>)` and records exactly one resource for u |
| Css.QuotesKept | wikihow2zim/utils.py:106-110 | `url('a.png')` keeps its quotes in the URL, because the test looks one character past the quote |
| Css.RewriteLineQuoted | wikihow2zim/utils.py:102-114 | with a quote one character past the start, the URL starts at that quote and ends one character before the `)`, which goes to the tail |
| Css.QuoteTrimmed | wikihow2zim/utils.py:106-110 | `url( 'a')` yields the URL `'a`, with the closing quote left in the tail |
| Css.UrlAtEndRaises | wikihow2zim/utils.py:102-106 | with at most one character after the first `url(`, the quote test indexes past the end and the line raises, even when it holds a `)` |
| Css.EmptyUrlRaises | wikihow2zim/utils.py:102-106 | the line `url()` raises at the quote test |
| Css.RewriteLineCloseFirst | wikihow2zim/utils.py:102-114 | a `)` before the first `url(` gives an empty URL, with the head running to the `url(` and the tail starting back at that `)` |
| Css.CloseFirstRendered | wikihow2zim/utils.py:112-119 | such a line records one resource for the empty URL and writes the line from that `)` on again after the asset path |
| Media.PathName | wikihow2zim/imager.py:65 | a path's name holds no "/" and is never "." |
| Media.PathNameInDir | wikihow2zim/imager.py:65 | the name of `dir/name` is `name` |
| Media.Suffix | wikihow2zim/imager.py:65 | `PurePath.suffix`: ends the name, and is empty or a dot followed by a dot-free part |
| Media.Stem | wikihow2zim/imager.py:65 | `PurePath.stem`: followed by the suffix it gives back the name, and it is not empty when there is a suffix |
| Media.SplitName | wikihow2zim/videos.py:116-121 | `stem.ext` splits back into that stem and ".ext" |
| Media.S3Key | wikihow2zim/imager.py:58-60 | a leading "http://" or "https://" becomes "http/" or "https/"; any other URL is unchanged |
| Media.S3KeyIdempotent | wikihow2zim/imager.py:58-60 | deriving a key from a key changes nothing |
| Media.S3KeyInjective | wikihow2zim/imager.py:58-60 | distinct http(s) URLs have distinct keys |
| Media.S3KeyCollision | wikihow2zim/videos.py:132-134 | "http://x" and "http/x" share a key |
| Media.MediaPathShape | wikihow2zim/imager.py:65 | a media path starts with its directory, ends with its suffix and gives back its digest |
| Media.Filter | wikihow2zim/videos.py:97-101 | a list comprehension keeps exactly the elements that pass, and no others |
| Media.FilterFirst | wikihow2zim/videos.py:97-111 | the filtered list is non-empty exactly when some element passes, and its head is the first such element |
| Media.FilterHead | wikihow2zim/videos.py:97-111 | gives the index of the filtered list's head in the input, with no earlier element passing |
| Media.Creator.AddItemFor | wikihow2zim/imager.py:121-126 | `add_item_for` appends exactly one item |
| Media.Submit | wikihow2zim/imager.py:89-103 | after submitting, the digest is handled |
| Media.SubmitValid | wikihow2zim/imager.py:89-103 | submitting a job under its own digest keeps the ledger valid: one job per handled digest, and `nb_requested` is the number of handled digests |
| Media.SubmitIdempotent | wikihow2zim/imager.py:89-91 | a second submission of a digest changes nothing, whatever its job |
| Media.SubmitGrows | wikihow2zim/imager.py:93-103 | a new digest appends exactly one job; a handled one appends none; earlier jobs are kept |
| Media.HandledAreJobKeys | wikihow2zim/imager.py:94-103 | in a valid ledger, the handled set is exactly the set of the jobs' digests |
| Media.DistinctKeysCount | wikihow2zim/imager.py:94-95 | jobs with pairwise distinct digests have as many digests as jobs |
| Images.ImageSuffix | wikihow2zim/imager.py:63 | ".svg" exactly when the URL path ends with ".svg", else ".webp" |
| Images.Mimetype | wikihow2zim/imager.py:101 | image/svg+xml exactly when the path ends with ".svg", else image/webp |
| Images.GetPathFor | wikihow2zim/imager.py:62-65 | the default path is under "images/" and ends with ".svg" for an SVG URL path, ".webp" otherwise |
| Images.GetPathForShape | wikihow2zim/imager.py:62-65 | the URL's digest can be read back from the default path, and that path has the SVG mimetype exactly for SVG URLs |
| Images.GetPathForDistinct | wikihow2zim/imager.py:62-65 | URLs with distinct digests get distinct default paths |
| Images.DeferTarget | wikihow2zim/imager.py:75-83 | a target exactly when the resolved URL parses with an http or https scheme |
| Images.JobFor | wikihow2zim/imager.py:86-103 | the job carries the URL's digest, the caller's path or else the default one, and the mimetype its path calls for |
| Images.DeferPath | wikihow2zim/imager.py:67-105 | `defer` returns None exactly when there is no target, and returns the caller's path whenever one is given |
| Images.DeferRejected | wikihow2zim/imager.py:75-83 | an unparsable or non-http(s) URL gets no path and leaves everything unchanged |
| Images.DeferAccepted | wikihow2zim/imager.py:75-103 | an accepted URL gets its job's path, and the bookkeeping becomes the submission of that job under the URL's digest |
| Images.DeferLedger | wikihow2zim/imager.py:86-103 | `defer` never forgets a digest; it either leaves the bookkeeping unchanged or adds one digest, appends one job and counts one more request |
| Images.DeferRepeat | wikihow2zim/imager.py:86-91 | an already-handled digest gets a path, and no job or count is added |
| Images.DeferFirst | wikihow2zim/imager.py:93-105 | a new digest is recorded, `nb_requested` grows by one, and exactly one job is appended, for that URL and the returned path |
| Images.DeferValid | wikihow2zim/imager.py:89-103 | `defer` keeps one job per digest and `nb_requested` equal to the number of handled digests |
| Images.DeferCollision | wikihow2zim/imager.py:86-91 | a second URL with a colliding digest gets a path but no job |
| Images.DeferTwice | wikihow2zim/imager.py:86-91 | deferring one URL twice, with any paths, schedules it once |
| Images.ImageEffects | wikihow2zim/imager.py:112-185 | aborted does nothing; without S3 one item exactly when the fetch works, else the error escapes, and the cache is unused; with S3, no ident gives nothing, a hit gives the cached bytes with no fetch, a miss gives an item exactly when the fetch works, and an upload happens only after NotFound and a good fetch, of the item's bytes under the URL's key |
| Images.Imager.constructor | wikihow2zim/imager.py:24-31 | a fresh registry: not aborted, nothing handled, counters at zero, no jobs |
| Images.Imager.Abort | wikihow2zim/imager.py:33-35 | sets the flag and nothing else |
| Images.Imager.OnceDone | wikihow2zim/imager.py:107-110 | counts one more job done and changes nothing else |
| Images.Imager.Defer | wikihow2zim/imager.py:67-105 | returns DeferPath, updates the bookkeeping as the ledger function says, and keeps the registry valid |
| Images.Imager.Record | wikihow2zim/imager.py:89-103 | a handled digest changes nothing; a new one is recorded, counted and its job appended, exactly as Submit says, keeping the registry valid |
| Images.Imager.ProcessImage | wikihow2zim/imager.py:112-185 | adds exactly the decision tree's items to the creator, and returns its upload and result |
| Videos.GetVideoUrl | wikihow2zim/videos.py:54-59 | normalises exactly the URLs whose first-level domain is youtube.com and reports that flag; none when `get_fld`, the normalisation or `urlparse` raises |
| Videos.GetPathFor | wikihow2zim/videos.py:136-139 | the default path is under "videos/" and ends with ".webm" |
| Videos.GetPathForShape | wikihow2zim/videos.py:136-139 | the URL's digest can be read back from the default path |
| Videos.DeferTarget | wikihow2zim/videos.py:148-157 | a target exactly when `get_url` succeeds with an http or https scheme |
| Videos.JobFor | wikihow2zim/videos.py:159-177 | the job carries the URL's digest, its YouTube flag, and the caller's path or else the default one |
| Videos.DeferPath | wikihow2zim/videos.py:141-179 | `defer` returns None exactly when there is no target, and returns the caller's path whenever one is given |
| Videos.DeferRejected | wikihow2zim/videos.py:148-157 | a rejected URL gets no path and leaves everything unchanged |
| Videos.DeferAccepted | wikihow2zim/videos.py:148-179 | an accepted URL gets its job's path, and the bookkeeping becomes the submission of that job under the URL's digest |
| Videos.DeferLedger | wikihow2zim/videos.py:159-179 | `defer` never forgets a digest; it either leaves the bookkeeping unchanged or adds one digest, appends one job and counts one more request |
| Videos.DeferRepeat | wikihow2zim/videos.py:159-165 | an already-handled digest gets a path, and no job or count is added |
| Videos.DeferFirst | wikihow2zim/videos.py:167-179 | a new digest is recorded, counted, and exactly one job is appended, carrying the URL, the flag and the returned path |
| Videos.DeferValid | wikihow2zim/videos.py:163-177 | `defer` keeps one job per digest and `nb_requested` equal to the number of handled digests |
| Videos.DeferTwice | wikihow2zim/videos.py:159-165 | deferring one URL twice schedules it once |
| Videos.Candidates | wikihow2zim/videos.py:97-101 | exactly the listed files whose stem is the digest and whose suffix is neither .jpg nor .webp |
| Videos.FirstCandidate | wikihow2zim/videos.py:97-111 | there is a candidate exactly when some listed file qualifies, and the first one is the first qualifying file in listing order |
| Videos.SelectSource | wikihow2zim/videos.py:97-111 | FileNotFoundError exactly when no listed file qualifies; otherwise a qualifying listed file |
| Videos.VideoFpath | wikihow2zim/videos.py:91-130 | a failed download raises; no candidate raises FileNotFoundError; re-encoding is skipped exactly by the skip rule, and otherwise the output is `<digest>-2.<format>` and needs a working re-encode |
| Videos.SkipsReencode | wikihow2zim/videos.py:113-118 | re-encoding is never skipped in low quality, and a skipped file already ends in "." + the video format |
| Videos.KeptHasFormat | wikihow2zim/videos.py:113-118 | a file kept without re-encoding already has the requested format's suffix |
| Videos.ReencodedNotCandidate | wikihow2zim/videos.py:97-101 | the re-encoded `<digest>-2.<format>` file is never itself a candidate |
| Videos.VideoIdent | wikihow2zim/videos.py:204-210 | YouTube uses ident "1" with no probe; other URLs use the version identity |
| Videos.VideoEffects | wikihow2zim/videos.py:185-263 | aborted does nothing; without S3 the produced file is added, else the error escapes; YouTube is never probed and a missing ident skips; a hit adds the cached bytes with no download; after a miss an item exactly when the download works; an upload only after NotFound, of that file, under the URL's key |
| Videos.VideoGrabber.constructor | wikihow2zim/videos.py:31-38 | a fresh registry: not aborted, nothing handled, counters at zero, no jobs |
| Videos.VideoGrabber.Abort | wikihow2zim/videos.py:50-52 | sets the flag and nothing else |
| Videos.VideoGrabber.OnceDone | wikihow2zim/videos.py:181-183 | counts one more job done and changes nothing else |
| Videos.VideoGrabber.Defer | wikihow2zim/videos.py:141-179 | returns DeferPath, updates the bookkeeping as the ledger function says, and keeps the registry valid |
| Videos.VideoGrabber.Record | wikihow2zim/videos.py:163-177 | a handled digest changes nothing; a new one is recorded, counted and its job appended, exactly as Submit says, keeping the registry valid |
| Videos.VideoGrabber.ProcessVideo | wikihow2zim/videos.py:185-263 | adds exactly the decision tree's items to the creator, and returns its upload and result |
| Videos.VideoGrabber.ProcessWithoutS3 | wikihow2zim/videos.py:191-201 | without S3 the decision tree's item is added, or its exception reported |
| Videos.VideoGrabber.ProcessWithS3 | wikihow2zim/videos.py:203-263 | with S3 the decision tree's items are added, and its upload and result returned |
| Html.FirstAncestor | wikihow2zim/rewriter.py:39-42 | a found node is a proper ancestor that passes the test |
| Html.FirstAncestorIff | wikihow2zim/rewriter.py:39-42 | the search finds a node exactly when some ancestor passes the test |
| Html.HasParentTagged | wikihow2zim/rewriter.py:51-55 | a returned node is an ancestor element with that tag name |
| Html.IsInCode | wikihow2zim/rewriter.py:35-42 | a node is in code exactly when it has a `code` or a `pre` ancestor |
| Html.PreviousSibling | wikihow2zim/rewriter.py:26-27 | `previous_sibling`: the nearest earlier child of the same parent still in place, or None when every earlier one is gone |
| Html.AncestorInIff | wikihow2zim/rewriter.py:27-32 | a node lies inside a decomposed or blanked subtree exactly when one of its ancestors was decomposed or blanked |
| Html.FindAll | wikihow2zim/rewriter.py:93 | `find_all` yields live nodes that pass the test, in document order |
| Html.FindAllComplete | wikihow2zim/rewriter.py:93 | every live node that passes the test is found |
| Html.FindFirst | wikihow2zim/rewriter.py:79-80 | `soup.body` / `soup.html` is a live element with that name |
| Html.FindFirstIff | wikihow2zim/rewriter.py:79-80 | whenever such an element exists, one is found, no later than it |
| Html.ParentOf | wikihow2zim/rewriter.py:27-30 | `link.parent` is the node's parent; a decomposed or blanked node, or the root, has none |
| Html.SiblingBefore | wikihow2zim/rewriter.py:27 | `previous_sibling` is the nearest earlier child of the same parent still in place, or none when every earlier child is gone |
| Html.Contents | wikihow2zim/rewriter.py:245 | `contents` lists only the parent's children still in place, in document order |
| Html.ContentsComplete | wikihow2zim/rewriter.py:245 | every child of the parent still in place is listed by `contents` |
| Html.Unwrapped | wikihow2zim/rewriter.py:79-80 | `unwrap` re-parents exactly the node's children to its parent and takes the node out |
| Html.Soup.constructor | wikihow2zim/rewriter.py:72 | the soup holds the given tree |
| Html.Soup.Decompose | wikihow2zim/rewriter.py:30-32 | `decompose` marks the node destroyed and changes nothing else |
| Html.Soup.ReplaceWithEmpty | wikihow2zim/rewriter.py:27 | `replace_with("")` blanks the node and changes nothing else |
| Html.Soup.SetNode | wikihow2zim/rewriter.py:98-135 | an attribute edit replaces one node and nothing else |
| Html.Soup.Unwrap | wikihow2zim/rewriter.py:79-80 | the soup becomes the unwrapped tree |
| Rewriting.CapturePath | wikihow2zim/rewriter.py:60 | the `path` group matches exactly when the pattern, with "." as a wildcard, matches a prefix followed by a non-newline; it is the non-empty run up to the first newline |
| Rewriting.CaptureAfterItself | wikihow2zim/rewriter.py:167-170 | a pattern captures everything that follows its own literal text |
| Rewriting.DotsAreWildcards | wikihow2zim/rewriter.py:167 | an unescaped "../" prefix also matches "ab/" |
| Rewriting.DomainPath | wikihow2zim/rewriter.py:60 | a match needs an http or https scheme and gives a non-empty path with no newline |
| Rewriting.OnDomainPath | wikihow2zim/rewriter.py:116-120 | `http(s)://<domain>/<rest>` gives `rest`, its leading "/" dropped |
| Rewriting.DropDotSegments | wikihow2zim/rewriter.py:149 | the result is a suffix of the path that starts with neither "../" nor "./" |
| Rewriting.DropOneWalk | wikihow2zim/rewriter.py:149 | one leading "../" is dropped along with the rest of the run |
| Rewriting.NothingToDrop | wikihow2zim/rewriter.py:149 | a path not starting with "." is left alone |
| Rewriting.WalkDropped | wikihow2zim/rewriter.py:149 | any number of leading "../" is dropped |
| Rewriting.WalkDroppedStep | wikihow2zim/rewriter.py:149 | a walk of at least one "../" is dropped one segment at a time |
| Rewriting.RootPath | wikihow2zim/rewriter.py:149-150 | the root-relative path is never longer than the path |
| Rewriting.RootPathOfWalk | wikihow2zim/rewriter.py:147-150 | "../../Category:Foo" (any walk) becomes "Category:Foo" |
| Rewriting.IsRelative | wikihow2zim/rewriter.py:111-113 | a stripped href is relative exactly when it does not start with "http", "mailto:" included |
| Rewriting.RelativeHref | wikihow2zim/rewriter.py:137-161 | "" becomes `to_root`; the rewrite fails exactly when a non-empty href does not parse |
| Rewriting.RelativeHrefParts | wikihow2zim/rewriter.py:156-161 | the rebuilt URI's path is `to_root` + the root path, with scheme, query and fragment kept |
| Rewriting.ClassifyLink | wikihow2zim/rewriter.py:95-130 | the href is deleted exactly when it is all whitespace; it is untouched exactly when, non-blank, it starts with "#" or sits in code; an external link keeps its stripped href and starts with "http", unless its parse failed |
| Rewriting.OnDomainLinkIsRelative | wikihow2zim/rewriter.py:115-127 | an on-domain absolute link becomes the relative rewrite of its path |
| Rewriting.OnDomainLinkFacts | wikihow2zim/rewriter.py:115-127 | an http(s) link onto the domain is absolute, does not start with "#", and yields its path |
| Rewriting.ClassifiedOnDomain | wikihow2zim/rewriter.py:115-127 | a stripped absolute on-domain href whose path rewrites is classified as that relative rewrite |
| Rewriting.MarkExternal | wikihow2zim/rewriter.py:132-135 | appends "external-link" to the class and keeps the href exactly when external links are allowed |
| Rewriting.RewrittenLink | wikihow2zim/rewriter.py:93-135 | a rewritten link keeps its name and parent |
| Rewriting.RewrittenLinkCases | wikihow2zim/rewriter.py:95-135 | the one link edit of each case: href deleted, link untouched, href made relative, or marked external |
| Rewriting.LinksPass | wikihow2zim/rewriter.py:91-130 | exactly the live `<a href>` nodes are rewritten, each by RewrittenLink; all other nodes and the tree's shape are unchanged |
| Rewriting.LinksPassIs | wikihow2zim/rewriter.py:93 | a node sequence edited exactly at the found links is the LinksPass tree |
| Rewriting.Rewriter.RewriteLinks | wikihow2zim/rewriter.py:91-130 | the loop leaves the soup equal to LinksPass of the old soup |
| Rewriting.ClearParentSibling | wikihow2zim/rewriter.py:26-27 | raises exactly when the parent or its previous sibling is missing; otherwise blanks that sibling |
| Rewriting.RemoveForExclusion | wikihow2zim/rewriter.py:24-32 | removes the parent when targetIsParent, else the link; under the clear flag blanks exactly the previous sibling of the link's parent, and otherwise nothing; raises when a needed parent or sibling is absent |
| Rewriting.ExcludeLink | wikihow2zim/rewriter.py:190-205 | a destroyed link raises TypeError, a text node AttributeError, an element without href KeyError; a live link changes the tree exactly when its decoded href points at an excluded article or category and the removal does not raise |
| Rewriting.PointsAtExcluded | wikihow2zim/rewriter.py:167-205 | an href points at an excluded page exactly when it starts with a match of the article or category pattern and the rest of its first line is non-empty and in the matching excluded set |
| Rewriting.ExcludedRemoved | wikihow2zim/rewriter.py:199-205 | a live link pointing at an excluded page gets `remove_link_for_exclusion`, for every selector |
| Rewriting.KeptLink | wikihow2zim/rewriter.py:191-205 | a link that points at nothing excluded is kept |
| Rewriting.RelatedArticleRemoved | wikihow2zim/rewriter.py:172-205 | a related-article link to an excluded article is decomposed |
| Rewriting.SharedParentRaises | wikihow2zim/rewriter.py:176-205 | after the shared parent of two selected links is decomposed, the second link raises |
| Rewriting.ExcludeLinks | wikihow2zim/rewriter.py:190-205 | the exclusion loop only removes: no node is edited, no removal undone |
| Rewriting.ExcludeAll | wikihow2zim/rewriter.py:189-205 | the same holds across all selectors |
| Rewriting.ExcludePass | wikihow2zim/rewriter.py:163-205 | without `exclude` the pass changes nothing; it only ever removes |
| Rewriting.Rewriter.ExcludeOne | wikihow2zim/rewriter.py:191-205 | the loop body does what ExcludeLink says, raising where it raises |
| Rewriting.Rewriter.RewriteLinksForExcludes | wikihow2zim/rewriter.py:163-205 | the nested loops leave the soup as ExcludePass says, or report its exception |
| Rewriting.Rewriter.ExcludeSelected | wikihow2zim/rewriter.py:190-205 | the inner loop over one selector's links leaves the soup as ExcludeLinks says, or reports its exception |
| Rewriting.Swept | wikihow2zim/rewriter.py:245-247 | only listed non-img elements are removed |
| Rewriting.SweptIff | wikihow2zim/rewriter.py:245-247 | a child is removed exactly when it is a non-img element and the child before it was not removed |
| Rewriting.SweptIffTaken | wikihow2zim/rewriter.py:245-247 | the case where the first child is removed |
| Rewriting.SweptIffKept | wikihow2zim/rewriter.py:245-247 | the case where the first child is kept |
| Rewriting.SweptRemoves | wikihow2zim/rewriter.py:245-247 | removing the child at the cursor shifts the rest left, and the cursor then skips one child |
| Rewriting.SweptKeeps | wikihow2zim/rewriter.py:245-247 | keeping the child at the cursor moves the cursor on by one |
| Rewriting.AdjacentSourcesSweep | wikihow2zim/rewriter.py:245-247 | with two sources before the img, only the first is removed |
| Rewriting.Rewriter.SweepContents | wikihow2zim/rewriter.py:245-247 | the remove-while-iterating loop decomposes exactly the Swept children |
| Rewriting.PictureStep | wikihow2zim/rewriter.py:241-247 | a picture without an img descendant is unchanged; only its non-img children are removed |
| Rewriting.PicturesFrom | wikihow2zim/rewriter.py:240-247 | the pictures pass only removes nodes |
| Rewriting.PicturesKeepImages | wikihow2zim/rewriter.py:240-247 | no img is itself decomposed by the pictures pass |
| Rewriting.PicturesRemoveOnly | wikihow2zim/rewriter.py:240-247 | what the pass decomposes is a non-img element whose parent is one of the pictures |
| Rewriting.PictureImageStaysLive | wikihow2zim/rewriter.py:240-247 | an img in the document stays there when no picture of the pass is above it except its own parent; an img nested in a removed child of a picture goes with that child |
| Rewriting.Rewriter.RewritePictures | wikihow2zim/rewriter.py:235-247 | the loop leaves the soup as PicturesFrom says, over the pictures found at the start |
| Rewriting.PlanImg | wikihow2zim/rewriter.py:209-225 | a truthy `onload` is removed; a falsy `src` with a truthy `data-src` is promoted and `data-src`/`data-src-nowebp` deleted; a source is deferred exactly when one exists outside code |
| Rewriting.FinishImg | wikihow2zim/rewriter.py:229-233 | a None path deletes `src`; otherwise `src` is `to_root + path` |
| Rewriting.DeferredSrcs | wikihow2zim/rewriter.py:208-229 | at most one deferred source per image, in order |
| Rewriting.DeferAllValid | wikihow2zim/rewriter.py:229 | deferring every image of a page keeps the registry valid |
| Rewriting.DeferAllHandles | wikihow2zim/rewriter.py:229 | every deferrable source ends up handled |
| Rewriting.DeferAllGrows | wikihow2zim/rewriter.py:229 | deferring never forgets a handled digest |
| Rewriting.RewrittenImg | wikihow2zim/rewriter.py:208-233 | an image keeps its name, parent and classes |
| Rewriting.ImagesPass | wikihow2zim/rewriter.py:207-233 | exactly the live `<img>` nodes are rewritten, each by RewrittenImg; everything else unchanged |
| Rewriting.ImagesPassIs | wikihow2zim/rewriter.py:208 | a node sequence edited exactly at the found images is the ImagesPass tree |
| Rewriting.Rewriter.RewriteImage | wikihow2zim/rewriter.py:208-233 | one loop body: the image is rewritten and its source deferred, nothing else changes |
| Rewriting.Rewriter.RewriteImages | wikihow2zim/rewriter.py:207-233 | the soup becomes ImagesPass of the old soup, and the registry has deferred the page's sources in document order |
| Rewriting.UnwrapBodyHtml | wikihow2zim/rewriter.py:79-80 | without a body, AttributeError is raised; otherwise the node count and blanked set are kept |
| Rewriting.PagePasses | wikihow2zim/rewriter.py:82-85 | the passes before images leave the link-rewritten nodes; without `exclude` they cannot raise |
| Rewriting.BeforeImages | wikihow2zim/rewriter.py:79-85 | a page without body raises AttributeError; without `exclude` that is the only exception |
| Rewriting.Rewriter.RunPagePasses | wikihow2zim/rewriter.py:82-85 | the three passes leave the soup as PagePasses says, or report its exception |
| Rewriting.Rewriter.RewriteTree | wikihow2zim/rewriter.py:79-89 | the rewrite of a parsed page: a failure before images is reported, otherwise the ImagesPass tree with the page's sources deferred |
| Rewriting.Rewriter.UnwrapPage | wikihow2zim/rewriter.py:79-80 | succeeds exactly when UnwrapBodyHtml does, leaving the soup as its unwrapped tree |
| Rewriting.Rewriter.Rewrite | wikihow2zim/rewriter.py:67-89 | "" gives "", an unparsable page is returned unchanged, and otherwise as RewriteTree |
| Rewriting.Rewriter.constructor | wikihow2zim/rewriter.py:59-65 | the configuration is stored and both excluded sets start empty |
| Scraper.FirstMissing | wikihow2zim/scraper.py:25-27 | the position of the first option, in list order, that is missing; none exactly when all are present |
| Scraper.StoredIsPicked | wikihow2zim/scraper.py:29-30 | storing the options one by one adds exactly the options with their given values |
| Scraper.ExtraIgnored | wikihow2zim/scraper.py:25-30 | keyword arguments that are not options change neither the check nor what is stored |
| Scraper.Wikihow2zim.constructor | wikihow2zim/scraper.py:22 | a new object with no attributes |
| Scraper.Wikihow2zim.FindMissing | wikihow2zim/scraper.py:25-27 | the first loop stops at the first missing option |
| Scraper.Wikihow2zim.Init | wikihow2zim/scraper.py:23-32 | a missing option raises ValueError naming the first one, with no attribute set; otherwise every option is stored, and the language then gives the URL or raises KeyError |
| Scraper.Wikihow2zim.New | wikihow2zim/scraper.py:22-32 | construction succeeds exactly when every option is present and the language has a URL, and the object then holds exactly the options |

## Left out

- HTML parsing and serialisation (`bs4.BeautifulSoup(content, "lxml")`, `str(soup)`) are foreign libraries. `Rewrite` takes the parsed tree, or None when parsing raises, and returns the rewritten tree rather than its text.
- CSS selector evaluation (`soup.select`) and `cssbeautifier.beautify` are function parameters.
- `urllib.parse` is the `UrlLib` record of uninterpreted functions. This covers `unquote`, which `normalize_ident` wraps: percent-decoding is not modelled.
- `get_fld`, `normalize_youtube_url` and `youtube_poster_url` are not modelled. The first two are the `VideoLib` parameters, each free to raise (`None`). The source of `normalize_youtube_url` is not part of this model, so nothing more is assumed about it.
- In `rewrite_links_for_excludes`, the regular expressions are modelled with `.` as their only metacharacter. Other metacharacters in `to_root`, the domain or the category prefix are read literally.
- Network and storage are modelled only by their outcomes. This covers `fetch`, `get_soup`, `requests.head`, `stream_file`, `KiwixStorage`, `setup_s3_and_check_credentials` and `get_public_ip`. For stylesheets, `soup_link_finder` is not modelled.
- `get_image_data` is a given outcome: the bytes or a failure. PIL conversion, `optimize_webp`, `youtube_dl` and `ffmpeg` are I/O and codecs, and the SVG test is not modelled.
- The videos directory is a given file listing.
- The executors are the `jobs` sequence: a submitted job is appended, but it is not run. `Global.lock` and thread pools, and so any interleaving, are not modelled.
- The `callback=self.once_done` of `add_item_for` is not modelled. `OnceDone` is its own method.
- Logging is not modelled.
- Utf8.Encode: `str.encode("utf-8")` raises on a lone surrogate, but a Dafny `char` cannot hold one, so that error is outside the model.
- `IMAGES_ENCODER_VERSION`, `VIDEOS_ENCODER_VERSION` and `URLS` are not defined in `constants.py`, so they are parameters.
- `Global.pause`, `Global.setup`, `GlobalMixin`, `entrypoint.py`, `__main__.py`, `setup.py` and the browser script are not modelled. `wikihow2zim.run` only logs, so it is not modelled either.
- `rewrite`'s `unwrap` parameter and `rewrite_pictures`'s `to_root` parameter are never read in the code, so the model leaves them out.
- `is_child_of` (`rewriter.py:45-48`) is not called anywhere in the code. It is given only as the predicate `Html.IsChildOf`, with no property proved about it.
- Rewriting.ExcludeLink: a selection is an index into the node sequence. An index outside the tree, which `soup.select` cannot return, is treated as a link that matches nothing.
- Rewriting.Rewriter.Rewrite: returns the rewritten tree rather than `str(soup)`, because serialisation is not modelled.
- Media.PathName: the pure-path name ignores empty and "." components but does not normalise anything else that `pathlib` might.
- Videos.VideoGrabber.ProcessVideo: takes the outcome of `get_video_fpath` once, before the S3 branch, instead of calling it only after a cache miss. The download is a given outcome, so no result differs. The decision tree's `fetched` flag still records whether the source would download.
