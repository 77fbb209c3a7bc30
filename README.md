# A recursive web scraper, modelled in Dafny

The repository holds two versions of one recursive web scraper.

- **The Go crawler** (`go_solution/main.go`) starts at a seed address. For each page it:
  - claims the address in the global `visitedUrls` map under a mutex, up to depth cap `maxRecursion = 20`;
  - fetches and parses the page;
  - collects the page's text and image addresses in one preorder walk, then its links, de-duplicated per page, in a second walk;
  - saves the cleaned text, downloads the images, and starts one goroutine per link at `depth + 1`.

  A `sync.WaitGroup` counts the outstanding goroutines, and `main` waits for it to reach zero.
- **The Python crawler** (`main.py`) is sequential. `scrape` is a depth-first recursion over a global `visitedUrls` set, with cap `maxRekrusion = 100`. It marks the address before the fetch, computes the domain folder once (at the seed call), and re-checks `visitedUrls` before each recursive call.

The model takes the web as a parameter. `Site = string -> Option<Node>` gives the parsed tree of each address, or `None` when the fetch, the status check or the parse fails. `Node` is the tree the HTML parsers produce.

The model has these modules:

- **Strings** (`strings.dfy`):
  - the two whitespace classes (Go's `unicode.IsSpace`, Python's `str.isspace`) and trimming;
  - the collapsing of runs done by `regexp.ReplaceAllString` with `\n+` and ` +`;
  - `cleanText`, and Python's `str.join` / `str.split`.
- **Names** (`names.dfy`): the image file names of both versions, with the SVG skip of the Go one, and the domain folder names of both versions.
- **Urls** (`urls.dfy`): `normalizeURL`. The `net/url` calls it makes are supplied as a record of functions.
- **Html** (`html.dfy`): the node tree, and the preorder walks both versions make over it.
- **Extract** (`extract.dfy`): the two closures of `scrapePage`. They are modelled as a class whose fields are the captured variables (`pageText`, `imgUrls`, `foundUrls`, `urlSet`), with recursive methods carrying loop invariants. Each method is proved against a functional specification of the walk.
- **Dispatch** (`dispatch.dfy`): the Go crawl run one task at a time.
  - A class holds `visitedUrls`, the worklist of `(url, depth)` tasks, the WaitGroup counter and the list of claimed pages.
  - Each task is proved equal to a state-transition function.
  - An invariant over the states the crawl reaches is proved preserved by every step. Termination is proved through a breadth-first layering of the worklist.
  - What holds when the counter reaches zero is proved as well.
- **PyCrawl** (`pycrawl.dfy`): the Python crawl.
  - The page queries BeautifulSoup answers are written as functions over the tree.
  - `scrape` is written as a recursive function of the global state, with lemmas about it.
  - A class with the global `visitedUrls` has recursive `Scrape`/`FollowLinks` methods proved equal to that function.

The printed "Scraping: url (depth d)" lines become a log of the calls that passed the guard. Each entry records what came of the page.

Some points of the Go code that the model keeps as written:

- **Depth-20 tasks.** The Go code spawns tasks at depth `maxRecursion`, and the guard refuses them. The Dispatch invariant therefore bounds outstanding tasks by `<= 20` and claimed pages by `< 20`.
- **The fetch slot.** The Go code holds the semaphore for the whole of `scrape`, image downloads and spawning included, not only for the fetch.
- **Text before images.** The Go code saves the page text before it downloads the images.
- **Pages at the same depth.** The page text file is named by depth alone, so two pages at one depth overwrite each other's text. Files are not modelled (see below).

## Model

Some functions only define what a walk or a step computes, and carry no contract of their own: Dispatch.Claimable, Dispatch.Perform, Dispatch.Step, Extract.PageText, Extract.Images, Extract.Hrefs, PyCrawl.Texts, PyCrawl.PyPageText, PyCrawl.PyImages and PyCrawl.PyLinks. What they mean is stated by the lemmas and methods about them, which have rows below: Crawler.Claim, ClaimLedger, PerformRecap, StepInv, StepRank, PageTextSpec, ImagesSpec, HrefsSpec, PyPageTextLines, PyImagesSpec and PyLinksSpec.

| member | source | states |
|---|---|---|
| Strings.Trim | go_solution/main.go:104 | The result is the slice of the input between its leading and trailing whitespace. It is empty exactly when the input is all whitespace; otherwise its first and last characters are not whitespace. |
| Strings.TrimIdempotent | go_solution/main.go:104 | Trimming a trimmed string changes nothing. |
| Strings.Collapse | go_solution/main.go:105-106 | Replacing the runs of `c` never lengthens the string, and keeps a non-empty string non-empty with the same first character. |
| Strings.CollapseRun | go_solution/main.go:105-106 | A maximal run of `c` becomes exactly one `c`: `x + w + y` collapses to `Collapse(x) + c + Collapse(y)` for a non-empty run `w` with no `c` just before or after it. |
| Strings.CollapseAppend | go_solution/main.go:105-106 | The replacement works on each side of a seam that is not inside a run of `c` separately. |
| Strings.CollapseNoRun | go_solution/main.go:105-106 | After a run of `c` is replaced by one `c`, no `c` follows a `c`. |
| Strings.CollapseFixed | go_solution/main.go:105-106 | A string with no run of `c` is left unchanged by the replacement. |
| Strings.CollapseKeepsNoRun | go_solution/main.go:105-106 | Collapsing blanks cannot create a run of newlines. |
| Strings.CollapseEnds | go_solution/main.go:105-106 | Collapsing keeps the last character of a non-empty string. |
| Strings.CollapseContent | go_solution/main.go:105-106 | Collapsing blanks or newlines keeps every other character, in order. |
| Strings.NoRunNoPair | go_solution/main.go:105-106 | A string with no run of `c` does not contain `cc`. |
| Strings.CleanText | go_solution/main.go:103-108 | Cleaning keeps every character of the trimmed input other than blanks and newlines, in order. |
| Strings.CleanTextShape | go_solution/main.go:103-108 | Cleaned text has no leading or trailing whitespace, has no run of newlines or of blanks, so it contains neither `"\n\n"` nor `"  "`, and is empty exactly when the trimmed input is. |
| Strings.CleanTextRun | go_solution/main.go:103-108 | Between two words without whitespace, any non-empty run of newlines becomes exactly one newline, and any run of blanks exactly one blank. |
| Strings.CleanTextIdempotent | go_solution/main.go:103-108 | Cleaning twice equals cleaning once. |
| Strings.CleanTextNewlines | go_solution/main.go:105 | `"a\n\n\nb"` cleans to `"a\nb"`. |
| Strings.CleanTextBlanks | go_solution/main.go:106 | `"a   b"` cleans to `"a b"`. |
| Strings.SplitJoin | main.py:77 | Joining newline-free parts with `"\n"` and splitting at newlines gives the parts back. |
| Strings.JoinFront | main.py:77 | A join is the first part, the separator, then the join of the rest. |
| Names.SanitizeName | go_solution/main.go:62 | The name keeps its length. Every character outside `[A-Za-z0-9_.]` becomes `_`, one for one, and every other character is kept. |
| Names.SanitizeNameIdempotent | go_solution/main.go:62 | Sanitising a sanitised name changes nothing. |
| Names.GoBase | go_solution/main.go:61 | `filepath.Base` is never empty. It is `"."` for the empty path, and contains a slash only when it is `"/"`. |
| Names.GoImageFile | go_solution/main.go:44-62 | There is no file exactly when the address ends in `".svg"`. Otherwise the name is non-empty and made of `[A-Za-z0-9_.]` only. |
| Names.GoImageFileOfPath | go_solution/main.go:61-62 | For `x/y` with `y` non-empty and slash-free, the Go name is the sanitised `y`, query included, unless the address ends in `".svg"`. |
| Names.PyBasename | main.py:30 | `os.path.basename` is the slash-free tail of the path after its last `/`, or the whole path when it has none. |
| Names.BeforeFirst | main.py:30 | `s.split("?")[0]` is the longest prefix of `s` without `?`; when it is shorter than `s`, a `?` follows it. |
| Names.PyImageFile | main.py:30-31 | The Python name is made of `[A-Za-z0-9_.]` only. |
| Names.PyImageFileIgnoresQuery | main.py:30 | The query after the first `?` does not change the Python name. |
| Names.PyImageFileEmpty | main.py:30-32 | An address ending in `/` gets the empty name, so the image path is the image folder itself. |
| Names.DomainLabelShape | go_solution/main.go:35 | The label is empty exactly when the input is, and keeps the input's letters and digits, in order. |
| Names.DomainLabel | go_solution/main.go:35 | The label is no longer than the domain and consists of word characters only. |
| Names.DomainLabelRun | go_solution/main.go:35 | A maximal run of non-word characters becomes exactly one `_`: `x + w + y` is labelled `DomainLabel(x) + "_" + DomainLabel(y)` for a non-empty non-word run `w` with a word character or nothing on each side. |
| Names.DomainLabelAppend | go_solution/main.go:35 | Labelling works on each side of a seam next to a word character separately. |
| Names.DomainLabelExample | go_solution/main.go:35 | `"a?!b"` is labelled `"a_b"`, while the image-name sanitiser replaces one for one and gives `"a__b"`. |
| Names.DomainLabelFixed | go_solution/main.go:35 | A label of word characters is its own label, so labelling is idempotent. |
| Names.GoDomainFolder | go_solution/main.go:30-38 | The folder is an error exactly when the registrable domain cannot be found. Otherwise it is `data/` followed by the label, or just `data` when the label is empty. |
| Names.ReplaceChar | main.py:16 | The result has the same length as the input, and each `.` and only each `.` becomes `_`. |
| Names.PyDomainFolder | main.py:13-19 | The folder ends in the network location with dots turned into underscores. It is `data/` followed by that when the location does not start with `/`. |
| Urls.Normalize | go_solution/main.go:84-100 | Three rules, in order: a `//` reference gives `"https:"+rel` without being parsed; a reference that parses as absolute is returned unchanged; anything else is resolved against the parsed base. The result is an error exactly when rel fails to parse, or base fails to parse on the third rule. |
| Urls.NormalizeIgnoresBase | go_solution/main.go:85-94 | The first two rules give the same successful result for every base. |
| Html.CollectIsGather | go_solution/main.go:171-173 | A recursive walk that visits a node and then each child in order gathers the nodes in preorder. |
| Extract.NormalizedMembers | go_solution/main.go:153-159 | A value is collected from an element's attributes exactly when some attribute with the key normalises to it. |
| Extract.ImagesSpec | go_solution/main.go:152-160 | `imgUrls` is the per-node images in preorder. An address is in it exactly when some `src` of some `img` element normalises to it. |
| Extract.HrefsSpec | go_solution/main.go:199-209 | The links before de-duplication are the per-node links in preorder. An address is among them exactly when some `href` of some `a` element normalises to it. |
| Extract.PageTextSpec | go_solution/main.go:161-170 | The page text is the per-node text in preorder, and it is empty when the tree has no whitelisted element. |
| Extract.AddNewFacts | go_solution/main.go:203-205 | Appending the unseen elements keeps the prefix, adds exactly the new elements, and creates no duplicate. |
| Extract.OwnText | go_solution/main.go:161-170 | A node contributes text exactly when it is a non-`img` element with a whitelisted tag and at least one child; that text is its direct text followed by one newline. |
| Extract.Dedup | go_solution/main.go:203-205 | The de-duplicated links repeat nothing and hold exactly the links of the input. |
| Extract.DedupOrder | go_solution/main.go:203-205 | De-duplication lists each distinct input element once, in the order of first occurrence. |
| Extract.FoundUrlsSpec | go_solution/main.go:195-214 | `foundUrls` is duplicate-free, in first-occurrence preorder, and holds exactly the normalised `href`s. |
| Extract.PageWalk.constructor | go_solution/main.go:146-148 | The accumulators start empty, and `urlSet` agrees with `foundUrls`. |
| Extract.PageWalk.AddImages | go_solution/main.go:153-160 | The attribute loop appends each `src` that normalises, in attribute order. |
| Extract.PageWalk.AddDirectText | go_solution/main.go:162-169 | The child loop appends each text child's data and a blank. |
| Extract.PageWalk.Visit | go_solution/main.go:152-170 | One node adds its images if it is an `img`, otherwise its text if it is a whitelisted element with a child. |
| Extract.PageWalk.F | go_solution/main.go:150-175 | After `f(n)`, `pageText` and `imgUrls` have grown by the preorder text and images of `n`'s tree. |
| Extract.PageWalk.AddLinks | go_solution/main.go:200-208 | Each normalised `href` not yet in `urlSet` is appended. `urlSet` stays equal to the set of `foundUrls`. |
| Extract.PageWalk.FindLinks | go_solution/main.go:197-214 | After `findLinks(n)`, `foundUrls` has grown by the new `href`s of `n`'s tree, in first-occurrence preorder. |
| Extract.ExtractPage | go_solution/main.go:146-216 | The saved text is the cleaned page text, the images are all the `src`s, and the links are the de-duplicated `href`s. |
| Dispatch.PageOutcome | go_solution/main.go:127-144 | A claimed page comes out as an error exactly when its fetch, status check or parse fails. |
| Dispatch.PageOutcomeLinks | go_solution/main.go:195-216 | A scraped page's links are duplicate-free, and they are exactly its normalised `href`s. |
| Dispatch.Spawn | go_solution/main.go:232-234 | One task per link, in link order, all at the given depth. |
| Dispatch.InitInv | go_solution/main.go:250-251 | The state after the seed task is counted and started satisfies the invariant. |
| Dispatch.SkipInv | go_solution/main.go:113-115 | A task the guard refuses keeps the invariant. |
| Dispatch.ClaimLedger | go_solution/main.go:113-117 | A claimed URL was new. `visitedUrls` stays exactly the set of claimed URLs, each claimed once. |
| Dispatch.ClaimDepths | go_solution/main.go:232-234 | Claimed pages stay under the cap, and the first claim is the seed at depth 0. No task deeper than the cap is created. |
| Dispatch.ClaimDerived | go_solution/main.go:232-234 | After a claim, every page after the seed and every outstanding task still come from a link of a page claimed before, one level up. |
| Dispatch.ClaimComplete | go_solution/main.go:226-235 | After a claim, every link of a claimed page one level under the cap is still visited or outstanding. |
| Dispatch.StepInv | go_solution/main.go:220-236 | Every step of the dispatcher preserves the invariant. |
| Dispatch.FinalClosed | go_solution/main.go:250-252 | When nothing is outstanding, the seed was claimed first. Every link of a claimed page one level under the cap was claimed. |
| Dispatch.QueueLayered | go_solution/main.go:232-234 | Dropping the head and appending tasks one level under it keeps the worklist in breadth-first order. |
| Dispatch.QueueRank | go_solution/main.go:232-234 | Under the depth bound, each such step lowers the termination measure. |
| Dispatch.StepLayered | go_solution/main.go:232-234 | The dispatcher's step keeps the worklist in breadth-first order. |
| Dispatch.StepRank | go_solution/main.go:232-234 | The dispatcher's step lowers the termination measure. |
| Dispatch.PerformRecap | go_solution/main.go:226-235 | A task's effect on the ledger, the worklist and the log is exactly the state-transition function. |
| Dispatch.RecordedPerform | go_solution/main.go:111-216 | Every claimed page stays recorded as scrapePage makes it. |
| Dispatch.Crawler.constructor | go_solution/main.go:24 | The crawl starts with nothing visited, no task and a zero counter. |
| Dispatch.Crawler.Claim | go_solution/main.go:112-118 | The claim succeeds exactly when the URL is new and the depth is under the cap. A success adds the URL; a failure leaves `visitedUrls` unchanged. |
| Dispatch.Crawler.ScrapePage | go_solution/main.go:111-217 | A refused task returns no links and no error, and changes nothing. A claimed one is marked before the fetch and logged with the page's outcome; a failed page leaves it marked, with no links. |
| Dispatch.Crawler.RunTask | go_solution/main.go:220-236 | `scrape` changes the state as the transition function says. It spawns one task per found link at `depth + 1`, and none on an error. The counter stays equal to the number of outstanding tasks. |
| Dispatch.Crawler.SpawnAll | go_solution/main.go:232-235 | Each link gets `wg.Add(1)` and a task at the given depth, in link order. |
| Dispatch.Crawler.Run | go_solution/main.go:250-252 | The wait ends, with the counter at zero and no task outstanding, in a state satisfying the invariant. |
| Dispatch.ScrapeSite | go_solution/main.go:238-253 | A folder error stops the run before any page. Otherwise the seed is claimed first and each URL is claimed at most once. Every page is scraped as scrapePage does, reached through a link of an earlier page, and every link one level under the cap is visited. |
| PyCrawl.LastAttr | main.py:81 | `tag[key]` is missing exactly when no attribute has the key. Otherwise it is the value of the last attribute with that key. |
| PyCrawl.PyImagesSpec | main.py:81 | An address is in `img_urls` exactly when some `img` element under the document has it as its `src`, joined to the page. |
| PyCrawl.PyLinksSpec | main.py:87 | An address is in `new_urls` exactly when some `a` element under the document has it as its `href`, joined to the page. |
| PyCrawl.GatherStripped | main.py:77 | Running stripped pieces together gives a string without surrounding whitespace. |
| PyCrawl.GetText | main.py:77 | `get_text(strip=True)` neither starts nor ends with whitespace. |
| PyCrawl.PyPageTextLines | main.py:77 | When no element's text holds a newline, splitting the saved text at newlines gives one line per whitelisted element, in document order. |
| PyCrawl.Fetched | main.py:66-87 | A page comes out as a failed fetch exactly when retrieval fails. |
| PyCrawl.Crawl | main.py:48-90 | A call grows `visitedUrls` and extends the call log. Under the cap, its URL is visited afterwards, and a call past the guard adds at least one log entry. |
| PyCrawl.CrawlLinks | main.py:87-90 | The loop grows the state. Under the cap, every link is visited afterwards. |
| PyCrawl.RecheckRedundant | main.py:87-90 | The membership check before each recursive call only saves a call: without it the crawl is the same. |
| PyCrawl.CrawlGuard | main.py:50-51 | A visited URL, or a depth at the cap, leaves `visitedUrls` and the log unchanged. |
| PyCrawl.CrawlUnfold | main.py:53-58 | A call past the guard claims its URL, computes the folder only when none was passed, and follows the page's links one level deeper. |
| PyCrawl.CrawlClaims | main.py:53-71 | A call past the guard records itself as the next call, before anything else. A failed fetch does only that. |
| PyCrawl.CrawlMade | main.py:57-58 | Every call a crawl adds is under the cap and at its depth or deeper. It saves in the folder passed in, or the one computed at the seed, and carries the page as fetched. |
| PyCrawl.CrawlLinksMade | main.py:87-90 | The loop's calls satisfy the same facts as CrawlMade. |
| PyCrawl.ClaimExact | main.py:54 | Adding a new URL keeps `visitedUrls` equal to the set of logged URLs, each logged once. |
| PyCrawl.CrawlExact | main.py:50-54 | Each URL passes the guard at most once: a crawl keeps `visitedUrls` exactly the logged URLs, with no repetition. |
| PyCrawl.CrawlLinksExact | main.py:87-90 | The loop keeps the ledger exact. |
| PyCrawl.CrawlCovered | main.py:87-90 | Every page a crawl fetched one level under the cap has all its links visited by the time the crawl returns. |
| PyCrawl.CrawlLinksCovered | main.py:87-90 | The loop's pages satisfy the same fact as CrawlCovered. |
| PyCrawl.CrawlLinked | main.py:87-90 | Every call after a crawl's first follows a link of an earlier call, one level deeper. |
| PyCrawl.CrawlLinksLinked | main.py:87-90 | Every call the loop adds follows a link of an earlier call, one level deeper. |
| PyCrawl.SeedCrawl | main.py:93-94 | A crawl from the seed on an empty `visitedUrls` satisfies the crawl properties together: the seed is the first call and the ledger is exact; every call is under the cap, in the seed's folder, and follows a link of an earlier call; every link one level under the cap is visited. |
| PyCrawl.PyScraper.constructor | main.py:11 | The crawl starts with an empty `visitedUrls` and no call. |
| PyCrawl.PyScraper.Scrape | main.py:48-90 | The method's effect on `visitedUrls` and the log is exactly the crawl function. |
| PyCrawl.PyScraper.Fetch | main.py:66-87 | Fetching gives the page's outcome, and fails exactly when the site has no page. |
| PyCrawl.PyScraper.FollowLinks | main.py:87-90 | The loop over `new_urls` has exactly the crawl loop's effect. |
| PyCrawl.ScrapeFrom | main.py:93-94 | The whole run from the prompt: the seed is the first call, and `visitedUrls` holds each call's URL once. Every call is under 100, saves in the seed's folder and carries its page as fetched; every call after the seed follows a link of an earlier call; every link one level under the cap is visited. |

## Left out

- Networking (`http.Get`, `requests.get`), status codes and response bodies. A fetch is the `site` parameter, and `None` covers every failure path.
- HTML parsing (`html.Parse`, BeautifulSoup's parser). The tree is an input.
- The internals of `url.Parse`, `URL.IsAbs`, `ResolveReference`, `publicsuffix.EffectiveTLDPlusOne`, `urljoin` and `urlparse(...).netloc`. These are foreign library calls, so they are parameters.
- Printing, directory creation and file writes: `saveText`, `save_text`, the text file names `page_{depth}.txt`, the image downloads and their error paths. These are I/O. Only the file *names* of images and domain folders are modelled.
- Goroutines, the mutex, the semaphore of 10 slots, and real WaitGroup blocking. These are concurrency. The Go crawl is modelled as one fixed schedule: tasks run one at a time, in FIFO order, and each claim is atomic. Another schedule may claim a URL at a greater depth than FIFO order does, and so visit fewer pages before the cap. For example, a chain of links from one child of the seed can claim a second child at depth 19 before that child's depth-1 task runs; its links are then refused at depth 20, where FIFO order would visit them at depth 2. Only the FIFO schedule is proved. Breadth-first order reaches each URL at its least link depth, but this is not stated as a lemma.
- The parallel image downloads of `scrapePage`, and their wait, which are I/O.
- Names.IsWordChar: `\w` is taken as ASCII `[0-9A-Za-z_]`. That is exact for Go's RE2, but Python's `re` (main.py:31) also counts non-ASCII letters and digits as `\w`.
- Names.PyImageFile: only the sanitising of main.py:30-31 is stated; the path `os.path.join` forms with the folder is not modelled. The empty name an address ending in `/` produces (PyImageFileEmpty) would make `open` fail on the folder itself, outside the `try`'s `RequestException` handler; that failure is I/O and not modelled.
- PyCrawl.Fetched: `urljoin` raising on a malformed address is not modelled (the parameter is total).
- Timeouts: neither `http.Get` nor `requests.get` sets one, so a fetch that never answers blocks `wg.Wait` or the Python recursion for good. The termination of `Dispatch.Crawler.Run` and of the crawl functions assumes that every fetch returns.
- Uncaught exceptions: an exception outside the `RequestException` handler, such as a `urljoin` error or a failed `open`, ends the whole Python run. PyCrawl.SeedCrawl and PyCrawl.ScrapeFrom describe only runs in which no such exception is raised.
- The Python version prints the "Scraping:" line before the fetch, and `download_image` sends a browser User-Agent header. These are output and I/O.
