/**
 * The Python crawler's scrape (main.py:48-90): a sequential depth-first
 * crawl over a global visitedUrls set, with a depth cap of 100, the URL
 * marked before its page is fetched, and the domain folder computed once at
 * the seed. The page's text, image and link lists are BeautifulSoup queries
 * over the parsed tree; urljoin and urlparse(...).netloc are parameters.
 */
module PyCrawl {
  import opened Wrappers
  import opened Strings
  import opened Html
  import opened Names
  import opened Extract

  /** `maxRekrusion`: calls at this depth or deeper return at once. */
  const MaxRekrusion: nat := 100

  /** The tags whose text makes up the saved page text. */
  const PyTextTags: set<string> := {"p", "h1", "h2", "h3", "h4", "h5", "h6", "li"}

  /** The urllib.parse functions scrape calls: urljoin(base, ref) and urlparse(url).netloc. */
  datatype PyEnv = PyEnv(urljoin: (string, string) -> string, netloc: string -> string)

  // ---------------------------------------------------------------------
  // What BeautifulSoup finds in a parsed page
  // ---------------------------------------------------------------------

  /** The nodes `soup.find_all` looks at: every node under the document, in document order. */
  function Descendants(doc: Node): seq<Node> {
    PreorderAll(Children(doc))
  }

  /**
   * `tag[key]`: the value of the attribute named `key`, the last one when
   * the attribute is repeated (html.parser keeps the last value).
   */
  function LastAttr(attrs: seq<Attr>, key: string): (r: Option<string>)
    ensures r.None? <==> forall i :: 0 <= i < |attrs| ==> attrs[i].key != key
    ensures r.Some? ==>
      exists i :: 0 <= i < |attrs| && attrs[i] == Attr(key, r.value) && (forall j :: i < j < |attrs| ==> attrs[j].key != key)
  {
    if attrs == [] then None
    else if attrs[|attrs| - 1].key == key then Some(attrs[|attrs| - 1].val)
    else LastAttr(attrs[..|attrs| - 1], key)
  }

  /** A text node's text with surrounding whitespace stripped; nothing for other nodes. */
  function StrippedText(n: Node): string {
    if n.Text? then Strip(n.data) else ""
  }

  /**
   * `element.get_text(strip=True)`: the stripped texts of the text nodes
   * under the element, in order, run together; the result neither starts
   * nor ends with whitespace.
   */
  function GetText(e: Node): (r: string)
    ensures Stripped(r)
  {
    CollectIsGather(StrippedText, e);
    GatherStripped(Preorder(e));
    Collect(StrippedText, e)
  }

  /** What one node adds to the text list: its text, when it is a whitelisted element. */
  function TextAt(n: Node): seq<string> {
    if n.Element? && n.tag in PyTextTags then [GetText(n)] else []
  }

  /** One text per `p`, `h1`-`h6` and `li` element, in document order; nested ones each count. */
  function Texts(doc: Node): seq<string> {
    Gather(TextAt, Descendants(doc))
  }

  /** `page_text`: the texts joined by newlines. */
  function PyPageText(doc: Node): string {
    Join(Texts(doc), "\n")
  }

  /** `urljoin(url, tag[key])` for an element `tag` that `find_all(tag, key=True)` matches. */
  function Target(env: PyEnv, url: string, tag: string, key: string, n: Node): seq<string> {
    if n.Element? && n.tag == tag && LastAttr(n.attrs, key).Some? then [env.urljoin(url, LastAttr(n.attrs, key).value)]
    else []
  }

  /** `img_urls`: every `img` element with a `src`, joined to the page address, in document order, duplicates kept. */
  function PyImages(env: PyEnv, url: string, doc: Node): seq<string> {
    Gather(n => Target(env, url, "img", "src", n), Descendants(doc))
  }

  /** `new_urls`: every `a` element with an `href`, joined to the page address, in document order, duplicates kept. */
  function PyLinks(env: PyEnv, url: string, doc: Node): seq<string> {
    Gather(n => Target(env, url, "a", "href", n), Descendants(doc))
  }

  /** A link is found exactly when some `a` element under the document has it as its (last) `href`, joined to the page. */
  lemma PyLinksSpec(env: PyEnv, url: string, doc: Node, x: string)
    ensures x in PyLinks(env, url, doc) <==>
      exists k :: 0 <= k < |Descendants(doc)| && Descendants(doc)[k].Element? && Descendants(doc)[k].tag == "a"
        && LastAttr(Descendants(doc)[k].attrs, "href").Some?
        && x == env.urljoin(url, LastAttr(Descendants(doc)[k].attrs, "href").value)
  {
    GatherMembers(n => Target(env, url, "a", "href", n), Descendants(doc), x);
  }

  /** An image address is listed exactly when some `img` element under the document has it as its (last) `src`, joined to the page. */
  lemma PyImagesSpec(env: PyEnv, url: string, doc: Node, x: string)
    ensures x in PyImages(env, url, doc) <==>
      exists k :: 0 <= k < |Descendants(doc)| && Descendants(doc)[k].Element? && Descendants(doc)[k].tag == "img"
        && LastAttr(Descendants(doc)[k].attrs, "src").Some?
        && x == env.urljoin(url, LastAttr(Descendants(doc)[k].attrs, "src").value)
  {
    GatherMembers(n => Target(env, url, "img", "src", n), Descendants(doc), x);
  }

  /** Neither blank nor starting or ending with whitespace. */
  predicate Stripped(s: string) {
    s != [] ==> !PySpaces.Has(s[0]) && !PySpaces.Has(s[|s| - 1])
  }

  /** Gathering stripped pieces gives a stripped whole. */
  lemma {:induction false} GatherStripped(ns: seq<Node>)
    ensures Stripped(Gather(StrippedText, ns))
    decreases |ns|
  {
    if ns != [] {
      GatherStripped(ns[..|ns| - 1]);
      assert Stripped(StrippedText(ns[|ns| - 1]));
      StrippedConcat(Gather(StrippedText, ns[..|ns| - 1]), StrippedText(ns[|ns| - 1]));
    }
  }

  /** Two stripped strings run together give a stripped string. */
  lemma StrippedConcat(a: string, b: string)
    requires Stripped(a) && Stripped(b)
    ensures Stripped(a + b)
  {
    assert a + b != [] ==> (a + b)[0] == if a != [] then a[0] else b[0];
    assert a + b != [] ==> (a + b)[|a + b| - 1] == if b != [] then b[|b| - 1] else a[|a| - 1];
  }

  /**
   * The saved text has one line per whitelisted element when no element's
   * text holds a newline: splitting it at newlines gives the texts back.
   */
  lemma PyPageTextLines(doc: Node)
    requires Texts(doc) != []
    requires forall i :: 0 <= i < |Texts(doc)| ==> '\n' !in Texts(doc)[i]
    ensures Split(PyPageText(doc), '\n') == Texts(doc)
  {
    SplitJoin(Texts(doc));
  }

  // ---------------------------------------------------------------------
  // The crawl as a function of the global state
  // ---------------------------------------------------------------------

  /** What came of a page: the fetch raised, or the saved text and the image and link lists. */
  datatype PyOutcome = FetchFailed | Saved(text: string, images: seq<string>, links: seq<string>)

  /** A call that passed the guard: the "Scraping:" line, the folder it saved under, and its page. */
  datatype PyVisit = PyVisit(url: string, depth: nat, folder: string, outcome: PyOutcome)

  /** visitedUrls, and the calls that passed the guard, in call order. */
  datatype PyState = PyState(visited: set<string>, log: seq<PyVisit>)

  /** What scrape does with the page at `url` once it has been claimed. */
  function Fetched(env: PyEnv, site: Site, url: string): (o: PyOutcome)
    ensures o.FetchFailed? <==> site(url).None?
  {
    match site(url)
    case None => FetchFailed
    case Some(doc) => Saved(PyPageText(doc), PyImages(env, url, doc), PyLinks(env, url, doc))
  }

  /** What scrape makes of every page of the site. */
  function PyPages(env: PyEnv, site: Site): string -> PyOutcome {
    url => Fetched(env, site, url)
  }

  /** The links the loop goes over: none when the fetch failed. */
  function Follow(o: PyOutcome): seq<string> {
    if o.Saved? then o.links else []
  }

  /** `visitedUrls.add(url)` together with the "Scraping:" line. */
  function Claim(st: PyState, v: PyVisit): PyState {
    PyState(st.visited + {v.url}, st.log + [v])
  }

  /** visitedUrls only grows and the calls already made stay as they were. */
  predicate Grows(st: PyState, r: PyState) {
    st.visited <= r.visited && st.log <= r.log
  }

  /** The recursion budget left at `depth`. */
  function Budget(depth: nat): nat {
    if depth < MaxRekrusion then MaxRekrusion - depth else 0
  }

  /**
   * `scrape(url, depth, folder)` from state `st`: nothing when the URL is
   * visited or the depth is at the cap; otherwise the URL is claimed, the
   * folder is computed if none was given, and, unless the fetch failed, the
   * page's links are followed one level deeper with that folder.
   */
  function Crawl(env: PyEnv, pages: string -> PyOutcome, folder: Option<string>, url: string, depth: nat, st: PyState): (r: PyState)
    ensures Grows(st, r)
    ensures depth < MaxRekrusion ==> url in r.visited
    ensures url !in st.visited && depth < MaxRekrusion ==> |r.log| > |st.log|
    decreases Budget(depth), 1, 0
  {
    if url in st.visited || depth >= MaxRekrusion then st
    else
      var f := if folder.Some? then folder.value else PyDomainFolder(env.netloc, url);
      var o := pages(url);
      CrawlLinks(env, pages, f, Follow(o), depth + 1, Claim(st, PyVisit(url, depth, f, o)))
  }

  /** The loop `for link in new_urls: if link not in visitedUrls: scrape(link, depth, folder)`. */
  function CrawlLinks(env: PyEnv, pages: string -> PyOutcome, folder: string, links: seq<string>, depth: nat, st: PyState): (r: PyState)
    ensures Grows(st, r)
    ensures depth < MaxRekrusion ==> forall l :: l in links ==> l in r.visited
    decreases Budget(depth), 2, |links|
  {
    if links == [] then st
    else
      var st' := if links[0] in st.visited then st else Crawl(env, pages, Some(folder), links[0], depth, st);
      CrawlLinks(env, pages, folder, links[1..], depth, st')
  }

  /** The same loop without the check before the call. */
  function CrawlEach(env: PyEnv, pages: string -> PyOutcome, folder: string, links: seq<string>, depth: nat, st: PyState): PyState
    decreases |links|
  {
    if links == [] then st
    else CrawlEach(env, pages, folder, links[1..], depth, Crawl(env, pages, Some(folder), links[0], depth, st))
  }

  /** The check in the loop only saves a call: scrape's own guard refuses a visited link anyway. */
  lemma {:induction false} RecheckRedundant(env: PyEnv, pages: string -> PyOutcome, folder: string, links: seq<string>, depth: nat, st: PyState)
    ensures CrawlLinks(env, pages, folder, links, depth, st) == CrawlEach(env, pages, folder, links, depth, st)
    decreases |links|
  {
    if links != [] {
      var st' := Crawl(env, pages, Some(folder), links[0], depth, st);
      assert links[0] in st.visited ==> st' == st;
      RecheckRedundant(env, pages, folder, links[1..], depth, st');
    }
  }

  /** One call past the guard: claim the URL, then follow the page's links one level deeper. */
  lemma CrawlUnfold(env: PyEnv, pages: string -> PyOutcome, folder: Option<string>, url: string, depth: nat, st: PyState)
    requires url !in st.visited && depth < MaxRekrusion
    ensures var f := if folder.Some? then folder.value else PyDomainFolder(env.netloc, url);
      Crawl(env, pages, folder, url, depth, st)
        == CrawlLinks(env, pages, f, Follow(pages(url)), depth + 1, Claim(st, PyVisit(url, depth, f, pages(url))))
  {
  }

  /** The guard: a visited URL, or a depth at the cap, leaves the state as it is. */
  lemma CrawlGuard(env: PyEnv, pages: string -> PyOutcome, folder: Option<string>, url: string, depth: nat, st: PyState)
    requires url in st.visited || depth >= MaxRekrusion
    ensures Crawl(env, pages, folder, url, depth, st) == st
  {
  }

  /**
   * A call that passes the guard marks its URL and records it as the next
   * call before anything else; when the fetch fails that is all it does.
   */
  lemma CrawlClaims(env: PyEnv, pages: string -> PyOutcome, folder: Option<string>, url: string, depth: nat, st: PyState)
    requires url !in st.visited && depth < MaxRekrusion
    ensures var r := Crawl(env, pages, folder, url, depth, st);
      var f := if folder.Some? then folder.value else PyDomainFolder(env.netloc, url);
      && |r.log| > |st.log|
      && r.log[|st.log|] == PyVisit(url, depth, f, pages(url))
      && (pages(url).FetchFailed? ==> r == Claim(st, PyVisit(url, depth, f, FetchFailed)))
  {
    var f := if folder.Some? then folder.value else PyDomainFolder(env.netloc, url);
    var v := PyVisit(url, depth, f, pages(url));
    var r := Crawl(env, pages, folder, url, depth, st);
    assert Claim(st, v).log <= r.log;
    assert Claim(st, v).log[|st.log|] == v;
  }

  // ---------------------------------------------------------------------
  // What every call adds
  // ---------------------------------------------------------------------

  /** The calls of a crawl at `depth` and under in `folder`: under the cap, in the folder, each page as fetched. */
  ghost predicate Made(env: PyEnv, pages: string -> PyOutcome, folder: string, depth: nat, vs: seq<PyVisit>) {
    forall i :: 0 <= i < |vs| ==>
      && depth <= vs[i].depth < MaxRekrusion
      && vs[i].folder == folder
      && vs[i].outcome == pages(vs[i].url)
  }

  /** Made holds of two pieces when it holds of each. */
  lemma MadeAppend(env: PyEnv, pages: string -> PyOutcome, folder: string, depth: nat, a: seq<PyVisit>, b: seq<PyVisit>)
    requires Made(env, pages, folder, depth, a) && Made(env, pages, folder, depth, b)
    ensures Made(env, pages, folder, depth, a + b)
  {
    forall i | 0 <= i < |a + b| ensures (a + b)[i] == if i < |a| then a[i] else b[i - |a|] {
    }
  }

  /**
   * The calls a crawl adds are at its depth or deeper and under the cap,
   * use the folder passed in (or, for the seed call, the one it computes),
   * and carry the page as fetched.
   */
  lemma {:induction false} CrawlMade(env: PyEnv, pages: string -> PyOutcome, folder: Option<string>, url: string, depth: nat, st: PyState)
    ensures var r := Crawl(env, pages, folder, url, depth, st);
      Made(env, pages, if folder.Some? then folder.value else PyDomainFolder(env.netloc, url), depth, r.log[|st.log|..])
    decreases Budget(depth), 1, 1
  {
    var f := if folder.Some? then folder.value else PyDomainFolder(env.netloc, url);
    if url in st.visited || depth >= MaxRekrusion {
      CrawlGuard(env, pages, folder, url, depth, st);
      assert st.log[|st.log|..] == [];
    } else {
      ClaimThenFollowMade(env, pages, f, url, depth, st);
      CrawlUnfold(env, pages, folder, url, depth, st);
    }
  }

  /** CrawlMade for a call past the guard: its own call, then the calls of the loop over its links. */
  lemma {:induction false} ClaimThenFollowMade(env: PyEnv, pages: string -> PyOutcome, f: string, url: string, depth: nat, st: PyState)
    requires url !in st.visited && depth < MaxRekrusion
    ensures var r := CrawlLinks(env, pages, f, Follow(pages(url)), depth + 1, Claim(st, PyVisit(url, depth, f, pages(url))));
      Made(env, pages, f, depth, r.log[|st.log|..])
    decreases Budget(depth), 1, 0
  {
    var v := PyVisit(url, depth, f, pages(url));
    var st1 := Claim(st, v);
    var r := CrawlLinks(env, pages, f, Follow(pages(url)), depth + 1, st1);
    CrawlLinksMade(env, pages, f, Follow(pages(url)), depth + 1, st1);
    assert r.log[|st.log|..] == [v] + r.log[|st1.log|..];
    MadeAppend(env, pages, f, depth, [v], r.log[|st1.log|..]);
  }

  /** CrawlMade for the loop over a page's links. */
  lemma {:induction false} CrawlLinksMade(env: PyEnv, pages: string -> PyOutcome, folder: string, links: seq<string>, depth: nat, st: PyState)
    ensures var r := CrawlLinks(env, pages, folder, links, depth, st);
      Made(env, pages, folder, depth, r.log[|st.log|..])
    decreases Budget(depth), 2, |links|
  {
    var r := CrawlLinks(env, pages, folder, links, depth, st);
    if links == [] {
      assert r.log[|st.log|..] == [];
    } else {
      var st' := if links[0] in st.visited then st else Crawl(env, pages, Some(folder), links[0], depth, st);
      if links[0] !in st.visited {
        CrawlMade(env, pages, Some(folder), links[0], depth, st);
      } else {
        assert st'.log[|st.log|..] == [];
      }
      CrawlLinksMade(env, pages, folder, links[1..], depth, st');
      assert r.log[|st.log|..] == st'.log[|st.log|..] + r.log[|st'.log|..];
      MadeAppend(env, pages, folder, depth, st'.log[|st.log|..], r.log[|st'.log|..]);
    }
  }

  // ---------------------------------------------------------------------
  // The ledger
  // ---------------------------------------------------------------------

  /** The URLs of the calls, in call order: the Python counterpart of Dispatch.LogUrls, over this module's visit records. */
  function PyUrls(log: seq<PyVisit>): (r: seq<string>)
    ensures |r| == |log|
    ensures forall i :: 0 <= i < |log| ==> r[i] == log[i].url
  {
    if log == [] then [] else PyUrls(log[..|log| - 1]) + [log[|log| - 1].url]
  }

  /** visitedUrls holds exactly the URLs of the calls that passed the guard, each of them once. */
  ghost predicate Exact(st: PyState) {
    NoDup(PyUrls(st.log)) && forall u {:trigger u in st.visited} :: u in st.visited <==> u in PyUrls(st.log)
  }

  /** Claiming a new URL keeps the ledger exact. */
  lemma ClaimExact(st: PyState, v: PyVisit)
    requires Exact(st) && v.url !in st.visited
    ensures Exact(Claim(st, v))
  {
    var us := PyUrls(st.log);
    var us' := PyUrls(st.log + [v]);
    assert us' == us + [v.url] by {
      assert (st.log + [v])[..|st.log|] == st.log;
    }
    forall i, j | 0 <= i < j < |us'| ensures us'[i] != us'[j] {
      if j == |us| {
        assert us'[i] == us[i];
      }
    }
  }

  /** Each URL passes the guard at most once: a crawl keeps the ledger exact. */
  lemma {:induction false} CrawlExact(env: PyEnv, pages: string -> PyOutcome, folder: Option<string>, url: string, depth: nat, st: PyState)
    requires Exact(st)
    ensures Exact(Crawl(env, pages, folder, url, depth, st))
    decreases Budget(depth), 1, 1
  {
    if url !in st.visited && depth < MaxRekrusion {
      var f := if folder.Some? then folder.value else PyDomainFolder(env.netloc, url);
      ClaimThenFollowExact(env, pages, f, url, depth, st);
      CrawlUnfold(env, pages, folder, url, depth, st);
    }
  }

  /** Claiming a new URL and then following its page's links keeps the ledger exact. */
  lemma {:induction false} ClaimThenFollowExact(env: PyEnv, pages: string -> PyOutcome, f: string, url: string, depth: nat, st: PyState)
    requires Exact(st) && url !in st.visited && depth < MaxRekrusion
    ensures Exact(CrawlLinks(env, pages, f, Follow(pages(url)), depth + 1, Claim(st, PyVisit(url, depth, f, pages(url)))))
    decreases Budget(depth), 1, 0
  {
    var v := PyVisit(url, depth, f, pages(url));
    ClaimExact(st, v);
    CrawlLinksExact(env, pages, f, Follow(pages(url)), depth + 1, Claim(st, v));
  }

  /** CrawlExact for the loop over a page's links. */
  lemma {:induction false} CrawlLinksExact(env: PyEnv, pages: string -> PyOutcome, folder: string, links: seq<string>, depth: nat, st: PyState)
    requires Exact(st)
    ensures Exact(CrawlLinks(env, pages, folder, links, depth, st))
    decreases Budget(depth), 2, |links|
  {
    if links != [] {
      if links[0] !in st.visited {
        CrawlExact(env, pages, Some(folder), links[0], depth, st);
        CrawlLinksExact(env, pages, folder, links[1..], depth, Crawl(env, pages, Some(folder), links[0], depth, st));
      } else {
        CrawlLinksExact(env, pages, folder, links[1..], depth, st);
      }
    }
  }

  // ---------------------------------------------------------------------
  // Closure under links
  // ---------------------------------------------------------------------

  /** Every link of a fetched page one level under the cap is in `visited`. */
  predicate Covered(v: PyVisit, visited: set<string>) {
    v.depth + 1 < MaxRekrusion ==> forall l :: l in Follow(v.outcome) ==> l in visited
  }

  /** Claiming more URLs keeps a page's links claimed. */
  lemma CoveredGrows(v: PyVisit, a: set<string>, b: set<string>)
    requires Covered(v, a) && a <= b
    ensures Covered(v, b)
  {
  }

  /** A log that extends `a` agrees with `a` on `a`'s calls. */
  lemma PrefixAgrees(a: seq<PyVisit>, b: seq<PyVisit>)
    requires a <= b
    ensures b[..|a|] == a && forall i :: 0 <= i < |a| ==> b[i] == a[i]
  {
  }

  /** The pages recorded from position `n` on have all their links claimed. */
  ghost predicate CoveredFrom(n: nat, r: PyState) {
    forall i :: n <= i < |r.log| ==> Covered(r.log[i], r.visited)
  }

  /** Each page a crawl fetched one level under the cap had all its links claimed by the time the crawl returned. */
  lemma {:induction false} CrawlCovered(env: PyEnv, pages: string -> PyOutcome, folder: Option<string>, url: string, depth: nat, st: PyState)
    ensures CoveredFrom(|st.log|, Crawl(env, pages, folder, url, depth, st))
    decreases Budget(depth), 1, 1
  {
    if url !in st.visited && depth < MaxRekrusion {
      var f := if folder.Some? then folder.value else PyDomainFolder(env.netloc, url);
      ClaimThenFollowCovered(env, pages, f, url, depth, st);
      CrawlUnfold(env, pages, folder, url, depth, st);
    }
  }

  /** CrawlCovered for a call past the guard: the claimed page's own links are claimed by the loop that follows them. */
  lemma {:induction false} ClaimThenFollowCovered(env: PyEnv, pages: string -> PyOutcome, f: string, url: string, depth: nat, st: PyState)
    requires url !in st.visited && depth < MaxRekrusion
    ensures CoveredFrom(|st.log|, CrawlLinks(env, pages, f, Follow(pages(url)), depth + 1, Claim(st, PyVisit(url, depth, f, pages(url)))))
    decreases Budget(depth), 1, 0
  {
    var v := PyVisit(url, depth, f, pages(url));
    var st1 := Claim(st, v);
    var r := CrawlLinks(env, pages, f, Follow(pages(url)), depth + 1, st1);
    CrawlLinksCovered(env, pages, f, Follow(pages(url)), depth + 1, st1);
    PrefixAgrees(st1.log, r.log);
    assert r.log[|st.log|] == v;
    assert Covered(v, r.visited);
  }

  /** CrawlCovered for the loop over a page's links. */
  lemma {:induction false} CrawlLinksCovered(env: PyEnv, pages: string -> PyOutcome, folder: string, links: seq<string>, depth: nat, st: PyState)
    ensures CoveredFrom(|st.log|, CrawlLinks(env, pages, folder, links, depth, st))
    decreases Budget(depth), 2, |links|
  {
    if links != [] {
      var st' := if links[0] in st.visited then st else Crawl(env, pages, Some(folder), links[0], depth, st);
      if links[0] !in st.visited {
        CrawlCovered(env, pages, Some(folder), links[0], depth, st);
      }
      assert CoveredFrom(|st.log|, st');
      var r := CrawlLinks(env, pages, folder, links, depth, st);
      assert r == CrawlLinks(env, pages, folder, links[1..], depth, st');
      CrawlLinksCovered(env, pages, folder, links[1..], depth, st');
      PrefixAgrees(st'.log, r.log);
      forall i | |st.log| <= i < |st'.log| ensures Covered(r.log[i], r.visited) {
        CoveredGrows(st'.log[i], st'.visited, r.visited);
      }
    }
  }

  // ---------------------------------------------------------------------
  // Every call after the seed comes from a link
  // ---------------------------------------------------------------------

  /** Some earlier call's page links to `url` from one level above `depth`. */
  ghost predicate Linked(log: seq<PyVisit>, url: string, depth: nat) {
    exists i :: 0 <= i < |log| && url in Follow(log[i].outcome) && depth == log[i].depth + 1
  }

  /** Every call from position `n` of the log on follows a link of a call before it. */
  ghost predicate LinkedAfter(n: nat, log: seq<PyVisit>) {
    forall j {:trigger log[..j]} :: n <= j < |log| ==> Linked(log[..j], log[j].url, log[j].depth)
  }

  /** A link found before the slice `log[..n]` is still found in any longer log. */
  lemma LinkedLonger(log: seq<PyVisit>, n: nat, url: string, depth: nat)
    requires n <= |log| && Linked(log[..n], url, depth)
    ensures Linked(log, url, depth)
  {
    var i :| 0 <= i < n && url in Follow(log[..n][i].outcome) && depth == log[..n][i].depth + 1;
    assert log[..n][i] == log[i];
  }

  /**
   * Each call a crawl adds, except the one for `url` itself, is for a link
   * of the page of a call made before it, one level up.
   */
  lemma {:induction false} CrawlLinked(env: PyEnv, pages: string -> PyOutcome, folder: Option<string>, url: string, depth: nat, st: PyState)
    ensures LinkedAfter(|st.log| + 1, Crawl(env, pages, folder, url, depth, st).log)
    decreases Budget(depth), 1, 1
  {
    if url !in st.visited && depth < MaxRekrusion {
      var f := if folder.Some? then folder.value else PyDomainFolder(env.netloc, url);
      ClaimThenFollowLinked(env, pages, f, url, depth, st);
      CrawlUnfold(env, pages, folder, url, depth, st);
    }
  }

  /** CrawlLinked for a call past the guard: the loop follows links of the page just claimed. */
  lemma {:induction false} ClaimThenFollowLinked(env: PyEnv, pages: string -> PyOutcome, f: string, url: string, depth: nat, st: PyState)
    requires url !in st.visited && depth < MaxRekrusion
    ensures LinkedAfter(|st.log| + 1, CrawlLinks(env, pages, f, Follow(pages(url)), depth + 1, Claim(st, PyVisit(url, depth, f, pages(url)))).log)
    decreases Budget(depth), 1, 0
  {
    var v := PyVisit(url, depth, f, pages(url));
    var st1 := Claim(st, v);
    assert st1.log[|st.log|] == v;
    assert forall l :: l in Follow(pages(url)) ==> Linked(st1.log, l, depth + 1);
    CrawlLinksLinked(env, pages, f, Follow(pages(url)), depth + 1, st1);
  }

  /** CrawlLinked for the loop, whose links all come from a call already made. */
  lemma {:induction false} CrawlLinksLinked(env: PyEnv, pages: string -> PyOutcome, folder: string, links: seq<string>, depth: nat, st: PyState)
    requires forall l :: l in links ==> Linked(st.log, l, depth)
    ensures LinkedAfter(|st.log|, CrawlLinks(env, pages, folder, links, depth, st).log)
    decreases Budget(depth), 2, |links|
  {
    if links != [] {
      var st' := if links[0] in st.visited then st else Crawl(env, pages, Some(folder), links[0], depth, st);
      var r := CrawlLinks(env, pages, folder, links, depth, st);
      assert r == CrawlLinks(env, pages, folder, links[1..], depth, st');
      FirstLinkLinked(env, pages, folder, links, depth, st);
      CrawlLinksLinked(env, pages, folder, links[1..], depth, st');
      PrefixAgrees(st'.log, r.log);
      forall j | |st.log| <= j < |st'.log| ensures Linked(r.log[..j], r.log[j].url, r.log[j].depth) {
        assert r.log[..j] == st'.log[..j];
      }
    }
  }

  /** The first iteration of the loop: its calls follow links, and the remaining links stay linked from the longer log. */
  lemma {:induction false} FirstLinkLinked(env: PyEnv, pages: string -> PyOutcome, folder: string, links: seq<string>, depth: nat, st: PyState)
    requires links != [] && forall l :: l in links ==> Linked(st.log, l, depth)
    ensures var st' := if links[0] in st.visited then st else Crawl(env, pages, Some(folder), links[0], depth, st);
      && LinkedAfter(|st.log|, st'.log)
      && (forall l :: l in links[1..] ==> Linked(st'.log, l, depth))
    decreases Budget(depth), 2, |links|, 0
  {
    var st' := if links[0] in st.visited then st else Crawl(env, pages, Some(folder), links[0], depth, st);
    PrefixAgrees(st.log, st'.log);
    assert links[0] in links;
    if links[0] !in st.visited {
      CrawlLinked(env, pages, Some(folder), links[0], depth, st);
      if depth < MaxRekrusion {
        CrawlClaims(env, pages, Some(folder), links[0], depth, st);
        assert Linked(st'.log[..|st.log|], st'.log[|st.log|].url, st'.log[|st.log|].depth);
      }
    }
    forall l | l in links[1..] ensures Linked(st'.log, l, depth) {
      assert l in links;
      LinkedLonger(st'.log, |st.log|, l, depth);
    }
  }

  /** One call past the guard: the claim, then the loop over the links of a saved page, and nothing more after a failed fetch. */
  lemma ScrapeStep(env: PyEnv, pages: string -> PyOutcome, folder: Option<string>, url: string, depth: nat, st: PyState, f: string, v: PyVisit)
    requires url !in st.visited && depth < MaxRekrusion
    requires f == if folder.Some? then folder.value else PyDomainFolder(env.netloc, url)
    requires v == PyVisit(url, depth, f, pages(url))
    ensures Crawl(env, pages, folder, url, depth, st)
      == if v.outcome.Saved? then CrawlLinks(env, pages, f, v.outcome.links, depth + 1, Claim(st, v)) else Claim(st, v)
  {
    CrawlUnfold(env, pages, folder, url, depth, st);
  }

  // ---------------------------------------------------------------------
  // The crawl as the code runs it
  // ---------------------------------------------------------------------

  /** The module-level visitedUrls of main.py, and the calls that passed its guard. */
  class PyScraper {
    const site: Site
    const env: PyEnv
    /** What each page of the site comes out as. */
    const pages: string -> PyOutcome
    var visitedUrls: set<string>
    var log: seq<PyVisit>

    function State(): PyState
      reads this
    {
      PyState(visitedUrls, log)
    }

    /** `pages` gives what fetching and extracting each page of the site comes out as. */
    ghost predicate Valid() {
      forall u {:trigger Fetched(env, site, u)} :: pages(u) == Fetched(env, site, u)
    }

    constructor (site: Site, env: PyEnv)
      ensures this.site == site && this.env == env && this.pages == PyPages(env, site) && Valid()
      ensures State() == PyState({}, [])
    {
      this.site, this.env, this.pages := site, env, PyPages(env, site);
      visitedUrls, log := {}, [];
    }

    /** `scrape(url, depth, base_folder)`, with None for a missing base folder. */
    method Scrape(url: string, depth: nat, baseFolder: Option<string>)
      requires Valid()
      modifies this`visitedUrls, this`log
      ensures State() == Crawl(env, pages, baseFolder, url, depth, old(State()))
      decreases Budget(depth), 1
    {
      if url in visitedUrls || depth >= MaxRekrusion {
        CrawlGuard(env, pages, baseFolder, url, depth, State());
        return;
      }
      ghost var st0 := State();
      visitedUrls := visitedUrls + {url};
      var folder := if baseFolder.Some? then baseFolder.value else PyDomainFolder(env.netloc, url);
      var o := Fetch(url);
      log := log + [PyVisit(url, depth, folder, o)];
      ScrapeStep(env, pages, baseFolder, url, depth, st0, folder, PyVisit(url, depth, folder, o));
      if o.Saved? {
        FollowLinks(o.links, depth + 1, folder);
      }
    }

    /** The request, the parse and the three extractions of scrape; a failed request ends the call with nothing to follow. */
    method Fetch(url: string) returns (o: PyOutcome)
      requires Valid()
      ensures o == pages(url)
      ensures o.FetchFailed? <==> site(url).None?
    {
      match site(url) {
        case None =>
          o := FetchFailed;
          assert o == Fetched(env, site, url);
        case Some(doc) =>
          var pageText := PyPageText(doc);
          var imgUrls := PyImages(env, url, doc);
          var newUrls := PyLinks(env, url, doc);
          o := Saved(pageText, imgUrls, newUrls);
          assert o == Fetched(env, site, url);
      }
    }

    /** The loop of scrape over `new_urls`, re-checking visitedUrls before each call. */
    method FollowLinks(links: seq<string>, depth: nat, folder: string)
      requires Valid()
      modifies this`visitedUrls, this`log
      ensures State() == CrawlLinks(env, pages, folder, links, depth, old(State()))
      decreases Budget(depth), 2
    {
      ghost var st0 := State();
      for i := 0 to |links|
        invariant CrawlLinks(env, pages, folder, links[i..], depth, State())
          == CrawlLinks(env, pages, folder, links, depth, st0)
      {
        assert links[i..][1..] == links[i + 1..];
        if links[i] !in visitedUrls {
          Scrape(links[i], depth, Some(folder));
        }
      }
    }
  }

  /**
   * A crawl from the seed with no base folder, on an empty visitedUrls:
   * the seed is the first call, every call is under the cap and saves into
   * the seed's domain folder, visitedUrls holds each call's URL exactly
   * once, every later call follows a link of an earlier page, and every
   * link of a fetched page one level under the cap was visited.
   */
  lemma SeedCrawl(env: PyEnv, pages: string -> PyOutcome, seed: string)
    ensures var r := Crawl(env, pages, None, seed, 0, PyState({}, []));
      && |r.log| > 0 && r.log[0] == PyVisit(seed, 0, PyDomainFolder(env.netloc, seed), pages(seed))
      && Exact(r)
      && Made(env, pages, PyDomainFolder(env.netloc, seed), 0, r.log)
      && (forall j {:trigger r.log[..j]} :: 0 < j < |r.log| ==> Linked(r.log[..j], r.log[j].url, r.log[j].depth))
      && (forall i :: 0 <= i < |r.log| ==> Covered(r.log[i], r.visited))
  {
    var empty := PyState({}, []);
    var r := Crawl(env, pages, None, seed, 0, empty);
    CrawlClaims(env, pages, None, seed, 0, empty);
    CrawlExact(env, pages, None, seed, 0, empty);
    CrawlMade(env, pages, None, seed, 0, empty);
    CrawlLinked(env, pages, None, seed, 0, empty);
    CrawlCovered(env, pages, None, seed, 0, empty);
    assert r.log[0..] == r.log;
  }

  /**
   * The whole run of main.py from the address read at the prompt: the seed
   * is the first call, every call is under the cap and saves into the
   * seed's domain folder, visitedUrls holds each call's URL exactly once,
   * every later call follows a link of an earlier page, and every link of a
   * fetched page one level under the cap was visited.
   */
  method ScrapeFrom(site: Site, env: PyEnv, seed: string) returns (log: seq<PyVisit>, visited: set<string>)
    ensures PyState(visited, log) == Crawl(env, PyPages(env, site), None, seed, 0, PyState({}, []))
    ensures |log| > 0 && log[0] == PyVisit(seed, 0, PyDomainFolder(env.netloc, seed), Fetched(env, site, seed))
    ensures NoDup(PyUrls(log)) && forall u :: u in visited <==> u in PyUrls(log)
    ensures forall i :: 0 <= i < |log| ==>
      && log[i].depth < MaxRekrusion
      && log[i].folder == PyDomainFolder(env.netloc, seed)
      && log[i].outcome == Fetched(env, site, log[i].url)
    ensures forall j {:trigger log[..j]} :: 0 < j < |log| ==> Linked(log[..j], log[j].url, log[j].depth)
    ensures forall i, l :: 0 <= i < |log| && l in Follow(log[i].outcome) && log[i].depth + 1 < MaxRekrusion ==>
      l in visited
  {
    var s := new PyScraper(site, env);
    s.Scrape(seed, 0, None);
    log, visited := s.log, s.visitedUrls;
    SeedCrawl(env, PyPages(env, site), seed);
  }
}
