/**
 * The extraction half of Go's scrapePage (go_solution/main.go:146-216): the
 * closure `f` that collects image addresses and page text in one preorder
 * walk, cleanText, and the closure `findLinks` that collects link
 * addresses, de-duplicated per page through `urlSet`.
 */
module Extract {
  import opened Wrappers
  import opened Strings
  import opened Html
  import opened Urls

  /** normalizeURL(pageUrl, ·) for the page being scraped. */
  type Normalizer = string -> Result<string, UrlError>

  /** The tags whose direct text children are collected. */
  const TextTags: set<string> := {"p", "h1", "h2", "h3", "h4", "h5", "h6", "li", "a", "span"}

  // ---------------------------------------------------------------------
  // Specification of the walks
  // ---------------------------------------------------------------------

  /** The values of the attributes named `key` that normalise, normalised, in attribute order. */
  function Normalized(normalize: Normalizer, attrs: seq<Attr>, key: string): seq<string> {
    if attrs == [] then []
    else
      var a := attrs[|attrs| - 1];
      Normalized(normalize, attrs[..|attrs| - 1], key)
        + (if a.key == key && normalize(a.val).Ok? then [normalize(a.val).value] else [])
  }

  /** Normalising the first `i + 1` attributes adds attribute `i`'s normalised value, if it has one. */
  lemma NormalizedStep(normalize: Normalizer, attrs: seq<Attr>, key: string, i: nat)
    requires i < |attrs|
    ensures Normalized(normalize, attrs[..i + 1], key) == Normalized(normalize, attrs[..i], key)
      + (if attrs[i].key == key && normalize(attrs[i].val).Ok? then [normalize(attrs[i].val).value] else [])
  {
    assert attrs[..i + 1][..i] == attrs[..i];
  }

  /** The image addresses one node contributes: its `src` values if it is an `img` element. */
  function ImagesAt(normalize: Normalizer, n: Node): seq<string> {
    if n.Element? && n.tag == "img" then Normalized(normalize, n.attrs, "src") else []
  }

  /** ImagesAt as the per-node rule of a walk. */
  function ImageRule(normalize: Normalizer): Node -> seq<string> {
    n => ImagesAt(normalize, n)
  }

  /** Each text child's data followed by one blank, in order. */
  function DirectText(cs: seq<Node>): string {
    if cs == [] then []
    else DirectText(cs[..|cs| - 1]) + (if cs[|cs| - 1].Text? then cs[|cs| - 1].data + " " else "")
  }

  /**
   * The text one node contributes: a non-`img` element with a whitelisted
   * tag and at least one child gives its direct text, then one newline.
   */
  function OwnText(n: Node): (r: string)
    ensures r != "" <==> n.Element? && n.tag != "img" && n.tag in TextTags && n.children != []
    ensures r != "" ==> r[|r| - 1] == '\n' && r[..|r| - 1] == DirectText(n.children)
  {
    if n.Element? && n.tag != "img" && n.tag in TextTags && n.children != [] then DirectText(n.children) + "\n"
    else ""
  }

  /** The link addresses one node contributes: its `href` values if it is an `a` element. */
  function LinksAt(normalize: Normalizer, n: Node): seq<string> {
    if n.Element? && n.tag == "a" then Normalized(normalize, n.attrs, "href") else []
  }

  /** LinksAt as the per-node rule of a walk. */
  function LinkRule(normalize: Normalizer): Node -> seq<string> {
    n => LinksAt(normalize, n)
  }

  /** `pageText` after `f(doc)`, before cleaning. */
  function PageText(doc: Node): string {
    Collect(OwnText, doc)
  }

  /** `imgUrls` after `f(doc)`. */
  function Images(normalize: Normalizer, doc: Node): seq<string> {
    Collect(ImageRule(normalize), doc)
  }

  /** Every normalised `href` of every `a` element, in preorder, duplicates included. */
  function Hrefs(normalize: Normalizer, doc: Node): seq<string> {
    Collect(LinkRule(normalize), doc)
  }

  /** A normalised value is listed exactly when some attribute named `key` normalises to it. */
  lemma {:induction false} NormalizedMembers(normalize: Normalizer, attrs: seq<Attr>, key: string, x: string)
    ensures x in Normalized(normalize, attrs, key) <==>
      exists j :: 0 <= j < |attrs| && attrs[j].key == key && normalize(attrs[j].val) == Ok(x)
    decreases |attrs|
  {
    if attrs != [] {
      var init := attrs[..|attrs| - 1];
      NormalizedMembers(normalize, init, key, x);
      if x in Normalized(normalize, init, key) {
        var j :| 0 <= j < |init| && init[j].key == key && normalize(init[j].val) == Ok(x);
        assert attrs[j] == init[j];
      }
      if exists j :: 0 <= j < |attrs| && attrs[j].key == key && normalize(attrs[j].val) == Ok(x) {
        var j :| 0 <= j < |attrs| && attrs[j].key == key && normalize(attrs[j].val) == Ok(x);
        if j < |init| { assert init[j] == attrs[j]; }
      }
    }
  }

  /**
   * `imgUrls` holds, for each node in preorder, the images it contributes;
   * an address is there exactly when some `src` of some `img` element of the
   * tree normalises to it.
   */
  lemma ImagesSpec(normalize: Normalizer, doc: Node, x: string)
    ensures Images(normalize, doc) == Gather(ImageRule(normalize), Preorder(doc))
    ensures x in Images(normalize, doc) <==>
      exists k, j :: 0 <= k < |Preorder(doc)| && Preorder(doc)[k].Element? && Preorder(doc)[k].tag == "img"
        && 0 <= j < |Preorder(doc)[k].attrs| && Preorder(doc)[k].attrs[j].key == "src"
        && normalize(Preorder(doc)[k].attrs[j].val) == Ok(x)
  {
    var ns := Preorder(doc);
    CollectIsGather(ImageRule(normalize), doc);
    GatherMembers(ImageRule(normalize), ns, x);
    forall k | 0 <= k < |ns|
      ensures x in ImagesAt(normalize, ns[k]) <==>
        ns[k].Element? && ns[k].tag == "img" &&
        exists j :: 0 <= j < |ns[k].attrs| && ns[k].attrs[j].key == "src" && normalize(ns[k].attrs[j].val) == Ok(x)
    {
      if ns[k].Element? && ns[k].tag == "img" {
        NormalizedMembers(normalize, ns[k].attrs, "src", x);
      }
    }
  }

  /** The link walk's counterpart of ImagesSpec, for the `href`s of `a` elements. */
  lemma HrefsSpec(normalize: Normalizer, doc: Node, x: string)
    ensures Hrefs(normalize, doc) == Gather(LinkRule(normalize), Preorder(doc))
    ensures x in Hrefs(normalize, doc) <==>
      exists k, j :: 0 <= k < |Preorder(doc)| && Preorder(doc)[k].Element? && Preorder(doc)[k].tag == "a"
        && 0 <= j < |Preorder(doc)[k].attrs| && Preorder(doc)[k].attrs[j].key == "href"
        && normalize(Preorder(doc)[k].attrs[j].val) == Ok(x)
  {
    var ns := Preorder(doc);
    CollectIsGather(LinkRule(normalize), doc);
    GatherMembers(LinkRule(normalize), ns, x);
    forall k | 0 <= k < |ns|
      ensures x in LinksAt(normalize, ns[k]) <==>
        ns[k].Element? && ns[k].tag == "a" &&
        exists j :: 0 <= j < |ns[k].attrs| && ns[k].attrs[j].key == "href" && normalize(ns[k].attrs[j].val) == Ok(x)
    {
      if ns[k].Element? && ns[k].tag == "a" {
        NormalizedMembers(normalize, ns[k].attrs, "href", x);
      }
    }
  }

  /** Text comes only from whitelisted elements: the page text is their contributions in preorder. */
  lemma PageTextSpec(doc: Node)
    ensures PageText(doc) == Gather(OwnText, Preorder(doc))
    ensures (forall k :: 0 <= k < |Preorder(doc)| ==> !(Preorder(doc)[k].Element? && Preorder(doc)[k].tag in TextTags))
      ==> PageText(doc) == ""
  {
    CollectIsGather(OwnText, doc);
    var ns := Preorder(doc);
    if forall k :: 0 <= k < |ns| ==> !(ns[k].Element? && ns[k].tag in TextTags) {
      GatherEmpty(ns);
    }
  }

  /** Gathering OwnText over nodes none of which is a whitelisted element gives no text. */
  lemma {:induction false} GatherEmpty(ns: seq<Node>)
    requires forall k :: 0 <= k < |ns| ==> !(ns[k].Element? && ns[k].tag in TextTags)
    ensures Gather(OwnText, ns) == ""
    decreases |ns|
  {
    if ns != [] {
      GatherEmpty(ns[..|ns| - 1]);
    }
  }

  /** Something is gathered exactly when some node of the sequence contributes it. */
  lemma {:induction false} GatherMembers<T>(g: Node -> seq<T>, ns: seq<Node>, x: T)
    ensures x in Gather(g, ns) <==> exists k :: 0 <= k < |ns| && x in g(ns[k])
    decreases |ns|
  {
    if ns != [] {
      var init := ns[..|ns| - 1];
      GatherMembers(g, init, x);
      assert Gather(g, ns) == Gather(g, init) + g(ns[|ns| - 1]);
      if x in Gather(g, init) {
        var k :| 0 <= k < |init| && x in g(init[k]);
        assert ns[k] == init[k];
      } else if x in g(ns[|ns| - 1]) {
        assert 0 <= |ns| - 1 < |ns|;
      }
      if exists k :: 0 <= k < |ns| && x in g(ns[k]) {
        var k :| 0 <= k < |ns| && x in g(ns[k]);
        if k < |init| {
          assert init[k] == ns[k];
          assert x in Gather(g, init);
        }
      }
    }
  }

  // ---------------------------------------------------------------------
  // Per-page de-duplication through urlSet
  // ---------------------------------------------------------------------

  /** `seen` followed by each element of `xs` that is not already listed, in order. */
  function AddNew(seen: seq<string>, xs: seq<string>): seq<string> {
    if xs == [] then seen
    else
      var before := AddNew(seen, xs[..|xs| - 1]);
      var x := xs[|xs| - 1];
      if x in before then before else before + [x]
  }

  /** `xs` without repetitions, keeping first occurrences: every element of `xs`, each once. */
  function Dedup(xs: seq<string>): (r: seq<string>)
    ensures NoDup(r)
    ensures forall x :: x in r <==> x in xs
  {
    AddNewFacts([], xs);
    AddNew([], xs)
  }

  /** No element occurs twice. */
  predicate NoDup(xs: seq<string>) {
    forall i, j :: 0 <= i < j < |xs| ==> xs[i] != xs[j]
  }

  /** The index of the first occurrence of `x` in `xs`. */
  function IndexOf(xs: seq<string>, x: string): (k: nat)
    requires x in xs
    ensures k < |xs| && xs[k] == x && x !in xs[..k]
  {
    if xs[0] == x then 0
    else
      var k := 1 + IndexOf(xs[1..], x);
      assert xs[..k] == [xs[0]] + xs[1..][..k - 1];
      k
  }

  /** An index holding `x` with no earlier `x` is the first occurrence. */
  lemma IndexOfUnique(xs: seq<string>, x: string, k: nat)
    requires k < |xs| && xs[k] == x && x !in xs[..k]
    ensures IndexOf(xs, x) == k
  {
  }

  /** `r` lists the distinct elements of `xs`, each once, in the order of their first occurrence in `xs`. */
  ghost predicate FirstOccurrenceOrder(r: seq<string>, xs: seq<string>) {
    && NoDup(r)
    && (forall x :: x in r <==> x in xs)
    && forall i, j :: 0 <= i < j < |r| ==> r[i] in xs && r[j] in xs && IndexOf(xs, r[i]) < IndexOf(xs, r[j])
  }

  /** AddNew over two pieces is AddNew over the first, then over the second. */
  lemma {:induction false} AddNewAppend(seen: seq<string>, xs: seq<string>, ys: seq<string>)
    ensures AddNew(seen, xs + ys) == AddNew(AddNew(seen, xs), ys)
    decreases |ys|
  {
    if ys == [] {
      assert xs + ys == xs;
    } else {
      assert (xs + ys)[..|xs + ys| - 1] == xs + ys[..|ys| - 1];
      assert (xs + ys)[|xs + ys| - 1] == ys[|ys| - 1];
      AddNewAppend(seen, xs, ys[..|ys| - 1]);
    }
  }

  /** One more element, or none: AddNew over `xs + ys` with `|ys| <= 1` is one step of AddNew. */
  lemma AddNewSnoc(seen: seq<string>, xs: seq<string>, ys: seq<string>)
    requires |ys| <= 1
    ensures AddNew(seen, xs + ys) ==
      var before := AddNew(seen, xs);
      if ys == [] || ys[0] in before then before else before + ys
  {
    if ys == [] {
      assert xs + ys == xs;
    } else {
      assert (xs + ys)[..|xs + ys| - 1] == xs;
    }
  }

  /** A de-duplicating accumulator over the first `i` attributes, extended by attribute `i`'s normalised value if it is new. */
  lemma AddNewNormalizedStep(normalize: Normalizer, attrs: seq<Attr>, key: string, i: nat, seen: seq<string>, acc: seq<string>)
    requires i < |attrs| && acc == AddNew(seen, Normalized(normalize, attrs[..i], key))
    ensures AddNew(seen, Normalized(normalize, attrs[..i + 1], key)) ==
      if attrs[i].key == key && normalize(attrs[i].val).Ok? && normalize(attrs[i].val).value !in acc
      then acc + [normalize(attrs[i].val).value] else acc
  {
    NormalizedStep(normalize, attrs, key, i);
    var ys := if attrs[i].key == key && normalize(attrs[i].val).Ok? then [normalize(attrs[i].val).value] else [];
    AddNewSnoc(seen, Normalized(normalize, attrs[..i], key), ys);
  }

  /** A de-duplicating accumulator over the walks of the first `i` children, extended by child `i`'s walk. */
  lemma AddNewExtend(g: Node -> seq<string>, seen: seq<string>, acc: seq<string>, cs: seq<Node>, i: nat)
    requires i < |cs| && acc == AddNew(seen, CollectAll(g, cs[..i]))
    ensures AddNew(acc, Collect(g, cs[i])) == AddNew(seen, CollectAll(g, cs[..i + 1]))
  {
    CollectAllStep(g, cs, i);
    AddNewAppend(seen, CollectAll(g, cs[..i]), Collect(g, cs[i]));
  }

  /** AddNew keeps `seen` in front, adds exactly the elements of `xs`, and repeats nothing new. */
  lemma {:induction false} AddNewFacts(seen: seq<string>, xs: seq<string>)
    ensures |seen| <= |AddNew(seen, xs)| && AddNew(seen, xs)[..|seen|] == seen
    ensures forall x :: x in AddNew(seen, xs) <==> x in seen || x in xs
    ensures NoDup(seen) ==> NoDup(AddNew(seen, xs))
    decreases |xs|
  {
    if xs != [] {
      var init := xs[..|xs| - 1];
      AddNewFacts(seen, init);
      var before := AddNew(seen, init);
      assert forall x :: x in xs <==> x in init || x == xs[|xs| - 1] by {
        assert xs == init + [xs[|xs| - 1]];
      }
      if xs[|xs| - 1] !in before {
        assert (before + [xs[|xs| - 1]])[..|seen|] == before[..|seen|];
      }
    }
  }

  /** Dedup lists the distinct elements of its input in first-occurrence order. */
  lemma {:induction false} DedupOrder(xs: seq<string>)
    ensures FirstOccurrenceOrder(Dedup(xs), xs)
    decreases |xs|
  {
    AddNewFacts([], xs);
    if xs != [] {
      var init := xs[..|xs| - 1];
      var y := xs[|xs| - 1];
      DedupOrder(init);
      var before := Dedup(init);
      assert xs == init + [y];
      forall z | z in init
        ensures IndexOf(xs, z) == IndexOf(init, z)
      {
        var k := IndexOf(init, z);
        assert xs[..k] == init[..k];
        IndexOfUnique(xs, z, k);
      }
      if y !in before {
        assert y !in init;
        assert xs[..|init|] == init;
        IndexOfUnique(xs, y, |init|);
        var r := before + [y];
        forall i, j | 0 <= i < j < |r|
          ensures r[i] in xs && r[j] in xs && IndexOf(xs, r[i]) < IndexOf(xs, r[j])
        {
          assert r[i] == before[i] && r[i] in init;
          if j < |before| {
            assert r[j] == before[j];
          } else {
            assert IndexOf(init, r[i]) < |init|;
          }
        }
      }
    }
  }

  /**
   * `foundUrls` is duplicate-free, in first-occurrence preorder, and holds
   * exactly the `href`s of `a` elements that normalise, normalised.
   */
  lemma FoundUrlsSpec(normalize: Normalizer, doc: Node)
    ensures FirstOccurrenceOrder(Dedup(Hrefs(normalize, doc)), Hrefs(normalize, doc))
  {
    DedupOrder(Hrefs(normalize, doc));
  }

  // ---------------------------------------------------------------------
  // The walks as the code runs them
  // ---------------------------------------------------------------------

  /** The variables the closures of scrapePage capture and update. */
  class PageWalk {
    const normalize: Normalizer
    var pageText: string
    var imgUrls: seq<string>
    var foundUrls: seq<string>
    var urlSet: set<string>

    /** urlSet marks exactly the links already appended to foundUrls. */
    ghost predicate Valid()
      reads this
    {
      forall x :: x in urlSet <==> x in foundUrls
    }

    constructor (normalize: Normalizer)
      ensures this.normalize == normalize
      ensures pageText == "" && imgUrls == [] && foundUrls == [] && urlSet == {}
      ensures Valid()
    {
      this.normalize := normalize;
      pageText, imgUrls, foundUrls, urlSet := "", [], [], {};
    }

    /** The loop over an `img` element's attributes: each `src` that normalises is appended. */
    method AddImages(attrs: seq<Attr>)
      modifies this`imgUrls
      ensures imgUrls == old(imgUrls) + Normalized(normalize, attrs, "src")
    {
      for i := 0 to |attrs|
        invariant imgUrls == old(imgUrls) + Normalized(normalize, attrs[..i], "src")
      {
        assert attrs[..i + 1][..i] == attrs[..i];
        if attrs[i].key == "src" {
          var r := normalize(attrs[i].val);
          if r.Ok? {
            imgUrls := imgUrls + [r.value];
          }
        }
      }
      assert attrs[..|attrs|] == attrs;
    }

    /** The loop over a whitelisted element's children: each text child's data and a blank. */
    method AddDirectText(cs: seq<Node>)
      modifies this`pageText
      ensures pageText == old(pageText) + DirectText(cs)
    {
      for i := 0 to |cs|
        invariant pageText == old(pageText) + DirectText(cs[..i])
      {
        assert cs[..i + 1][..i] == cs[..i];
        if cs[i].Text? {
          pageText := pageText + cs[i].data + " ";
        }
      }
      assert cs[..|cs|] == cs;
    }

    /** The body of `f` before its loop over the children. */
    method Visit(n: Node)
      modifies this`pageText, this`imgUrls
      ensures pageText == old(pageText) + OwnText(n)
      ensures imgUrls == old(imgUrls) + ImagesAt(normalize, n)
    {
      if n.Element? && n.tag == "img" {
        AddImages(n.attrs);
      } else if n.Element? && n.tag in TextTags {
        if n.children != [] {
          AddDirectText(n.children);
          pageText := pageText + "\n";
        }
      }
    }

    /** The closure `f`: images of `img` elements, else text of whitelisted elements, then every child. */
    method F(n: Node)
      modifies this`pageText, this`imgUrls
      ensures pageText == old(pageText) + PageText(n)
      ensures imgUrls == old(imgUrls) + Images(normalize, n)
      decreases n
    {
      ghost var text00, imgs00 := pageText, imgUrls;
      Visit(n);
      ghost var text0, imgs0 := pageText, imgUrls;
      var cs := Children(n);
      for i := 0 to |cs|
        invariant pageText == text0 + CollectAll(OwnText, cs[..i])
        invariant imgUrls == imgs0 + CollectAll(ImageRule(normalize), cs[..i])
      {
        CollectAllExtend(OwnText, text0, pageText, cs, i);
        CollectAllExtend(ImageRule(normalize), imgs0, imgUrls, cs, i);
        F(cs[i]);
      }
      CollectFinish(OwnText, text00, text0, pageText, n);
      CollectFinish(ImageRule(normalize), imgs00, imgs0, imgUrls, n);
    }

    /** The loop over an `a` element's attributes: each `href` that normalises is appended unless urlSet has it. */
    method AddLinks(attrs: seq<Attr>)
      requires Valid()
      modifies this`foundUrls, this`urlSet
      ensures Valid()
      ensures foundUrls == AddNew(old(foundUrls), Normalized(normalize, attrs, "href"))
    {
      for i := 0 to |attrs|
        invariant Valid()
        invariant foundUrls == AddNew(old(foundUrls), Normalized(normalize, attrs[..i], "href"))
      {
        AddNewNormalizedStep(normalize, attrs, "href", i, old(foundUrls), foundUrls);
        if attrs[i].key == "href" {
          var r := normalize(attrs[i].val);
          if r.Ok? {
            if r.value !in urlSet {
              urlSet := urlSet + {r.value};
              foundUrls := foundUrls + [r.value];
            }
          }
        }
      }
      assert attrs[..|attrs|] == attrs;
    }

    /** The closure `findLinks`: each new normalised `href` of an `a` element, then every child. */
    method FindLinks(n: Node)
      requires Valid()
      modifies this`foundUrls, this`urlSet
      ensures Valid()
      ensures foundUrls == AddNew(old(foundUrls), Hrefs(normalize, n))
      decreases n
    {
      if n.Element? && n.tag == "a" {
        AddLinks(n.attrs);
      }
      ghost var found0 := foundUrls;
      assert found0 == AddNew(old(foundUrls), LinksAt(normalize, n));
      var cs := Children(n);
      for i := 0 to |cs|
        invariant Valid()
        invariant foundUrls == AddNew(found0, CollectAll(LinkRule(normalize), cs[..i]))
      {
        AddNewExtend(LinkRule(normalize), found0, foundUrls, cs, i);
        FindLinks(cs[i]);
      }
      assert cs[..|cs|] == cs;
      CollectUnfold(LinkRule(normalize), n);
      AddNewAppend(old(foundUrls), LinksAt(normalize, n), CollectAll(LinkRule(normalize), cs));
    }
  }

  /**
   * The extraction scrapePage performs on a parsed page: the cleaned text
   * it saves, the image addresses it downloads, and the links it returns.
   */
  method ExtractPage(normalize: Normalizer, doc: Node) returns (text: string, images: seq<string>, links: seq<string>)
    ensures text == CleanText(PageText(doc))
    ensures images == Images(normalize, doc)
    ensures links == Dedup(Hrefs(normalize, doc))
  {
    var w := new PageWalk(normalize);
    w.F(doc);
    assert "" + PageText(doc) == PageText(doc) && [] + Images(normalize, doc) == Images(normalize, doc);
    text := CleanText(w.pageText);
    images := w.imgUrls;
    w.FindLinks(doc);
    links := w.foundUrls;
    assert links == AddNew([], Hrefs(normalize, doc));
  }
}
