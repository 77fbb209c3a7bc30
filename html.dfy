/**
 * The parsed document: the node tree that golang.org/x/net/html and
 * BeautifulSoup hand to the crawlers, and preorder walks over it.
 */
module Html {
  import opened Wrappers

  /** One attribute of an element, in source order. */
  datatype Attr = Attr(key: string, val: string)

  /** A node of the tree: an element, a text node, or any other node (document, comment, doctype). */
  datatype Node =
    | Element(tag: string, attrs: seq<Attr>, children: seq<Node>)
    | Text(data: string)
    | Other(children: seq<Node>)

  /**
   * What a recursive closure like `f(n) { visit(n); for c := range children { f(c) } }`
   * accumulates: `g` of every node of the tree, in preorder.
   */
  function Collect<T>(g: Node -> seq<T>, n: Node): seq<T>
    decreases n
  {
    match n
    case Element(_, _, cs) => g(n) + CollectAll(g, cs)
    case Other(cs) => g(n) + CollectAll(g, cs)
    case Text(_) => g(n)
  }

  /** Collect over a sequence of sibling trees, left to right. */
  function CollectAll<T>(g: Node -> seq<T>, ns: seq<Node>): seq<T>
    decreases ns
  {
    if ns == [] then [] else CollectAll(g, ns[..|ns| - 1]) + Collect(g, ns[|ns| - 1])
  }

  /** The pages of the web as the crawlers see them: a fetched and parsed page, or None when the fetch, the status check or the parse fails. */
  type Site = string -> Option<Node>

  /** Every node of the tree in preorder: the node, then its children's trees left to right. */
  function Preorder(n: Node): (r: seq<Node>)
    ensures |r| > 0 && r[0] == n
    decreases n
  {
    match n
    case Element(_, _, cs) => [n] + PreorderAll(cs)
    case Other(cs) => [n] + PreorderAll(cs)
    case Text(_) => [n]
  }

  /** Preorder of a sequence of sibling trees. */
  function PreorderAll(ns: seq<Node>): seq<Node>
    decreases ns
  {
    if ns == [] then [] else PreorderAll(ns[..|ns| - 1]) + Preorder(ns[|ns| - 1])
  }

  /** `g` of each node of `ns`, concatenated in order. */
  function Gather<T>(g: Node -> seq<T>, ns: seq<Node>): seq<T> {
    if ns == [] then [] else Gather(g, ns[..|ns| - 1]) + g(ns[|ns| - 1])
  }

  /** Gathering distributes over concatenation. */
  lemma {:induction false} GatherAppend<T>(g: Node -> seq<T>, a: seq<Node>, b: seq<Node>)
    ensures Gather(g, a + b) == Gather(g, a) + Gather(g, b)
    decreases |b|
  {
    if b == [] {
      assert a + b == a;
    } else {
      assert (a + b)[..|a + b| - 1] == a + b[..|b| - 1];
      assert (a + b)[|a + b| - 1] == b[|b| - 1];
      GatherAppend(g, a, b[..|b| - 1]);
    }
  }

  /** A recursive walk gathers `g` over the preorder listing of the tree. */
  lemma {:induction false} CollectIsGather<T>(g: Node -> seq<T>, n: Node)
    ensures Collect(g, n) == Gather(g, Preorder(n))
    decreases n
  {
    match n
    case Element(_, _, cs) =>
      CollectAllIsGather(g, cs);
      GatherAppend(g, [n], PreorderAll(cs));
      assert Gather(g, [n]) == g(n) by { assert [n][..0] == []; }
    case Other(cs) =>
      CollectAllIsGather(g, cs);
      GatherAppend(g, [n], PreorderAll(cs));
      assert Gather(g, [n]) == g(n) by { assert [n][..0] == []; }
    case Text(_) =>
      assert Gather(g, [n]) == g(n) by { assert [n][..0] == []; }
  }

  /** The sibling-sequence form of CollectIsGather. */
  lemma {:induction false} CollectAllIsGather<T>(g: Node -> seq<T>, ns: seq<Node>)
    ensures CollectAll(g, ns) == Gather(g, PreorderAll(ns))
    decreases ns
  {
    if ns != [] {
      CollectAllIsGather(g, ns[..|ns| - 1]);
      CollectIsGather(g, ns[|ns| - 1]);
      GatherAppend(g, PreorderAll(ns[..|ns| - 1]), Preorder(ns[|ns| - 1]));
    }
  }

  /** Collecting over the first `i + 1` siblings adds the tree of sibling `i`. */
  lemma CollectAllStep<T>(g: Node -> seq<T>, ns: seq<Node>, i: nat)
    requires i < |ns|
    ensures CollectAll(g, ns[..i + 1]) == CollectAll(g, ns[..i]) + Collect(g, ns[i])
  {
    assert ns[..i + 1][..i] == ns[..i];
  }

  /** The children a sibling loop `for c := n.FirstChild; c != nil; c = c.NextSibling` visits. */
  function Children(n: Node): (cs: seq<Node>)
    ensures forall i :: 0 <= i < |cs| ==> cs[i] < n
  {
    match n
    case Element(_, _, cs) => cs
    case Other(cs) => cs
    case Text(_) => []
  }

  /** A walk is the node's own contribution followed by its children's walks. */
  lemma CollectUnfold<T>(g: Node -> seq<T>, n: Node)
    ensures Collect(g, n) == g(n) + CollectAll(g, Children(n))
  {
    assert CollectAll(g, []) == [];
  }

  /** An accumulator holding the walks of the first `i` children, extended by child `i`'s walk. */
  lemma CollectAllExtend<T>(g: Node -> seq<T>, acc0: seq<T>, acc: seq<T>, cs: seq<Node>, i: nat)
    requires i < |cs| && acc == acc0 + CollectAll(g, cs[..i])
    ensures acc + Collect(g, cs[i]) == acc0 + CollectAll(g, cs[..i + 1])
  {
    CollectAllStep(g, cs, i);
  }

  /** The node's own contribution, then the walks of all its children, make the walk of the node. */
  lemma CollectFinish<T>(g: Node -> seq<T>, acc0: seq<T>, acc1: seq<T>, acc: seq<T>, n: Node)
    requires acc1 == acc0 + g(n)
    requires acc == acc1 + CollectAll(g, Children(n)[..|Children(n)|])
    ensures acc == acc0 + Collect(g, n)
  {
    assert Children(n)[..|Children(n)|] == Children(n);
    CollectUnfold(g, n);
  }
}
