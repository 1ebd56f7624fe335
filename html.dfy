/**
 * The part of a BeautifulSoup tree the rewriter reads and edits.
 *
 * A tree is a sequence of nodes in document order; node 0 is the
 * `BeautifulSoup` object itself and every other node names its parent, which
 * comes before it. Parsing, serialisation and CSS selection are not modelled:
 * a tree is given, and selections are inputs.
 *
 * Edits never delete a node from the sequence:
 *  - `decompose()` puts the node in `decomposed`: it is taken out of its
 *    parent and it and everything below it are destroyed.
 *  - `replace_with("")` puts the node in `blanked`: an empty string now stands
 *    at its place among its parent's children, and the node with its subtree
 *    hangs, intact, outside the document.
 *  - `unwrap()` re-parents the node's children to its parent and takes the
 *    node out.
 */
module Html {
  import opened Wrappers

  datatype Node =
    | Element(name: string, attrs: map<string, string>, classes: seq<string>, parent: nat)
    | Text(text: string, parent: nat)

  datatype Tree = Tree(nodes: seq<Node>, decomposed: set<nat>, blanked: set<nat>)

  /** The node a node hangs from in the parsed structure (none for the root). */
  function Up(nodes: seq<Node>, i: nat): (r: Option<nat>)
    ensures r.Some? ==> r.value < i < |nodes|
  {
    if 0 < i < |nodes| && nodes[i].parent < i then Some(nodes[i].parent) else None
  }

  /** `a` is among `elem.parents`. */
  predicate IsAncestor(nodes: seq<Node>, a: nat, i: nat)
    decreases i
  {
    match Up(nodes, i)
    case None => false
    case Some(p) => p == a || IsAncestor(nodes, a, p)
  }

  lemma {:induction false} AncestorBelow(nodes: seq<Node>, a: nat, i: nat)
    requires IsAncestor(nodes, a, i)
    ensures a < i < |nodes|
    decreases i
  {
    var p := Up(nodes, i).value;
    if p != a {
      AncestorBelow(nodes, a, p);
    }
  }

  /** The nearest of `elem.parents` that passes `test`. */
  function FirstAncestor(nodes: seq<Node>, i: nat, test: Node -> bool): (r: Option<nat>)
    decreases i
    ensures r.Some? ==> r.value < i < |nodes| && test(nodes[r.value]) && IsAncestor(nodes, r.value, i)
  {
    match Up(nodes, i)
    case None => None
    case Some(p) => if test(nodes[p]) then Some(p) else FirstAncestor(nodes, p, test)
  }

  /** There is a passing ancestor exactly when some ancestor passes. */
  lemma {:induction false} FirstAncestorIff(nodes: seq<Node>, i: nat, test: Node -> bool)
    ensures FirstAncestor(nodes, i, test).Some? <==>
      exists a: nat :: a < |nodes| && IsAncestor(nodes, a, i) && test(nodes[a])
    decreases i
  {
    match Up(nodes, i)
    case None =>
      assert forall a :: !IsAncestor(nodes, a, i);
    case Some(p) =>
      FirstAncestorIff(nodes, p, test);
      if !test(nodes[p]) {
        assert forall a: nat :: a < |nodes| && IsAncestor(nodes, a, i) && test(nodes[a]) ==> IsAncestor(nodes, a, p);
      }
  }

  function TagNamed(name: string): Node -> bool {
    (n: Node) => n.Element? && n.name == name
  }

  /** `has_parent_tagged`: the nearest ancestor with that tag name. */
  function HasParentTagged(nodes: seq<Node>, i: nat, name: string): (r: Option<nat>)
    ensures r.Some? ==> r.value < |nodes| && IsAncestor(nodes, r.value, i) && nodes[r.value].Element? && nodes[r.value].name == name
  {
    FirstAncestor(nodes, i, TagNamed(name))
  }

  predicate IsCodeBlock(n: Node) {
    n.Element? && (n.name == "code" || n.name == "pre")
  }

  /** `is_in_code`: the node has a `<code>` parent or a `<pre>` parent, at any depth. */
  predicate IsInCode(nodes: seq<Node>, i: nat): (r: bool)
    ensures r <==> HasParentTagged(nodes, i, "code").Some? || HasParentTagged(nodes, i, "pre").Some?
  {
    FirstAncestorIff(nodes, i, IsCodeBlock);
    FirstAncestorIff(nodes, i, TagNamed("code"));
    FirstAncestorIff(nodes, i, TagNamed("pre"));
    assert forall a :: 0 <= a < |nodes| ==> (IsCodeBlock(nodes[a]) <==> TagNamed("code")(nodes[a]) || TagNamed("pre")(nodes[a]));
    FirstAncestor(nodes, i, IsCodeBlock).Some?
  }

  /** `is_child_of`: the first node the selector matches is an ancestor (an empty match is falsy). */
  predicate IsChildOf(nodes: seq<Node>, i: nat, selected: seq<nat>) {
    |selected| > 0 && IsAncestor(nodes, selected[0], i)
  }

  /** Some ancestor of `i`, not `i` itself, is in `s`. */
  predicate AncestorIn(nodes: seq<Node>, i: nat, s: set<nat>)
    decreases i
  {
    match Up(nodes, i)
    case None => false
    case Some(p) => p in s || AncestorIn(nodes, p, s)
  }

  /** `AncestorIn` is "some ancestor is in the set". */
  lemma {:induction false} AncestorInIff(nodes: seq<Node>, i: nat, s: set<nat>)
    ensures AncestorIn(nodes, i, s) <==> exists a :: a in s && IsAncestor(nodes, a, i)
    decreases i
  {
    match Up(nodes, i)
    case None =>
    case Some(p) =>
      AncestorInIff(nodes, p, s);
      assert forall a :: IsAncestor(nodes, a, i) <==> a == p || IsAncestor(nodes, a, p);
  }

  /** The node, or one above it, was decomposed: it no longer has attributes or contents. */
  predicate Destroyed(t: Tree, i: nat) {
    i in t.decomposed || AncestorIn(t.nodes, i, t.decomposed)
  }

  /** The node, or one above it, was replaced by an empty string: it hangs outside the document. */
  predicate Detached(t: Tree, i: nat) {
    i in t.blanked || AncestorIn(t.nodes, i, t.blanked)
  }

  /** The node is in the document. */
  predicate Live(t: Tree, i: nat) {
    i < |t.nodes| && !Destroyed(t, i) && !Detached(t, i)
  }

  /** `find_all`: the live descendants of the root passing `test`, in document order (all of them: FindAllComplete). */
  function FindAll(t: Tree, test: Node -> bool): (r: seq<nat>)
    ensures forall k :: 0 <= k < |r| ==> 0 < r[k] < |t.nodes| && Live(t, r[k]) && test(t.nodes[r[k]])
    ensures forall k, l :: 0 <= k < l < |r| ==> r[k] < r[l]
  {
    FindFrom(t, test, 1)
  }

  function FindFrom(t: Tree, test: Node -> bool, from: nat): (r: seq<nat>)
    decreases |t.nodes| - from
    ensures forall k :: 0 <= k < |r| ==> from <= r[k] < |t.nodes| && Live(t, r[k]) && test(t.nodes[r[k]])
    ensures forall k, l :: 0 <= k < l < |r| ==> r[k] < r[l]
  {
    if from >= |t.nodes| then []
    else
      var rest := FindFrom(t, test, from + 1);
      if Live(t, from) && test(t.nodes[from]) then [from] + rest else rest
  }

  /** Every live descendant passing the test is found. */
  lemma {:induction false} FindFromComplete(t: Tree, test: Node -> bool, from: nat, i: nat)
    requires from <= i < |t.nodes| && Live(t, i) && test(t.nodes[i])
    ensures i in FindFrom(t, test, from)
    decreases |t.nodes| - from
  {
    if i > from {
      FindFromComplete(t, test, from + 1, i);
    }
  }

  lemma FindAllComplete(t: Tree, test: Node -> bool, i: nat)
    requires 0 < i < |t.nodes| && Live(t, i) && test(t.nodes[i])
    ensures i in FindAll(t, test)
  {
    FindFromComplete(t, test, 1, i);
  }

  /** The first live element with that name: `soup.body`, `soup.html`, `picture.find("img")` without its scope. */
  function FindFirst(t: Tree, name: string): (r: Option<nat>)
    ensures r.Some? ==> Live(t, r.value) && TagNamed(name)(t.nodes[r.value])
  {
    var all := FindAll(t, TagNamed(name));
    if |all| == 0 then None else Some(all[0])
  }

  /** Nothing found means no live element has that name; something found is the first such in document order. */
  lemma FindFirstIff(t: Tree, name: string, i: nat)
    requires 0 < i < |t.nodes| && Live(t, i) && TagNamed(name)(t.nodes[i])
    ensures FindFirst(t, name).Some? && FindFirst(t, name).value <= i
  {
    FindAllComplete(t, TagNamed(name), i);
  }

  /** `elem.parent`: None for the root and for a node taken out of the tree. */
  function ParentOf(t: Tree, i: nat): (r: Option<nat>)
    ensures r.Some? ==> r == Up(t.nodes, i)
    // a decomposed or blanked node has no parent; any other node has its parent in the tree
    ensures i in t.decomposed || i in t.blanked ==> r.None?
    ensures i !in t.decomposed && i !in t.blanked ==> r == Up(t.nodes, i)
  {
    if i in t.decomposed || i in t.blanked then None else Up(t.nodes, i)
  }

  /** The nearest child of `q` before `k` that is still among `q`'s children. */
  function SiblingBefore(t: Tree, q: nat, k: nat): (r: Option<nat>)
    decreases k
    ensures r.Some? ==> q < r.value < k && r.value < |t.nodes| && t.nodes[r.value].parent == q && r.value !in t.decomposed
    ensures r.Some? ==> forall j :: r.value < j < k && j < |t.nodes| && t.nodes[j].parent == q ==> j in t.decomposed
    ensures r.None? ==> forall j :: q < j < k && j < |t.nodes| && t.nodes[j].parent == q ==> j in t.decomposed
  {
    if k <= q + 1 then None
    else if k - 1 < |t.nodes| && t.nodes[k - 1].parent == q && k - 1 !in t.decomposed then Some(k - 1)
    else SiblingBefore(t, q, k - 1)
  }

  /**
   * `elem.previous_sibling`: the nearest earlier child of the same parent still
   * in place (an empty string standing for a blanked one counts), or None.
   */
  function PreviousSibling(t: Tree, i: nat): (r: Option<nat>)
    ensures r.Some? ==> ParentOf(t, i).Some? && r.value < i && r.value < |t.nodes|
                        && t.nodes[r.value].parent == ParentOf(t, i).value && r.value !in t.decomposed
    // the nearest one: every child of the parent in between is decomposed
    ensures r.Some? ==> forall j :: r.value < j < i && j < |t.nodes| && t.nodes[j].parent == ParentOf(t, i).value ==> j in t.decomposed
    ensures r.None? && ParentOf(t, i).Some? ==>
      forall j :: ParentOf(t, i).value < j < i && j < |t.nodes| && t.nodes[j].parent == ParentOf(t, i).value ==> j in t.decomposed
  {
    match ParentOf(t, i)
    case None => None
    case Some(q) => SiblingBefore(t, q, i)
  }

  /** `elem.contents`: the children still in place, in order. */
  function Contents(t: Tree, p: nat): (r: seq<nat>)
    ensures forall k :: 0 <= k < |r| ==> p < r[k] < |t.nodes| && t.nodes[r[k]].parent == p && r[k] !in t.decomposed
    ensures forall k, l :: 0 <= k < l < |r| ==> r[k] < r[l]
  {
    ContentsFrom(t, p, p + 1)
  }

  function ContentsFrom(t: Tree, p: nat, from: nat): (r: seq<nat>)
    decreases |t.nodes| - from
    ensures forall k :: 0 <= k < |r| ==> from <= r[k] < |t.nodes| && t.nodes[r[k]].parent == p && r[k] !in t.decomposed
    ensures forall k, l :: 0 <= k < l < |r| ==> r[k] < r[l]
  {
    if from >= |t.nodes| then []
    else
      var rest := ContentsFrom(t, p, from + 1);
      if t.nodes[from].parent == p && from !in t.decomposed then [from] + rest else rest
  }

  /** Every child of `p` still in place is listed by `elem.contents`. */
  lemma ContentsComplete(t: Tree, p: nat, c: nat)
    requires p < c < |t.nodes| && t.nodes[c].parent == p && c !in t.decomposed
    ensures c in Contents(t, p)
  {
    ContentsFromComplete(t, p, p + 1, c);
  }

  lemma {:induction false} ContentsFromComplete(t: Tree, p: nat, from: nat, c: nat)
    requires from <= c < |t.nodes| && t.nodes[c].parent == p && c !in t.decomposed
    ensures c in ContentsFrom(t, p, from)
    decreases |t.nodes| - from
  {
    if from < c {
      ContentsFromComplete(t, p, from + 1, c);
    }
  }

  /** `picture.find("img")` found something: a live `<img>` below `p`. */
  predicate HasImgBelow(t: Tree, p: nat) {
    exists k :: p < k < |t.nodes| && Live(t, k) && TagNamed("img")(t.nodes[k]) && IsAncestor(t.nodes, p, k)
  }

  /** `decompose()`. */
  function WithDecomposed(t: Tree, i: nat): (r: Tree)
    ensures r.nodes == t.nodes && r.blanked == t.blanked && r.decomposed == t.decomposed + {i}
  {
    t.(decomposed := t.decomposed + {i})
  }

  /** `replace_with("")`. */
  function WithBlanked(t: Tree, i: nat): (r: Tree)
    ensures r.nodes == t.nodes && r.decomposed == t.decomposed && r.blanked == t.blanked + {i}
  {
    t.(blanked := t.blanked + {i})
  }

  /** The node with its parent replaced. */
  function WithParent(n: Node, q: nat): Node {
    match n
    case Element(name, attrs, classes, _) => Element(name, attrs, classes, q)
    case Text(text, _) => Text(text, q)
  }

  /** `unwrap()`: the node's children move up to its parent and the node is taken out. */
  function Unwrapped(t: Tree, u: nat): (r: Tree)
    requires u < |t.nodes|
    ensures |r.nodes| == |t.nodes| && r.blanked == t.blanked && r.decomposed == t.decomposed + {u}
    ensures forall k :: 0 <= k < |t.nodes| && t.nodes[k].parent != u ==> r.nodes[k] == t.nodes[k]
    ensures forall k :: 0 <= k < |t.nodes| && t.nodes[k].parent == u ==> r.nodes[k] == WithParent(t.nodes[k], t.nodes[u].parent)
  {
    var q := t.nodes[u].parent;
    Tree(seq(|t.nodes|, k requires 0 <= k < |t.nodes| => if t.nodes[k].parent == u then WithParent(t.nodes[k], q) else t.nodes[k]),
         t.decomposed + {u}, t.blanked)
  }

  /** The node with one attribute set (nothing happens to text). */
  function SetAttr(n: Node, name: string, value: string): (r: Node)
    ensures n.Element? ==> r == n.(attrs := n.attrs[name := value])
    ensures n.Text? ==> r == n
  {
    match n
    case Element(tag, attrs, classes, parent) => Element(tag, attrs[name := value], classes, parent)
    case Text(_, _) => n
  }

  /** The node with one attribute deleted, if it had it. */
  function DelAttr(n: Node, name: string): (r: Node)
    ensures n.Element? ==> r == n.(attrs := n.attrs - {name})
    ensures n.Text? ==> r == n
  {
    match n
    case Element(tag, attrs, classes, parent) => Element(tag, attrs - {name}, classes, parent)
    case Text(_, _) => n
  }

  /** The parsed document, edited in place. */
  class Soup {
    var nodes: seq<Node>
    var decomposed: set<nat>
    var blanked: set<nat>

    function State(): Tree
      reads this
    {
      Tree(nodes, decomposed, blanked)
    }

    constructor(t: Tree)
      ensures State() == t
    {
      nodes := t.nodes;
      decomposed := t.decomposed;
      blanked := t.blanked;
    }

    /** `elem.decompose()`. */
    method Decompose(i: nat)
      modifies this
      ensures State() == WithDecomposed(old(State()), i)
    {
      decomposed := decomposed + {i};
    }

    /** `elem.replace_with("")`. */
    method ReplaceWithEmpty(i: nat)
      modifies this
      ensures State() == WithBlanked(old(State()), i)
    {
      blanked := blanked + {i};
    }

    /** An attribute edit: node `i` takes its new value. */
    method SetNode(i: nat, n: Node)
      requires i < |nodes|
      modifies this
      ensures nodes == old(nodes)[i := n] && decomposed == old(decomposed) && blanked == old(blanked)
    {
      nodes := nodes[i := n];
    }

    /** `elem.unwrap()`. */
    method Unwrap(u: nat)
      requires u < |nodes|
      modifies this
      ensures State() == Unwrapped(old(State()), u)
    {
      var q := nodes[u].parent;
      var i := 0;
      var next := nodes;
      while i < |nodes|
        invariant 0 <= i <= |nodes| && |next| == |nodes|
        invariant forall k :: 0 <= k < |nodes| ==>
          next[k] == if k < i && nodes[k].parent == u then WithParent(nodes[k], q) else nodes[k]
      {
        if nodes[i].parent == u {
          next := next[i := WithParent(nodes[i], q)];
        }
        i := i + 1;
      }
      nodes := next;
      decomposed := decomposed + {u};
    }
  }
}
