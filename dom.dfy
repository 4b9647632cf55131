/** The parsed XML the converter walks: the part of the DOM it touches.
    Comments, CDATA sections and processing instructions are not modelled. */
module Dom {

  /** A DOM node: character data, or an element with its attributes and its
      child nodes in document order. */
  datatype Node =
    | Text(value: string)
    | Element(tag: string, attrs: map<string, string>, children: seq<Node>)

  /** `node.childNodes`: a text node has none. */
  function Children(n: Node): seq<Node> {
    if n.Text? then [] else n.children
  }

  /** `element.getAttribute(name)`: the empty string when it is absent. */
  function Attr(e: Node, name: string): (v: string)
    requires e.Element?
    ensures name in e.attrs ==> v == e.attrs[name]
    ensures name !in e.attrs ==> v == ""
  {
    if name in e.attrs then e.attrs[name] else ""
  }

  /** `node.nodeValue` as `"%s"` prints it: an element's is `None`. */
  function NodeValue(n: Node): string {
    if n.Text? then n.value else "None"
  }

  /** No node of `ns` is a text node, so asking each for its `tagName` is safe. */
  predicate AllElements(ns: seq<Node>) {
    forall i :: 0 <= i < |ns| ==> ns[i].Element?
  }

  /** The number of nodes in a tree; every recursion of the converter goes to
      a node of smaller size. */
  function Size(n: Node): nat
    decreases n
  {
    match n
    case Text(_) => 1
    case Element(_, _, kids) => 1 + SizeOf(kids)
  }

  function SizeOf(ns: seq<Node>): nat
    decreases ns
  {
    if ns == [] then 0 else Size(ns[0]) + SizeOf(ns[1..])
  }

  /** The elements tagged `tag` in the forest `ns`, in document order
      (each node before its descendants). */
  function Descendants(ns: seq<Node>, tag: string): (r: seq<Node>)
    ensures forall i :: 0 <= i < |r| ==> r[i].Element? && r[i].tag == tag
    decreases ns
  {
    if ns == [] then [] else SelfAndBelow(ns[0], tag) + Descendants(ns[1..], tag)
  }

  function SelfAndBelow(n: Node, tag: string): (r: seq<Node>)
    ensures forall i :: 0 <= i < |r| ==> r[i].Element? && r[i].tag == tag
    decreases n
  {
    match n
    case Text(_) => []
    case Element(t, _, kids) => (if t == tag then [n] else []) + Descendants(kids, tag)
  }

  /** `element.getElementsByTagName(tag)`: its descendants, not itself. */
  function ElementsByTag(e: Node, tag: string): (r: seq<Node>)
    ensures forall i :: 0 <= i < |r| ==> r[i].Element? && r[i].tag == tag
  {
    Descendants(Children(e), tag)
  }

  /** `document.getElementsByTagName(tag)` for the document whose root element
      is `root`: the root counts too. */
  function DocumentElementsByTag(root: Node, tag: string): (r: seq<Node>)
    ensures forall i :: 0 <= i < |r| ==> r[i].Element? && r[i].tag == tag
  {
    Descendants([root], tag)
  }

  /** Searching two forests one after the other finds the matches of the
      first, then those of the second. */
  lemma {:induction false} DescendantsAppend(a: seq<Node>, b: seq<Node>, tag: string)
    ensures Descendants(a + b, tag) == Descendants(a, tag) + Descendants(b, tag)
    decreases a
  {
    if a == [] {
      assert a + b == b;
    } else {
      assert (a + b)[0] == a[0];
      assert (a + b)[1..] == a[1..] + b;
      DescendantsAppend(a[1..], b, tag);
    }
  }

  /** `getElementsByTagName` walks the children in order, and gives each child
      (when it matches) before the matches below it: a preorder. */
  lemma ElementsByTagPreorder(e: Node, tag: string, i: int)
    requires 0 <= i < |Children(e)|
    ensures ElementsByTag(e, tag) ==
      Descendants(Children(e)[..i], tag)
      + (if Children(e)[i].Element? && Children(e)[i].tag == tag then [Children(e)[i]] else [])
      + ElementsByTag(Children(e)[i], tag)
      + Descendants(Children(e)[i + 1..], tag)
  {
    var kids := Children(e);
    var rest := [kids[i]] + kids[i + 1..];
    assert kids == kids[..i] + rest;
    DescendantsAppend(kids[..i], rest, tag);
    assert rest[0] == kids[i] && rest[1..] == kids[i + 1..];
    assert Descendants(rest, tag) == SelfAndBelow(kids[i], tag) + Descendants(kids[i + 1..], tag);
  }

  /** Every matching child is found, and so is every match below a child. */
  lemma ElementsByTagComplete(e: Node, tag: string, i: int)
    requires 0 <= i < |Children(e)|
    ensures Children(e)[i].Element? && Children(e)[i].tag == tag ==> Children(e)[i] in ElementsByTag(e, tag)
    ensures forall x :: x in ElementsByTag(Children(e)[i], tag) ==> x in ElementsByTag(e, tag)
  {
    ElementsByTagPreorder(e, tag, i);
  }

  /** The receiver is not among its own matches. */
  lemma ElementsByTagExcludesSelf(e: Node, tag: string)
    ensures e !in ElementsByTag(e, tag)
  {
    if e in ElementsByTag(e, tag) {
      var i :| 0 <= i < |ElementsByTag(e, tag)| && ElementsByTag(e, tag)[i] == e;
      ElementsByTagSmaller(e, tag, i);
    }
  }

  /** On a document the root comes first when it matches, then the matches
      below it. */
  lemma DocumentElementsByTagRoot(root: Node, tag: string)
    ensures DocumentElementsByTag(root, tag) ==
      (if root.Element? && root.tag == tag then [root] else []) + ElementsByTag(root, tag)
  {
    assert [root][0] == root && [root][1..] == [];
    assert Descendants([root], tag) == SelfAndBelow(root, tag) + Descendants([], tag);
  }

  /** A member of a forest is no larger than the whole forest. */
  lemma {:induction false} MemberSize(ns: seq<Node>, x: Node)
    requires x in ns
    ensures Size(x) <= SizeOf(ns)
    decreases ns
  {
    if ns[0] != x {
      MemberSize(ns[1..], x);
    }
  }

  /** A child is smaller than its parent. */
  lemma ChildSmaller(n: Node, i: int)
    requires 0 <= i < |Children(n)|
    ensures Size(Children(n)[i]) < Size(n)
  {
    MemberSize(Children(n), Children(n)[i]);
  }

  /** Any member of a node's children is smaller than the node. */
  lemma MemberOfChildrenSmaller(n: Node, x: Node)
    requires x in Children(n)
    ensures Size(x) < Size(n)
  {
    MemberSize(Children(n), x);
  }

  /** Every element `getElementsByTagName` finds below `n` is smaller than `n`. */
  lemma ElementsByTagSmaller(n: Node, tag: string, i: int)
    requires 0 <= i < |ElementsByTag(n, tag)|
    ensures Size(ElementsByTag(n, tag)[i]) < Size(n)
  {
    DescendantsSize(Children(n), tag, i);
  }

  lemma {:induction false} DescendantsSize(ns: seq<Node>, tag: string, i: int)
    requires 0 <= i < |Descendants(ns, tag)|
    ensures Size(Descendants(ns, tag)[i]) <= SizeOf(ns)
    decreases ns
  {
    var head := SelfAndBelow(ns[0], tag);
    if i < |head| {
      SelfAndBelowSize(ns[0], tag, i);
    } else {
      DescendantsSize(ns[1..], tag, i - |head|);
    }
  }

  lemma {:induction false} SelfAndBelowSize(n: Node, tag: string, i: int)
    requires 0 <= i < |SelfAndBelow(n, tag)|
    ensures Size(SelfAndBelow(n, tag)[i]) <= Size(n)
    decreases n
  {
    match n
    case Element(t, _, kids) =>
      if t != tag || i > 0 {
        var j := if t == tag then i - 1 else i;
        DescendantsSize(kids, tag, j);
      }
  }
}
