/**
 * The part of the W3C DOM (Level 2 Core) the extractors read, and the pre-order walk that
 * every vendor's `Parser.parse` performs.
 */
module Dom {
  import opened Wrappers
  import opened Strings

  /** Node type codes of interface Node (W3C DOM Level 2 Core, section 1.2). */
  const ELEMENT_NODE: int := 1
  const ATTRIBUTE_NODE: int := 2
  const TEXT_NODE: int := 3

  /** A document tree. Attributes of an element are (name, value) pairs, read as Attr nodes. */
  datatype Node =
    | Element(name: string, attrs: seq<(string, string)>, children: seq<Node>)
    | Text(value: string)
    | Attr(name: string, value: string)

  function NodeType(n: Node): int {
    match n
    case Element(_, _, _) => ELEMENT_NODE
    case Text(_) => TEXT_NODE
    case Attr(_, _) => ATTRIBUTE_NODE
  }

  /** `getNodeName()`: the tag name, the attribute name, or "#text". */
  function NodeName(n: Node): string {
    match n
    case Element(name, _, _) => name
    case Text(_) => "#text"
    case Attr(name, _) => name
  }

  /** `getNodeValue()`: null for an element, the character data or attribute value otherwise. */
  function NodeValue(n: Node): Option<string> {
    match n
    case Element(_, _, _) => None
    case Text(v) => Some(v)
    case Attr(_, v) => Some(v)
  }

  /** `getChildNodes()`; text and attribute nodes contribute no children here. */
  function ChildNodes(n: Node): seq<Node> {
    if n.Element? then n.children else []
  }

  /** `NodeList.item(i)`: null when `i` is out of range. */
  function Item(cs: seq<Node>, i: int): (r: Option<Node>)
    ensures r.Some? <==> 0 <= i < |cs|
    ensures r.Some? ==> r.value == cs[i]
  {
    if 0 <= i < |cs| then Some(cs[i]) else None
  }

  function FirstChild(n: Node): Option<Node> { Item(ChildNodes(n), 0) }

  function LastChild(n: Node): Option<Node> { Item(ChildNodes(n), |ChildNodes(n)| - 1) }

  /** `getAttributes().getNamedItem(attrName)` on an element: the first attribute of that name. */
  function NamedItem(n: Node, attrName: string): (r: Option<Node>)
    requires n.Element?
    ensures r.Some? <==> exists i :: 0 <= i < |n.attrs| && n.attrs[i].0 == attrName
    ensures r.Some? ==> r.value.Attr? && r.value.name == attrName
  {
    FindAttr(n.attrs, attrName)
  }

  function FindAttr(attrs: seq<(string, string)>, attrName: string): (r: Option<Node>)
    ensures r.Some? <==> exists i :: 0 <= i < |attrs| && attrs[i].0 == attrName
    ensures r.Some? ==> r.value.Attr? && r.value.name == attrName
  {
    if attrs == [] then None
    else if attrs[0].0 == attrName then Some(Attr(attrName, attrs[0].1))
    else
      var r := FindAttr(attrs[1..], attrName);
      assert forall i :: 1 <= i < |attrs| ==> attrs[i] == attrs[1..][i - 1];
      r
  }

  /** The value of the named attribute, if the element has it. */
  function AttrValue(n: Node, attrName: string): Option<string>
    requires n.Element?
  {
    match NamedItem(n, attrName)
    case Some(a) => NodeValue(a)
    case None => None
  }

  // ------------------------------------------------------------------ node tests

  /**
   * `checkNode(node, type, name, value)`: null-safe; the name and the value are compared
   * ignoring case and only when given; a null node value never equals a given value.
   */
  predicate CheckNode(node: Option<Node>, nodeType: int, name: Option<string>, value: Option<string>) {
    && node.Some?
    && NodeType(node.value) == nodeType
    && (name.None? || EqualsIgnoreCase(name.value, NodeName(node.value)))
    && (value.None? || EqualsIgnoreCaseOpt(value.value, NodeValue(node.value)))
  }

  /**
   * `checkNodeWithAttr(node, type, name, attrName, attrValue)`: `checkNode` on the node without
   * a value test, then `checkNode` on its named attribute with the value test. Every caller asks
   * for an element (the source would dereference a null attribute map otherwise).
   */
  predicate CheckNodeWithAttr(node: Option<Node>, nodeType: int, name: Option<string>,
                              attrName: string, attrValue: Option<string>)
    requires nodeType == ELEMENT_NODE
  {
    && CheckNode(node, nodeType, name, None)
    && CheckNode(NamedItem(node.value, attrName), ATTRIBUTE_NODE, None, attrValue)
  }

  /** `checkNodeWithAttr` on an element, read as a statement about the element and its attribute. */
  lemma CheckNodeWithAttrMeans(node: Option<Node>, name: string, attrName: string, attrValue: string)
    ensures CheckNodeWithAttr(node, ELEMENT_NODE, Some(name), attrName, Some(attrValue))
        <==> && node.Some? && node.value.Element?
             && EqualsIgnoreCase(name, node.value.name)
             && AttrValue(node.value, attrName).Some?
             && EqualsIgnoreCase(attrValue, AttrValue(node.value, attrName).value)
  {
  }

  // ------------------------------------------------------------------ the walk

  /** A walk's state, and whether an exception (a null dereference) ended it early. */
  datatype Walked<S> = Walked(st: S, threw: bool)

  /**
   * `parse(node)`: visit the node, then recurse into each child in order. An exception
   * stops the whole walk, leaving the fields as they were when it was raised.
   */
  function Walk<S>(visit: (Node, S) -> Walked<S>, n: Node, st: S): Walked<S> {
    var w := visit(n, st);
    if w.threw then w else if n.Element? then WalkAll(visit, n.children, w.st) else w
  }

  /** The loop over `getChildNodes()`, child by child. */
  function WalkAll<S>(visit: (Node, S) -> Walked<S>, cs: seq<Node>, st: S): Walked<S> {
    if cs == [] then Walked(st, false)
    else
      var w := WalkAll(visit, cs[..|cs| - 1], st);
      if w.threw then w else Walk(visit, cs[|cs| - 1], w.st)
  }

  /** One more iteration of the loop over the children. */
  lemma WalkAllStep<S>(visit: (Node, S) -> Walked<S>, cs: seq<Node>, i: nat, st: S)
    requires i < |cs|
    ensures WalkAll(visit, cs[..i + 1], st)
         == var w := WalkAll(visit, cs[..i], st); if w.threw then w else Walk(visit, cs[i], w.st)
  {
    assert cs[..i + 1][..i] == cs[..i];
  }

  /** An exception in the first `i` children ends the loop: the remaining ones are not visited. */
  lemma {:induction false} WalkAllStops<S>(visit: (Node, S) -> Walked<S>, cs: seq<Node>, i: nat, st: S)
    requires i <= |cs| && WalkAll(visit, cs[..i], st).threw
    ensures WalkAll(visit, cs, st) == WalkAll(visit, cs[..i], st)
    decreases |cs| - i
  {
    if i < |cs| {
      WalkAllStep(visit, cs, i, st);
      WalkAllStops(visit, cs, i + 1, st);
    } else {
      assert cs[..i] == cs;
    }
  }

  /** The nodes of a tree in pre-order: a node, then each child's subtree in order. */
  function Preorder(n: Node): seq<Node> {
    [n] + if n.Element? then PreorderAll(n.children) else []
  }

  function PreorderAll(cs: seq<Node>): seq<Node> {
    if cs == [] then [] else PreorderAll(cs[..|cs| - 1]) + Preorder(cs[|cs| - 1])
  }

  /** Visiting a list of nodes in order, stopping at the first exception. */
  function Fold<S>(visit: (Node, S) -> Walked<S>, ns: seq<Node>, st: S): Walked<S> {
    if ns == [] then Walked(st, false)
    else
      var w := Fold(visit, ns[..|ns| - 1], st);
      if w.threw then w else visit(ns[|ns| - 1], w.st)
  }

  /** The number of nodes of a tree. */
  function Size(n: Node): nat {
    1 + if n.Element? then SizeAll(n.children) else 0
  }

  function SizeAll(cs: seq<Node>): nat {
    if cs == [] then 0 else SizeAll(cs[..|cs| - 1]) + Size(cs[|cs| - 1])
  }

  lemma {:induction false} FoldAppend<S>(visit: (Node, S) -> Walked<S>, a: seq<Node>, b: seq<Node>, st: S)
    ensures Fold(visit, a + b, st)
         == var w := Fold(visit, a, st); if w.threw then w else Fold(visit, b, w.st)
    decreases |b|
  {
    if b == [] {
      assert a + b == a;
    } else {
      assert (a + b)[..|a + b| - 1] == a + b[..|b| - 1];
      FoldAppend(visit, a, b[..|b| - 1], st);
    }
  }

  /**
   * The walk visits exactly the nodes of the tree, in pre-order, one after the other, and
   * stops only at an exception: no field being set ends it early.
   */
  lemma {:induction false} WalkIsPreorderFold<S>(visit: (Node, S) -> Walked<S>, n: Node, st: S)
    ensures Walk(visit, n, st) == Fold(visit, Preorder(n), st)
    decreases n, 1
  {
    var rest := if n.Element? then PreorderAll(n.children) else [];
    FoldAppend(visit, [n], rest, st);
    assert Fold(visit, [n], st) == visit(n, st) by {
      assert [n][..0] == [];
    }
    var w := visit(n, st);
    if !w.threw {
      if n.Element? {
        WalkAllIsPreorderFold(visit, n.children, w.st);
      }
    }
  }

  lemma {:induction false} WalkAllIsPreorderFold<S>(visit: (Node, S) -> Walked<S>, cs: seq<Node>, st: S)
    ensures WalkAll(visit, cs, st) == Fold(visit, PreorderAll(cs), st)
    decreases cs, 0
  {
    if cs != [] {
      var init, last := cs[..|cs| - 1], cs[|cs| - 1];
      WalkAllIsPreorderFold(visit, init, st);
      FoldAppend(visit, PreorderAll(init), Preorder(last), st);
      var w := WalkAll(visit, init, st);
      if !w.threw {
        WalkIsPreorderFold(visit, last, w.st);
      }
    }
  }

  /** The pre-order lists each node of the tree once: as many entries as the tree has nodes. */
  lemma {:induction false} PreorderSize(n: Node)
    ensures |Preorder(n)| == Size(n)
    decreases n, 1
  {
    if n.Element? {
      PreorderAllSize(n.children);
    }
  }

  lemma {:induction false} PreorderAllSize(cs: seq<Node>)
    ensures |PreorderAll(cs)| == SizeAll(cs)
    decreases cs, 0
  {
    if cs != [] {
      PreorderAllSize(cs[..|cs| - 1]);
      PreorderSize(cs[|cs| - 1]);
    }
  }

  /** When a visit throws on exactly the nodes `fails` names, so does the fold, on any of them. */
  lemma {:induction false} FoldThrowsWhere<S>(visit: (Node, S) -> Walked<S>, fails: Node -> bool, ns: seq<Node>, st: S)
    requires forall n, s :: visit(n, s).threw <==> fails(n)
    ensures Fold(visit, ns, st).threw <==> exists i :: 0 <= i < |ns| && fails(ns[i])
  {
    if ns != [] {
      var init := ns[..|ns| - 1];
      FoldThrowsWhere(visit, fails, init, st);
      assert forall i :: 0 <= i < |init| ==> init[i] == ns[i];
    }
  }

  // ------------------------------------------------------------------ single-field updates

  /** What a node does to one field: nothing, set it (possibly to null), or throw. */
  datatype Update = Keep | Assign(value: Option<string>) | Fails

  /** A field after an update that did not throw. */
  function Applied(u: Update, v: Option<string>): Option<string> {
    if u.Assign? then u.value else v
  }

  /** The value assigned by the last node that assigns one, or `init`. */
  function LastAssigned(upd: Node -> Update, ns: seq<Node>, init: Option<string>): Option<string> {
    if ns == [] then init
    else
      match upd(ns[|ns| - 1])
      case Assign(v) => v
      case _ => LastAssigned(upd, ns[..|ns| - 1], init)
  }
}
