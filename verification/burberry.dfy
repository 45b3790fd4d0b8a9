/**
 * The Burberry product-page filter: the URL names the product (id and name), the DOM walk
 * looks for the product image (and the price), and a page with an image gets its metadata.
 */
module Burberry {
  import opened Wrappers
  import opened Strings
  import opened Search
  import opened Dom
  import opened Decimals
  import opened Metadata

  // ================================================================== product URLs

  // The product URL pattern `http://us\.burberry\.com/.*\/(.+)/sku-(\d+)-(.+)/`, found
  // anywhere in the URL, has two literal pieces besides the closing "/".

  /** The literal the pattern starts with. */
  const URL_PREFIX: string := "http://us.burberry.com/"

  /** The literal that ends group 1 and opens group 2. */
  const SKU: string := "/sku-"

  /**
   * A match is fixed by four positions: `start` of the prefix, the `slash` the first `.*` runs
   * up to, the `sku` where "/sku-" begins (group 1 lies between), and the `close`-ing "/" that
   * ends group 3.
   */
  datatype UrlMatch = UrlMatch(start: nat, slash: nat, sku: nat, close: nat)

  /** Group 2, `\d+` followed by "-", is the whole digit run after "/sku-". */
  function Group2End(s: string, b: nat): nat { DigitEnd(s, b + |SKU|) }

  /** The first `.*` runs from the prefix's end to a "/" at `a`. */
  predicate SlashOk(s: string, p: nat, a: nat) {
    p + |URL_PREFIX| <= a < |s| && LineFree(s, p + |URL_PREFIX|, a) && s[a] == '/'
  }

  /** Group 1 `(.+)` is `s[a+1..b]`, then "/sku-", the digits and "-". */
  predicate SkuOk(s: string, a: nat, b: nat) {
    && a + 1 < b && LineFree(s, a + 1, b)
    && HasAt(s, b, SKU)
    && Group2End(s, b) > b + |SKU| && Group2End(s, b) < |s| && s[Group2End(s, b)] == '-'
  }

  /** Group 3 `(.+)` is `s[e2+1..d]`, then "/". */
  predicate TailAt(s: string, e2: nat, d: nat) {
    e2 + 1 < d < |s| && s[d] == '/' && LineFree(s, e2 + 1, d)
  }

  /** The pattern matches with these four positions. */
  predicate Matches(s: string, p: nat, a: nat, b: nat, d: nat) {
    HasAt(s, p, URL_PREFIX) && SlashOk(s, p, a) && SkuOk(s, a, b) && TailAt(s, Group2End(s, b), d)
  }

  function TailPred(s: string, e2: nat): nat -> bool { (d: nat) => TailAt(s, e2, d) }

  predicate SkuAt(s: string, a: nat, b: nat) {
    SkuOk(s, a, b) && LastWhere(Group2End(s, b) + 2, |s|, TailPred(s, Group2End(s, b))).Some?
  }

  function SkuPred(s: string, a: nat): nat -> bool { (b: nat) => SkuAt(s, a, b) }

  predicate SlashAt(s: string, p: nat, a: nat) {
    SlashOk(s, p, a) && LastWhere(a + 2, |s|, SkuPred(s, a)).Some?
  }

  function SlashPred(s: string, p: nat): nat -> bool { (a: nat) => SlashAt(s, p, a) }

  predicate StartsAt(s: string, p: nat) {
    HasAt(s, p, URL_PREFIX) && LastWhere(p + |URL_PREFIX|, |s|, SlashPred(s, p)).Some?
  }

  function StartPred(s: string): nat -> bool { (p: nat) => StartsAt(s, p) }

  /**
   * `matcher.find()`: the leftmost start, then the longest `.*`, the longest group 1 and the
   * longest group 3 that still let the pattern match.
   */
  function FindMatch(s: string): (m: Option<UrlMatch>)
    ensures m.Some? ==> Matches(s, m.value.start, m.value.slash, m.value.sku, m.value.close)
  {
    match FirstWhere(0, |s|, StartPred(s))
    case None => None
    case Some(p) =>
      match LastWhere(p + |URL_PREFIX|, |s|, SlashPred(s, p))
      case None => None
      case Some(a) =>
        match LastWhere(a + 2, |s|, SkuPred(s, a))
        case None => None
        case Some(b) =>
          match LastWhere(Group2End(s, b) + 2, |s|, TailPred(s, Group2End(s, b)))
          case None => None
          case Some(d) => Some(UrlMatch(p, a, b, d))
  }

  /** `m` comes no later than (p, a, b, d) in the order the matcher tries matches. */
  predicate TriedFirst(m: UrlMatch, p: nat, a: nat, b: nat, d: nat) {
    || m.start < p
    || (m.start == p && m.slash > a)
    || (m.start == p && m.slash == a && m.sku > b)
    || (m.start == p && m.slash == a && m.sku == b && m.close >= d)
  }

  lemma MatchesIsFound(s: string, p: nat, a: nat, b: nat, d: nat)
    requires Matches(s, p, a, b, d)
    ensures SkuAt(s, a, b) && SlashAt(s, p, a) && StartsAt(s, p)
  {
    assert TailPred(s, Group2End(s, b))(d);
    assert SkuPred(s, a)(b);
    assert SlashPred(s, p)(a);
  }

  /**
   * The match `find()` reports is a match and the first one the matcher tries; there is none
   * exactly when it reports none.
   */
  lemma FindMatchIsLeftmostGreedy(s: string)
    ensures FindMatch(s).None? <==> forall p: nat, a: nat, b: nat, d: nat :: !Matches(s, p, a, b, d)
    ensures FindMatch(s).Some? ==>
      forall p: nat, a: nat, b: nat, d: nat :: Matches(s, p, a, b, d) ==> TriedFirst(FindMatch(s).value, p, a, b, d)
  {
    var m := FindMatch(s);
    forall p: nat, a: nat, b: nat, d: nat | Matches(s, p, a, b, d)
      ensures m.Some? && TriedFirst(m.value, p, a, b, d)
    {
      MatchesIsFound(s, p, a, b, d);
      var p0 := FirstWhere(0, |s|, StartPred(s));
      assert StartPred(s)(p);
      if p0.value == p {
        var a0 := LastWhere(p + |URL_PREFIX|, |s|, SlashPred(s, p));
        assert SlashPred(s, p)(a);
        if a0.value == a {
          var b0 := LastWhere(a + 2, |s|, SkuPred(s, a));
          assert SkuPred(s, a)(b);
          if b0.value == b {
            var e2 := Group2End(s, b);
            var d0 := LastWhere(e2 + 2, |s|, TailPred(s, e2));
            assert TailPred(s, e2)(d);
          }
        }
      }
    }
  }

  /** Group 1, the name in the path. */
  function Group1(s: string, m: UrlMatch): string
    requires Matches(s, m.start, m.slash, m.sku, m.close)
  {
    s[m.slash + 1..m.sku]
  }

  /** Group 2, the item number. */
  function Group2(s: string, m: UrlMatch): (g: string)
    requires Matches(s, m.start, m.slash, m.sku, m.close)
    ensures |g| > 0 && AllDigits(g)
  {
    s[m.sku + |SKU|..Group2End(s, m.sku)]
  }

  /** Group 3, the name after the item number. */
  function Group3(s: string, m: UrlMatch): string
    requires Matches(s, m.start, m.slash, m.sku, m.close)
  {
    s[Group2End(s, m.sku) + 1..m.close]
  }

  /** What step 1 of `filter` reads from a product URL. */
  datatype Product = Product(itemNumber: string, productTitle: string)

  /**
   * Step 1 of `filter`: both names in the URL must agree ignoring case; the id is the digit
   * string as written and the title is the second name with '-' read as ' '.
   */
  function ProductOf(url: string): Option<Product> {
    match FindMatch(url)
    case None => None
    case Some(m) =>
      if EqualsIgnoreCase(Group1(url, m), Group3(url, m)) then
        Some(Product(Group2(url, m), ReplaceChar(Group3(url, m), '-', ' ')))
      else None
  }

  /**
   * A URL names a product exactly when it matches and its two names agree ignoring case; the
   * id is then a non-empty digit string (never reparsed, so any length and leading zeros are
   * kept) and the title has the second name's length, with no '-' left in it.
   */
  lemma ProductOfMeans(url: string)
    ensures ProductOf(url).Some? <==>
      FindMatch(url).Some? && EqualsIgnoreCase(Group1(url, FindMatch(url).value), Group3(url, FindMatch(url).value))
    ensures ProductOf(url).Some? ==>
      var m := FindMatch(url).value;
      var pr := ProductOf(url).value;
      && pr.itemNumber == Group2(url, m) && |pr.itemNumber| > 0 && AllDigits(pr.itemNumber)
      && |pr.productTitle| == |Group3(url, m)|
      && (forall i :: 0 <= i < |pr.productTitle| ==> pr.productTitle[i] != '-')
      && (forall i :: 0 <= i < |pr.productTitle| && Group3(url, m)[i] != '-' ==> pr.productTitle[i] == Group3(url, m)[i])
      && (forall i :: 0 <= i < |pr.productTitle| && Group3(url, m)[i] == '-' ==> pr.productTitle[i] == ' ')
  {
    var fm := FindMatch(url);
    if fm.Some? && EqualsIgnoreCase(Group1(url, fm.value), Group3(url, fm.value)) {
      assert ProductOf(url) == Some(Product(Group2(url, fm.value), ReplaceChar(Group3(url, fm.value), '-', ' ')));
    }
  }

  // ================================================================== prices

  /**
   * Where `$` of java.util.regex (no MULTILINE flag) matches: at the end of the input, or
   * before a line terminator (or "\r\n") that ends it.
   */
  predicate AtInputEnd(s: string, i: nat) {
    || i == |s|
    || (i == |s| - 1 && IsLineTerminator(s[i]))
    || (i == |s| - 2 && s[i] == '\r' && s[i + 1] == '\n')
  }

  function AsWrittenPred(s: string): nat -> bool { (i: nat) => AtInputEnd(s, i) && FloatAt(s, i) }

  /**
   * The price pattern as written, `$(\d+\.\d+)`, whose `$` is the end-of-input anchor: the
   * position where `find()` would match, if any.
   */
  function PriceMatchAsWritten(s: string): Option<nat> {
    FirstWhere(0, |s| + 1, AsWrittenPred(s))
  }

  /** The pattern as written never matches: digits cannot follow the end of the input. */
  lemma PriceMatchAsWrittenNeverMatches(s: string)
    ensures PriceMatchAsWritten(s).None?
  {
  }

  /**
   * Group 1 of that match, as `matcher.group(1)` would give it after a successful `find()`:
   * the decimal at the matching position.
   */
  function PriceGroupAsWritten(s: string): Option<string> {
    match PriceMatchAsWritten(s)
    case None => None
    case Some(i) => if FloatAt(s, i) then Some(FloatText(s, i)) else None
  }

  /** On the price text "$12.50" the pattern as written finds nothing, the intended one "12.50". */
  lemma PriceCounterexample()
    ensures PriceMatchAsWritten("$12.50").None?
    ensures PriceMatch("$12.50") == Some("12.50")
  {
    var s := "$12.50";
    PriceMatchAsWrittenNeverMatches(s);
    assert DigitEnd(s, 1) == 3;
    assert DigitEnd(s, 4) == 6;
    assert DollarAt(s, 0);
    assert FloatText(s, 1) == "12.50";
  }

  /** The evidently intended pattern `\$(\d+\.\d+)`: a dollar sign, then a decimal literal. */
  predicate DollarAt(s: string, i: nat) {
    i < |s| && s[i] == '$' && FloatAt(s, i + 1)
  }

  function DollarPred(s: string): nat -> bool { (i: nat) => DollarAt(s, i) }

  /**
   * Group 1 of the leftmost match of `\$(\d+\.\d+)`: the decimal after the first "$" that is
   * followed by one; it is always a decimal literal.
   */
  function PriceMatch(s: string): (r: Option<string>)
    ensures r.Some? ==> IsDecimalLiteral(r.value)
  {
    var i := FirstWhere(0, |s|, DollarPred(s));
    if i.None? then None
    else
      FloatTextIsLiteral(s, i.value + 1);
      Some(FloatText(s, i.value + 1))
  }

  /** A text with a "$" followed by a decimal always yields a price: the one after the first such "$". */
  lemma PriceMatchMeans(s: string)
    ensures PriceMatch(s).None? <==> forall i: nat :: !DollarAt(s, i)
    ensures PriceMatch(s).Some? ==>
      exists i: nat :: && DollarAt(s, i) && PriceMatch(s).value == FloatText(s, i + 1)
                       && forall j: nat :: j < i ==> !DollarAt(s, j)
  {
    var k := FirstWhere(0, |s|, DollarPred(s));
    if k.None? {
      forall i: nat | i < |s| ensures !DollarAt(s, i) { assert !DollarPred(s)(i); }
    } else {
      var i := k.value;
      assert DollarPred(s)(i);
      forall j: nat | j < i ensures !DollarAt(s, j) { assert !DollarPred(s)(j); }
      assert DollarAt(s, i) && PriceMatch(s).value == FloatText(s, i + 1);
    }
  }

  // ================================================================== the extractor

  /** The fields of the page parser. */
  datatype Fields = Fields(itemNumber: string, price: Option<string>, imageURL: Option<string>)

  /** `checkElementNodeWithClass(node, name, cls)`. */
  predicate CheckElementNodeWithClass(node: Node, name: string, cls: string) {
    CheckNodeWithAttr(Some(node), ELEMENT_NODE, Some(name), "class", Some(cls))
  }

  predicate IsPriceSpan(n: Node) { CheckElementNodeWithClass(n, "span", "product-price-amount") }

  predicate IsImageDiv(n: Node) { CheckElementNodeWithClass(n, "div", "product-image") }

  /** The index of the first child that is not a text node (`|cs|` if all are). */
  function TextRunEnd(cs: seq<Node>): (k: nat)
    ensures k <= |cs|
    ensures forall i :: 0 <= i < k ==> cs[i].Text?
    ensures k < |cs| ==> !cs[k].Text?
  {
    if cs == [] || !cs[0].Text? then 0
    else
      var k := TextRunEnd(cs[1..]);
      assert forall i :: 1 <= i < |cs| ==> cs[i] == cs[1..][i - 1];
      k + 1
  }

  /** The text of a run of text nodes, concatenated. */
  function Texts(cs: seq<Node>): string
    requires forall i :: 0 <= i < |cs| ==> cs[i].Text?
  {
    if cs == [] then "" else Texts(cs[..|cs| - 1]) + cs[|cs| - 1].value
  }

  /**
   * The first child after `normalize()`, which merges adjacent text nodes and drops empty
   * ones: the leading text run as one node when it is not empty, else the first other child.
   */
  function NormalizedFirst(cs: seq<Node>): Option<Node> {
    var k := TextRunEnd(cs);
    var t := Texts(cs[..k]);
    if t != "" then Some(Text(t)) else if k < |cs| then Some(cs[k]) else None
  }

  lemma {:induction false} TextsEmpty(cs: seq<Node>)
    requires forall i :: 0 <= i < |cs| ==> cs[i].Text?
    ensures Texts(cs) == "" <==> forall i :: 0 <= i < |cs| ==> cs[i].value == ""
  {
    if cs != [] {
      TextsEmpty(cs[..|cs| - 1]);
    }
  }

  /** After `normalize()` an element has no first child exactly when all its children are empty texts. */
  lemma NormalizedFirstNone(cs: seq<Node>)
    ensures NormalizedFirst(cs).None? <==> forall i :: 0 <= i < |cs| ==> cs[i].Text? && cs[i].value == ""
  {
    var k := TextRunEnd(cs);
    TextsEmpty(cs[..k]);
    assert forall i :: 0 <= i < k ==> cs[..k][i] == cs[i];
  }

  /**
   * A price span's children after `normalize()`: no first child throws; a first child that is
   * text on which the price pattern (as written) finds a match assigns group 1 of it.
   */
  function ChildPrice(cs: seq<Node>): Update {
    match NormalizedFirst(cs)
    case None => Fails
    case Some(first) =>
      if first.Text? && PriceGroupAsWritten(first.value).Some? then Assign(PriceGroupAsWritten(first.value)) else Keep
  }

  /** The elements `getChildWithTypeAndName(parent, type, name)` accepts. */
  predicate Wanted(n: Node, nodeType: int, name: Option<string>) {
    NodeType(n) == nodeType && (name.None? || EqualsIgnoreCase(name.value, NodeName(n)))
  }

  function WantedPred(cs: seq<Node>, nodeType: int, name: Option<string>): nat -> bool {
    (i: nat) => i < |cs| && Wanted(cs[i], nodeType, name)
  }

  /** The first child of that type and name (ignoring case), or null. */
  function ChildWithTypeAndName(parent: Node, nodeType: int, name: Option<string>): (r: Option<Node>)
    ensures r.None? <==> forall i :: 0 <= i < |ChildNodes(parent)| ==> !Wanted(ChildNodes(parent)[i], nodeType, name)
    ensures r.Some? ==> exists i :: && 0 <= i < |ChildNodes(parent)| && r.value == ChildNodes(parent)[i]
                                    && Wanted(r.value, nodeType, name)
                                    && forall j :: 0 <= j < i ==> !Wanted(ChildNodes(parent)[j], nodeType, name)
  {
    var cs := ChildNodes(parent);
    match FirstWhere(0, |cs|, WantedPred(cs, nodeType, name))
    case None =>
      assert forall i :: 0 <= i < |cs| ==> !Wanted(cs[i], nodeType, name) by {
        forall i | 0 <= i < |cs| ensures !Wanted(cs[i], nodeType, name) {
          assert !WantedPred(cs, nodeType, name)(i);
        }
      }
      None
    case Some(i) =>
      assert WantedPred(cs, nodeType, name)(i);
      assert forall j :: 0 <= j < i ==> !Wanted(cs[j], nodeType, name) by {
        forall j | 0 <= j < i ensures !Wanted(cs[j], nodeType, name) {
          assert !WantedPred(cs, nodeType, name)(j);
        }
      }
      Some(cs[i])
  }

  /**
   * `getNamedAttribute(node, attrName)`: null for a non-element; otherwise the value of the
   * element's "src" attribute, whatever `attrName` says.
   */
  function NamedAttribute(node: Node, attrName: string): Option<string> {
    if !node.Element? then None else AttrValue(node, "src")
  }

  /**
   * The product image URL of a product-image div: the `src` of its first `<img>` child, or,
   * when it has none, of the first `<img>` child of its first `<a>` child.
   */
  function DivImage(n: Node): Option<string> {
    var anchorNode := ChildWithTypeAndName(n, ELEMENT_NODE, Some("a"));
    var imgNode := ChildWithTypeAndName(n, ELEMENT_NODE, Some("img"));
    var img := if imgNode.None? && anchorNode.Some? then ChildWithTypeAndName(anchorNode.value, ELEMENT_NODE, Some("img")) else imgNode;
    if img.Some? then NamedAttribute(img.value, "src") else None
  }

  /** The price rule: on a price span, the normalized first child's price, or an exception. */
  function PriceUpdate(n: Node): Update {
    if IsPriceSpan(n) then ChildPrice(ChildNodes(n)) else Keep
  }

  /** The image rule: on a product-image div (that is not a price span), its image if it has one. */
  function ImageUpdate(n: Node): Update {
    if !IsPriceSpan(n) && IsImageDiv(n) && DivImage(n).Some? then Assign(DivImage(n)) else Keep
  }

  /** One node's turn in `parse`: the price rule, else the image rule. */
  function Visit(n: Node, f: Fields): (w: Walked<Fields>)
    ensures w.threw <==> PriceUpdate(n) == Fails
    ensures !w.threw ==> w.st == Fields(f.itemNumber, Applied(PriceUpdate(n), f.price), Applied(ImageUpdate(n), f.imageURL))
  {
    match PriceUpdate(n)
    case Fails => Walked(f, true)
    case Assign(v) => Walked(f.(price := v), false)
    case Keep => Walked(f.(imageURL := Applied(ImageUpdate(n), f.imageURL)), false)
  }

  /** Visiting nodes in order throws exactly when one of them is a price span left without children. */
  lemma {:induction false} FoldThrows(ns: seq<Node>, f: Fields)
    ensures Fold(Visit, ns, f).threw <==> exists i :: 0 <= i < |ns| && PriceUpdate(ns[i]) == Fails
  {
    FoldThrowsWhere(Visit, n => PriceUpdate(n) == Fails, ns, f);
  }

  /** Visiting nodes in order without an exception leaves the last price and image they assign. */
  lemma {:induction false} FoldFields(ns: seq<Node>, f: Fields)
    ensures !Fold(Visit, ns, f).threw ==> Fold(Visit, ns, f).st == Fields(f.itemNumber,
      LastAssigned(PriceUpdate, ns, f.price), LastAssigned(ImageUpdate, ns, f.imageURL))
  {
    if ns != [] {
      FoldFields(ns[..|ns| - 1], f);
    }
  }

  /** Since the pattern as written never matches, no node's price rule assigns a price. */
  lemma PriceUpdateNeverAssigns(n: Node)
    ensures !PriceUpdate(n).Assign?
  {
    if IsPriceSpan(n) {
      var first := NormalizedFirst(ChildNodes(n));
      if first.Some? && first.value.Text? {
        PriceMatchAsWrittenNeverMatches(first.value.value);
      }
    }
  }

  /** Whatever nodes are visited, the price field keeps the value it started with. */
  lemma {:induction false} PriceStaysNull(ns: seq<Node>, init: Option<string>)
    ensures LastAssigned(PriceUpdate, ns, init) == init
  {
    if ns != [] {
      PriceUpdateNeverAssigns(ns[|ns| - 1]);
      PriceStaysNull(ns[..|ns| - 1], init);
    }
  }

  /**
   * `new Parser(doc, itemNum)`: the walk throws exactly when some price span of the page (in
   * document order) normalizes to no children; otherwise the image is the last one a
   * product-image div offers, and the price field is still null.
   */
  lemma ParseCollects(doc: Node, item: string)
    ensures var w := Walk(Visit, doc, Fields(item, None, None));
      && (w.threw <==> exists i :: 0 <= i < |Preorder(doc)| && PriceUpdate(Preorder(doc)[i]) == Fails)
      && (!w.threw ==> w.st == Fields(item, None, LastAssigned(ImageUpdate, Preorder(doc), None)))
  {
    WalkIsPreorderFold(Visit, doc, Fields(item, None, None));
    FoldThrows(Preorder(doc), Fields(item, None, None));
    FoldFields(Preorder(doc), Fields(item, None, None));
    PriceStaysNull(Preorder(doc), None);
  }

  // ------------------------------------------------------------------ the parser object

  class Parser {
    const itemNumber: string
    var price: Option<string>
    var imageURL: Option<string>

    function State(): Fields
      reads this
    {
      Fields(itemNumber, price, imageURL)
    }

    constructor (itemNum: string)
      ensures State() == Fields(itemNum, None, None)
    {
      itemNumber := itemNum;
      price, imageURL := None, None;
    }

    /** `getPrice()`: a fixed "10", whatever the page said. */
    function GetPrice(): (r: string)
      ensures r == "10"
    {
      "10"
    }

    /** The first half of `parse(node)`: the node's own rule; `threw` is the escaping exception. */
    method VisitNode(node: Node) returns (threw: bool)
      modifies this
      ensures Walked(State(), threw) == Visit(node, old(State()))
    {
      threw := false;
      if CheckElementNodeWithClass(node, "span", "product-price-amount") {
        var u := SpanPrice(node);
        if u.Fails? {
          return true;
        }
        if u.Assign? {
          price := u.value;
        }
      } else if CheckElementNodeWithClass(node, "div", "product-image") {
        var imgURL := DivImageOf(node);
        if imgURL.Some? {
          imageURL := imgURL;
        }
      }
    }

    /** `parse(node)`: the node's rule, then each child in turn; `threw` is the escaping exception. */
    method Parse(node: Node) returns (threw: bool)
      modifies this
      ensures Walked(State(), threw) == Walk(Visit, node, old(State()))
      decreases node
    {
      threw := VisitNode(node);
      if threw || !node.Element? {
        return;
      }
      var children := node.children;
      ghost var start := State();
      var i := 0;
      while i < |children| && !threw
        invariant 0 <= i <= |children|
        invariant itemNumber == start.itemNumber
        invariant Walked(State(), threw) == WalkAll(Visit, children[..i], start)
      {
        WalkAllStep(Visit, children, i, start);
        threw := Parse(children[i]);
        i := i + 1;
      }
      if threw {
        WalkAllStops(Visit, children, i, start);
      } else {
        assert children[..i] == children;
      }
    }
  }

  /**
   * The price span's branch of `parse`: normalize the children, take the first (a null one
   * throws) and, when it is text holding a price, that price.
   */
  method SpanPrice(node: Node) returns (u: Update)
    ensures u == ChildPrice(ChildNodes(node))
  {
    var first := NormalizedFirst(ChildNodes(node));
    if first.None? {
      return Fails;
    }
    u := Keep;
    if NodeType(first.value) == TEXT_NODE {
      var matched := PriceGroupAsWritten(first.value.value);
      if matched.Some? {
        u := Assign(matched);
      }
    }
  }

  /** The product-image div's branch of `parse`: its `<img>` child, or its `<a>` child's, and the `src`. */
  method DivImageOf(node: Node) returns (imgURL: Option<string>)
    ensures imgURL == DivImage(node)
  {
    var anchorNode := GetNamedChild(node, "a");
    var imgNode := GetNamedChild(node, "img");
    if imgNode.None? && anchorNode.Some? {
      imgNode := GetNamedChild(anchorNode.value, "img");
    }
    imgURL := None;
    if imgNode.Some? {
      imgURL := NamedAttribute(imgNode.value, "src");
    }
  }

  /** `getChildWithTypeAndName`: scan the children in order for the first one wanted. */
  method GetChildWithTypeAndName(parent: Node, nodeType: int, name: Option<string>) returns (r: Option<Node>)
    ensures r == ChildWithTypeAndName(parent, nodeType, name)
  {
    var children := ChildNodes(parent);
    var i := 0;
    while i < |children|
      invariant 0 <= i <= |children|
      invariant forall j :: 0 <= j < i ==> !Wanted(children[j], nodeType, name)
    {
      if NodeType(children[i]) == nodeType && (name.None? || EqualsIgnoreCase(name.value, NodeName(children[i]))) {
        return Some(children[i]);
      }
      i := i + 1;
    }
    return None;
  }

  /** `getNamedChild(parent, name)`: the first element child of that name. */
  method GetNamedChild(parent: Node, name: string) returns (r: Option<Node>)
    ensures r == ChildWithTypeAndName(parent, ELEMENT_NODE, Some(name))
    ensures r.Some? ==> r.value.Element? && EqualsIgnoreCase(name, r.value.name)
  {
    r := GetChildWithTypeAndName(parent, ELEMENT_NODE, Some(name));
  }

  // ================================================================== the filter

  /** How `filter` ends for a page. */
  datatype Outcome =
    | NotProduct      // malformed URL, no match, or names that disagree
    | ParseFailed     // the parser threw
    | Partial         // no image: nothing is recorded
    | Recorded(itemNumber: string, productTitle: string, price: string, imageURL: string)

  /** Step 1 on the base URL, which is null when `new URL` rejects it. */
  function UrlProduct(baseUrl: Option<string>): Option<Product> {
    if baseUrl.Some? then ProductOf(baseUrl.value) else None
  }

  /**
   * The outcome of `filter` for what step 1 found: a page is recorded, with the fixed price,
   * exactly when it names a product, the walk does not throw and an image was found.
   */
  function FilterOutcome(product: Option<Product>, doc: Node): (o: Outcome)
    ensures o == NotProduct <==> product.None?
    ensures o.Recorded? <==>
      && product.Some?
      && !(exists i :: 0 <= i < |Preorder(doc)| && PriceUpdate(Preorder(doc)[i]) == Fails)
      && LastAssigned(ImageUpdate, Preorder(doc), None).Some?
    ensures o.Recorded? ==> && o.itemNumber == product.value.itemNumber
                            && o.productTitle == product.value.productTitle && o.price == "10"
                            && Some(o.imageURL) == LastAssigned(ImageUpdate, Preorder(doc), None)
  {
    if product.None? then NotProduct
    else
      var w := Walk(Visit, doc, Fields(product.value.itemNumber, None, None));
      ParseCollects(doc, product.value.itemNumber);
      if w.threw then ParseFailed
      else if w.st.imageURL.Some? then
        Recorded(product.value.itemNumber, product.value.productTitle, "10", w.st.imageURL.value)
      else Partial
  }

  /** The entries an outcome adds to the page's metadata: six for a recorded page, else none. */
  function RecordedMeta(o: Outcome, htmlTitle: string): seq<(string, string)> {
    if o.Recorded? then
      [("brand", "burberry"), ("id", o.itemNumber), ("name", o.productTitle),
       ("price", o.price), ("imgURL", o.imageURL), ("title", htmlTitle)]
    else []
  }

  class BurberryParser {
    constructor ()
    {
    }

    /**
     * `filter`: for a product page, parse it and, when the parser found an image, add the six
     * metadata entries (`parse == null` throws before any is added). Nothing else changes.
     */
    method Filter(baseUrl: Option<string>, parse: ParseData?, doc: Node)
      modifies parse
      ensures parse != null ==>
        parse.contentMeta == old(parse.contentMeta) + RecordedMeta(FilterOutcome(UrlProduct(baseUrl), doc), parse.title)
    {
      var o := Extract(UrlProduct(baseUrl), doc);
      if o.Recorded? && parse != null {
        AddProductMeta(parse, o.itemNumber, o.productTitle, o.price, o.imageURL);
      }
    }

    /** Steps 2 and 3 of `filter` for a product page: run a fresh parser and judge its fields. */
    method Extract(product: Option<Product>, doc: Node) returns (o: Outcome)
      ensures o == FilterOutcome(product, doc)
    {
      if product.None? {
        return NotProduct;
      }
      var parser := new Parser(product.value.itemNumber);
      var threw := parser.Parse(doc);
      if threw {
        return ParseFailed;
      }
      var price, imgURL := parser.GetPrice(), parser.imageURL;
      if imgURL.Some? {
        o := Recorded(product.value.itemNumber, product.value.productTitle, price, imgURL.value);
      } else {
        o := Partial;
      }
    }
  }

  /** The six `meta.add` calls, the HTML title last. */
  method AddProductMeta(parse: ParseData, itemNumber: string, productTitle: string, price: string, imgURL: string)
    modifies parse
    ensures parse.contentMeta
         == old(parse.contentMeta) + RecordedMeta(Recorded(itemNumber, productTitle, price, imgURL), parse.title)
  {
    parse.Add("brand", "burberry");
    parse.Add("id", itemNumber);
    parse.Add("name", productTitle);
    parse.Add("price", price);
    parse.Add("imgURL", imgURL);
    parse.Add("title", parse.title);
  }
}
