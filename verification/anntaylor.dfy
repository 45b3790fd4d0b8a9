/**
 * The Ann Taylor product-page filter: it recognises product URLs by their `productId`, then
 * walks the page collecting title and price into a parser whose result it discards. The
 * parse result leaves the filter as it came in.
 */
module AnnTaylor {
  import opened Wrappers
  import opened Strings
  import opened Search
  import opened Dom
  import opened Metadata

  // ================================================================== product URLs

  /**
   * The product URL pattern `http://www\.anntaylor\.com/catalog/product.jsp\?productId=(\d+).*`
   * found anywhere in the URL. The `.` before "jsp" is unescaped, so any character other than a
   * line terminator stands there.
   */
  const URL_PREFIX: string := "http://www.anntaylor.com/catalog/product"
  const QUERY: string := "jsp?productId="

  /** Where the item number starts for a match at `p`. */
  function IdStart(p: nat): nat { p + |URL_PREFIX| + 1 + |QUERY| }

  /** The literal part of the pattern, with the wildcard, at `p`. */
  predicate HeadAt(s: string, p: nat) {
    && HasAt(s, p, URL_PREFIX)
    && p + |URL_PREFIX| < |s| && !IsLineTerminator(s[p + |URL_PREFIX|])
    && HasAt(s, p + |URL_PREFIX| + 1, QUERY)
  }

  /**
   * The pattern matches at `p` with group 1 `s[IdStart(p)..e]`. The trailing `.*` matches
   * anywhere, so it puts no constraint on what follows.
   */
  predicate Matches(s: string, p: nat, e: nat) {
    && HeadAt(s, p)
    && IdStart(p) < e <= |s|
    && forall k :: IdStart(p) <= k < e ==> IsDigit(s[k])
  }

  predicate StartsAt(s: string, p: nat) {
    HeadAt(s, p) && DigitEnd(s, IdStart(p)) > IdStart(p)
  }

  function StartPred(s: string): nat -> bool { (p: nat) => StartsAt(s, p) }

  /** A match of `find()`: where it starts and where group 1 ends. */
  datatype UrlMatch = UrlMatch(start: nat, idEnd: nat)

  /** `matcher.find()`: the leftmost start, then the longest digit run `(\d+)` can take. */
  function FindMatch(s: string): (m: Option<UrlMatch>)
    ensures m.Some? ==> Matches(s, m.value.start, m.value.idEnd)
  {
    match FirstWhere(0, |s|, StartPred(s))
    case None => None
    case Some(p) =>
      assert StartPred(s)(p);
      Some(UrlMatch(p, DigitEnd(s, IdStart(p))))
  }

  /**
   * The match `find()` reports is the leftmost one and, at its start, has the longest group 1;
   * there is none exactly when it reports none.
   */
  lemma FindMatchIsLeftmostGreedy(s: string)
    ensures FindMatch(s).None? <==> forall p: nat, e: nat :: !Matches(s, p, e)
    ensures FindMatch(s).Some? ==> forall p: nat, e: nat :: Matches(s, p, e) ==>
      || FindMatch(s).value.start < p
      || (FindMatch(s).value.start == p && FindMatch(s).value.idEnd >= e)
  {
    var m := FindMatch(s);
    forall p: nat, e: nat | Matches(s, p, e)
      ensures m.Some? && (m.value.start < p || (m.value.start == p && m.value.idEnd >= e))
    {
      assert IsDigit(s[IdStart(p)]);
      assert StartPred(s)(p);
    }
  }

  /** Group 1, the product id as written. */
  function Group1(s: string, m: UrlMatch): (g: string)
    requires Matches(s, m.start, m.idEnd)
    ensures |g| > 0 && AllDigits(g)
  {
    s[IdStart(m.start)..m.idEnd]
  }

  /**
   * Step 1 of `filter`: `Integer.parseInt` of group 1 (an overflow rejects the page) printed
   * back with `Integer.toString`.
   */
  function ItemNumber(url: string): Option<string> {
    match FindMatch(url)
    case None => None
    case Some(m) =>
      match ParseInt(Group1(url, m))
      case None => None
      case Some(id) => Some(IntToString(id))
  }

  /**
   * A page is accepted exactly when its URL matches with an id that fits in an `int`; the
   * item number is then the id's canonical digits, leading zeros dropped.
   */
  lemma ItemNumberMeans(url: string)
    ensures ItemNumber(url).Some? <==>
      FindMatch(url).Some? && DecimalValue(Group1(url, FindMatch(url).value)) <= MAX_INT
    ensures ItemNumber(url).Some? ==>
      && Canonical(ItemNumber(url).value)
      && DecimalValue(ItemNumber(url).value) == DecimalValue(Group1(url, FindMatch(url).value))
  {
    if ItemNumber(url).Some? {
      IntToStringCanonical(DecimalValue(Group1(url, FindMatch(url).value)));
    }
  }

  // ================================================================== the extractor

  /** The fields of the page parser; the image URL is declared but never set. */
  datatype Fields = Fields(itemNumber: string, productTitle: Option<string>, price: Option<string>,
                           imageURL: Option<string>)

  /** `checkNodeWithAttr(node, ELEMENT_NODE, name, "class", cls)`. */
  predicate HasClass(node: Option<Node>, name: string, cls: string) {
    CheckNodeWithAttr(node, ELEMENT_NODE, Some(name), "class", Some(cls))
  }

  predicate IsHdInfo(n: Node) { HasClass(Some(n), "div", "hd-info") }

  /**
   * The title rule: in an hd-info div whose first child is an `<h1>`, the title becomes that
   * element's node value.
   */
  function TitleUpdate(n: Node): Update {
    if IsHdInfo(n) && CheckNode(Item(ChildNodes(n), 0), ELEMENT_NODE, Some("h1"), None) then
      Assign(NodeValue(ChildNodes(n)[0]))
    else Keep
  }

  /**
   * The `<p class="price">` of the chain `div.hd-info > div.price > p.price` whose first child
   * is a `<sup class="dollars">` and whose last child is a text node.
   */
  function PriceParagraph(n: Node): Option<Node> {
    var cs := ChildNodes(n);
    if IsHdInfo(n) && HasClass(Item(cs, 1), "div", "price") then
      var priceNode := FirstChild(cs[1]);
      if && HasClass(priceNode, "p", "price")
         && HasClass(FirstChild(priceNode.value), "sup", "dollars")
         && CheckNode(LastChild(priceNode.value), TEXT_NODE, None, None)
      then priceNode
      else None
    else None
  }

  /** The price rule: the text after the dollar sign of the price paragraph. */
  function PriceUpdate(n: Node): (u: Update)
    ensures u != Fails
    ensures u.Assign? <==> PriceParagraph(n).Some?
    ensures u.Assign? ==>
      var par := PriceParagraph(n).value;
      && par.Element? && |par.children| >= 2
      && par.children[|par.children| - 1].Text?
      && u.value == Some(par.children[|par.children| - 1].value)
  {
    match PriceParagraph(n)
    case None => Keep
    case Some(par) => Assign(NodeValue(LastChild(par).value))
  }

  /**
   * One node's turn in `parse`: both rules apply to the same hd-info div, and nothing can
   * throw (every test is null-safe).
   */
  function Visit(n: Node, f: Fields): (w: Walked<Fields>)
    ensures !w.threw
    ensures w.st == Fields(f.itemNumber, Applied(TitleUpdate(n), f.productTitle),
                           Applied(PriceUpdate(n), f.price), f.imageURL)
  {
    var f1 := if TitleUpdate(n).Assign? then f.(productTitle := TitleUpdate(n).value) else f;
    var f2 := if PriceUpdate(n).Assign? then f1.(price := PriceUpdate(n).value) else f1;
    Walked(f2, false)
  }

  /** Visiting nodes in order never throws; each field ends as the last node that set it left it. */
  lemma {:induction false} FoldCollects(ns: seq<Node>, f: Fields)
    ensures !Fold(Visit, ns, f).threw
    ensures Fold(Visit, ns, f).st == Fields(f.itemNumber, LastAssigned(TitleUpdate, ns, f.productTitle),
                                            LastAssigned(PriceUpdate, ns, f.price), f.imageURL)
  {
    if ns != [] {
      FoldCollects(ns[..|ns| - 1], f);
    }
  }

  /** Every title the rule assigns is null: an element's node value is null. */
  lemma {:induction false} TitleAlwaysNull(ns: seq<Node>)
    ensures LastAssigned(TitleUpdate, ns, None) == None
  {
    if ns != [] {
      TitleAlwaysNull(ns[..|ns| - 1]);
    }
  }

  /**
   * `new Parser(doc, itemNum)` never throws; it ends with no title and no image, and with the
   * price of the last hd-info block of the page (in document order) that has one.
   */
  lemma ParseCollects(doc: Node, item: string)
    ensures var w := Walk(Visit, doc, Fields(item, None, None, None));
      && !w.threw
      && w.st == Fields(item, None, LastAssigned(PriceUpdate, Preorder(doc), None), None)
  {
    WalkIsPreorderFold(Visit, doc, Fields(item, None, None, None));
    FoldCollects(Preorder(doc), Fields(item, None, None, None));
    TitleAlwaysNull(Preorder(doc));
  }

  /**
   * The price half of `parse(node)` on an hd-info div: the node value of the last child of the
   * price paragraph, when there is one.
   */
  method HdInfoPrice(node: Node) returns (u: Update)
    requires IsHdInfo(node)
    ensures u == PriceUpdate(node)
  {
    u := Keep;
    var childNodes := ChildNodes(node);
    if CheckNodeWithAttr(Item(childNodes, 1), ELEMENT_NODE, Some("div"), "class", Some("price")) {
      var priceNode := FirstChild(childNodes[1]);
      if CheckNodeWithAttr(priceNode, ELEMENT_NODE, Some("p"), "class", Some("price")) {
        if && CheckNodeWithAttr(FirstChild(priceNode.value), ELEMENT_NODE, Some("sup"), "class", Some("dollars"))
           && CheckNode(LastChild(priceNode.value), TEXT_NODE, None, None)
        {
          u := Assign(NodeValue(LastChild(priceNode.value).value));
        }
      }
    }
  }

  // ------------------------------------------------------------------ the parser object

  class Parser {
    const itemNumber: string
    var productTitle: Option<string>
    var price: Option<string>
    var imageURL: Option<string>

    function State(): Fields
      reads this
    {
      Fields(itemNumber, productTitle, price, imageURL)
    }

    constructor (itemNum: string)
      ensures State() == Fields(itemNum, None, None, None)
    {
      itemNumber := itemNum;
      productTitle, price, imageURL := None, None, None;
    }

    /** The first half of `parse(node)`: the node's own rules. */
    method VisitNode(node: Node)
      modifies this
      ensures Walked(State(), false) == Visit(node, old(State()))
    {
      if CheckNodeWithAttr(Some(node), ELEMENT_NODE, Some("div"), "class", Some("hd-info")) {
        var childNodes := ChildNodes(node);
        if CheckNode(Item(childNodes, 0), ELEMENT_NODE, Some("h1"), None) {
          productTitle := NodeValue(childNodes[0]);
        }
        var u := HdInfoPrice(node);
        if u.Assign? {
          price := u.value;
        }
      }
    }

    /** `parse(node)`: the node's rules, then each child in turn. */
    method Parse(node: Node)
      modifies this
      ensures Walked(State(), false) == Walk(Visit, node, old(State()))
      decreases node
    {
      VisitNode(node);
      if !node.Element? {
        return;
      }
      var children := node.children;
      ghost var start := State();
      var i := 0;
      while i < |children|
        invariant 0 <= i <= |children|
        invariant itemNumber == start.itemNumber
        invariant Walked(State(), false) == WalkAll(Visit, children[..i], start)
      {
        WalkAllStep(Visit, children, i, start);
        Parse(children[i]);
        i := i + 1;
      }
      assert children[..i] == children;
    }
  }

  // ================================================================== the filter

  /** Step 1 on the page URL, which is null when `new URL` rejects it. */
  function UrlItem(url: Option<string>): Option<string> {
    if url.Some? then ItemNumber(url.value) else None
  }

  /**
   * The parser's fields for a page: none for a page that is not a product; otherwise no title,
   * no image, and the last price the page offers.
   */
  function ParsedFields(item: Option<string>, doc: Node): (r: Option<Fields>)
    ensures r.None? <==> item.None?
    ensures r.Some? ==> r.value == Fields(item.value, None, LastAssigned(PriceUpdate, Preorder(doc), None), None)
  {
    if item.None? then None
    else
      ParseCollects(doc, item.value);
      Some(Walk(Visit, doc, Fields(item.value, None, None, None)).st)
  }

  class AnnTaylorParser {
    constructor ()
    {
    }

    /**
     * `filter`: classify the page and run the parser on a product page, then return the parse
     * result it was given. It adds nothing to any metadata.
     */
    method Filter(url: Option<string>, parseResult: ParseData?, doc: Node) returns (result: ParseData?)
      ensures result == parseResult
    {
      var parsed := Extract(UrlItem(url), doc);
      result := parseResult;
    }

    /** Step 2: a fresh parser walks the page; its fields are read back and then dropped. */
    method Extract(item: Option<string>, doc: Node) returns (r: Option<Fields>)
      ensures r == ParsedFields(item, doc)
    {
      if item.None? {
        return None;
      }
      var parser := new Parser(item.value);
      parser.Parse(doc);
      r := Some(parser.State());
    }
  }
}
