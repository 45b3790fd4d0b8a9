/**
 * The J.Crew product-page filter: it recognises product URLs and reads the item number from
 * them, walks the page's DOM collecting title, price and image, and records a complete result
 * in the page's metadata and the id table.
 */
module JCrew {
  import opened Wrappers
  import opened Strings
  import opened Search
  import opened Decimals
  import opened Dom
  import opened Metadata
  import opened IdGen

  // ================================================================== product URLs

  /**
   * The product URL pattern `http://www\.jcrew\.com/.*\/PRDOVR~(\d+).*\/(\d+)\.jsp`, found
   * anywhere in the URL. Its pieces as literals: */
  const URL_PREFIX: string := "http://www.jcrew.com/"
  const PRDOVR: string := "/PRDOVR~"
  const JSP: string := ".jsp"

  /**
   * A match of the pattern is fixed by three positions: `start`, where the prefix begins;
   * `prdovr`, where "/PRDOVR~" begins (the first `.*` runs up to it); and `slash`, the "/"
   * before the second group (the second `.*` runs up to it).
   */
  datatype UrlMatch = UrlMatch(start: nat, prdovr: nat, slash: nat)

  /** Group 1 ends where its digit run ends: a shorter group leaves a digit the rest cannot skip less well. */
  function Group1End(s: string, q: nat): nat { DigitEnd(s, q + |PRDOVR|) }

  /** "/" then `(\d+)\.jsp` at `r`, the second `.*` having consumed `s[e1..r]`. */
  predicate MinorAt(s: string, e1: nat, r: nat) {
    && e1 <= r < |s| && s[r] == '/'
    && LineFree(s, e1, r)
    && DigitEnd(s, r + 1) > r + 1
    && HasAt(s, DigitEnd(s, r + 1), JSP)
  }

  /** The pattern matches with these three positions. */
  predicate Matches(s: string, p: nat, q: nat, r: nat) {
    && HasAt(s, p, URL_PREFIX)
    && p + |URL_PREFIX| <= q && LineFree(s, p + |URL_PREFIX|, q)
    && HasAt(s, q, PRDOVR)
    && Group1End(s, q) > q + |PRDOVR|
    && MinorAt(s, Group1End(s, q), r)
  }

  /** Some match has "/PRDOVR~" at `q` (given the prefix at `p`). */
  predicate MajorAt(s: string, p: nat, q: nat) {
    && p + |URL_PREFIX| <= q && LineFree(s, p + |URL_PREFIX|, q)
    && HasAt(s, q, PRDOVR)
    && Group1End(s, q) > q + |PRDOVR|
    && LastWhere(Group1End(s, q), |s|, MinorPred(s, Group1End(s, q))).Some?
  }

  /** The tests the matcher's searches run, as functions of a position. */
  function StartPred(s: string): nat -> bool { (p: nat) => StartsAt(s, p) }

  function MajorPred(s: string, p: nat): nat -> bool { (q: nat) => MajorAt(s, p, q) }

  function MinorPred(s: string, e1: nat): nat -> bool { (r: nat) => MinorAt(s, e1, r) }

  /** Some match starts at `p`. */
  predicate StartsAt(s: string, p: nat) {
    HasAt(s, p, URL_PREFIX) && LastWhere(p + |URL_PREFIX|, |s|, MajorPred(s, p)).Some?
  }

  /**
   * `matcher.find()`: the leftmost start, then the longest first `.*`, then the longest second
   * `.*` that still let the pattern match.
   */
  function FindMatch(s: string): (m: Option<UrlMatch>)
    ensures m.Some? ==> Matches(s, m.value.start, m.value.prdovr, m.value.slash)
  {
    match FirstWhere(0, |s|, StartPred(s))
    case None => None
    case Some(p) =>
      match LastWhere(p + |URL_PREFIX|, |s|, MajorPred(s, p))
      case None => None
      case Some(q) =>
        match LastWhere(Group1End(s, q), |s|, MinorPred(s, Group1End(s, q)))
        case None => None
        case Some(r) => Some(UrlMatch(p, q, r))
  }

  /** `m` comes before (p, q, r) in the order the matcher tries them. */
  predicate TriedFirst(m: UrlMatch, p: nat, q: nat, r: nat) {
    || m.start < p
    || (m.start == p && m.prdovr > q)
    || (m.start == p && m.prdovr == q && m.slash >= r)
  }

  lemma MatchesIsFound(s: string, p: nat, q: nat, r: nat)
    requires Matches(s, p, q, r)
    ensures MinorAt(s, Group1End(s, q), r) && MajorAt(s, p, q) && StartsAt(s, p)
  {
    var e1 := Group1End(s, q);
    assert MinorPred(s, e1)(r);
    assert MajorPred(s, p)(q);
  }

  /**
   * The match `find()` reports is a match, and the first one the matcher tries: no match
   * starts earlier, and at the same start none has a longer first or second `.*`. There is no
   * match at all exactly when it reports none.
   */
  lemma FindMatchIsLeftmostGreedy(s: string)
    ensures FindMatch(s).None? <==> forall p: nat, q: nat, r: nat :: !Matches(s, p, q, r)
    ensures FindMatch(s).Some? ==>
      forall p: nat, q: nat, r: nat :: Matches(s, p, q, r) ==> TriedFirst(FindMatch(s).value, p, q, r)
  {
    var m := FindMatch(s);
    forall p: nat, q: nat, r: nat | Matches(s, p, q, r)
      ensures m.Some? && TriedFirst(m.value, p, q, r)
    {
      MatchesIsFound(s, p, q, r);
      var p0 := FirstWhere(0, |s|, StartPred(s));
      assert StartPred(s)(p);
      assert p0.Some?;
      if p0.value == p {
        var q0 := LastWhere(p + |URL_PREFIX|, |s|, MajorPred(s, p));
        assert MajorPred(s, p)(q);
        assert q0.Some?;
        if q0.value == q {
          var e1 := Group1End(s, q);
          var r0 := LastWhere(e1, |s|, MinorPred(s, e1));
          assert MinorPred(s, e1)(r);
          assert r0.Some?;
        }
      }
    }
  }

  /** The first group, the item number after "PRDOVR~". */
  function Major(s: string, m: UrlMatch): (g: string)
    requires Matches(s, m.start, m.prdovr, m.slash)
    ensures |g| > 0 && AllDigits(g)
  {
    s[m.prdovr + |PRDOVR|..Group1End(s, m.prdovr)]
  }

  /** The second group, the item number of the ".jsp" page. */
  function Minor(s: string, m: UrlMatch): (g: string)
    requires Matches(s, m.start, m.prdovr, m.slash)
    ensures |g| > 0 && AllDigits(g)
  {
    s[m.slash + 1..DigitEnd(s, m.slash + 1)]
  }

  /**
   * Step 1 of `filter`: the item number of a product URL. Both groups go through
   * `Integer.parseInt` (an overflow rejects the page), must be equal, and the number is
   * printed back with `Integer.toString`.
   */
  function ItemNumber(url: string): Option<string> {
    match FindMatch(url)
    case None => None
    case Some(m) =>
      match (ParseInt(Major(url, m)), ParseInt(Minor(url, m)))
      case (Some(major), Some(minor)) =>
        if major == minor then Some(IntToString(major)) else None
      case _ => None
  }

  /**
   * A page is accepted exactly when the URL matches and both groups denote the same number
   * that fits in an `int`; the item number is then that number's canonical digits (leading
   * zeros of the URL dropped).
   */
  lemma ItemNumberMeans(url: string)
    ensures ItemNumber(url).Some? <==>
      && FindMatch(url).Some?
      && DecimalValue(Major(url, FindMatch(url).value)) == DecimalValue(Minor(url, FindMatch(url).value))
      && DecimalValue(Major(url, FindMatch(url).value)) <= MAX_INT
    ensures ItemNumber(url).Some? ==>
      && Canonical(ItemNumber(url).value)
      && DecimalValue(ItemNumber(url).value) == DecimalValue(Major(url, FindMatch(url).value))
  {
    if ItemNumber(url).Some? {
      var m := FindMatch(url).value;
      IntToStringCanonical(DecimalValue(Major(url, m)));
    }
  }

  /** An item number read from a URL is the only canonical spelling of the number in it. */
  lemma ItemNumberUnique(url: string, other: string)
    requires ItemNumber(url).Some?
    requires Canonical(other) && DecimalValue(other) == DecimalValue(Major(url, FindMatch(url).value))
    ensures ItemNumber(url).value == other
  {
    ItemNumberMeans(url);
    CanonicalUnique(ItemNumber(url).value, other);
  }

  // ================================================================== prices

  /**
   * `matchFloat(input)`: group 1 of the leftmost match of `(\d+\.\d+).*`, or null. The
   * `Float.parseFloat` check never fails on such a group.
   */
  function MatchFloat(s: string): (r: Option<string>)
    ensures r.None? <==> forall i: nat :: !FloatAt(s, i)
    ensures r.Some? ==> exists i: nat :: && FloatAt(s, i) && r.value == FloatText(s, i)
                                   && forall j: nat :: j < i ==> !FloatAt(s, j)
    ensures r.Some? ==> IsDecimalLiteral(r.value)
  {
    match FirstWhere(0, |s|, FloatPred(s))
    case None =>
      assert forall i: nat :: !FloatAt(s, i) by {
        forall i: nat | i < |s| ensures !FloatAt(s, i) { assert !FloatPred(s)(i); }
      }
      None
    case Some(i) =>
      assert FloatPred(s)(i);
      assert forall j: nat :: j < i ==> !FloatAt(s, j) by {
        forall j: nat | j < i ensures !FloatAt(s, j) { assert !FloatPred(s)(j); }
      }
      FloatTextIsLiteral(s, i);
      Some(FloatText(s, i))
  }

  // ================================================================== the extractor

  /** The fields of the page parser: the item number it looks for and what it has found. */
  datatype Fields = Fields(itemNumber: string, productTitle: Option<string>,
                           price: Option<string>, imageURL: Option<string>)

  /** The elements the walk reacts to. */
  datatype Role = TitleCell | PriceCell | ImageTag | Other

  /** A `<td>` by its class (ignoring case), an `<img>`, or anything else. */
  function RoleOf(n: Node): Role {
    if !n.Element? then Other
    else if EqualsIgnoreCase("td", n.name) then
      match AttrValue(n, "class")
      case None => Other
      case Some(cls) =>
        if EqualsIgnoreCase("prodtitle", cls) || EqualsIgnoreCase("producttitle", cls) then TitleCell
        else if EqualsIgnoreCase("standard_nopad", cls) || EqualsIgnoreCase("standard", cls) then PriceCell
        else Other
    else if EqualsIgnoreCase("img", n.name) then ImageTag
    else Other
  }

  /**
   * The price rule of a price cell. Main form "$88.00 item 29234": the trimmed first text has
   * at least two `\s`-separated tokens and the last ends with the item number; the price is the
   * float after the first "$" (null when none follows), and a text without "$" leaves the price
   * alone. Sale form, when the main guard fails and the trimmed last child's text ends with the
   * item number: if the first text has a "$" before its last character, the price is the float
   * after the last "$" of the second child's first child's trimmed text (left alone without
   * such a "$"). Missing nodes and null texts on these paths throw.
   */
  function PriceEffect(item: string, n: Node): Update {
    match FirstChild(n)
    case None => Fails
    case Some(first) =>
      var tempStr := NodeValue(first).Map(Trim);
      if tempStr.Some? && MainPriceGuard(tempStr.value, item) then
        var idx := IndexOf(tempStr.value, "$", 0);
        if idx >= 0 then Assign(MatchFloat(tempStr.value[idx + 1..])) else Keep
      else
        match LastChild(n)
        case None => Keep
        case Some(last) =>
          match NodeValue(last)
          case None => Keep
          case Some(text2) =>
            if EndsWith(Trim(text2), item) then SalePriceEffect(n, tempStr) else Keep
  }

  /** The main guard: `split("\\s+")` gives a last token, not the first, ending with the item. */
  predicate MainPriceGuard(t: string, item: string) {
    var toks := SplitWhitespace(t);
    |toks| >= 2 && EndsWith(toks[|toks| - 1], item)
  }

  function SalePriceEffect(n: Node, tempStr: Option<string>): Update {
    match tempStr
    case None => Fails
    case Some(t) =>
      var idx := LastIndexOfChar(t, '$');
      if 0 <= idx < |t| - 1 then
        match Item(ChildNodes(n), 1)
        case None => Fails
        case Some(second) =>
          match FirstChild(second)
          case None => Fails
          case Some(inner) =>
            match NodeValue(inner)
            case None => Fails
            case Some(v) =>
              var t2 := Trim(v);
              var idx2 := LastIndexOfChar(t2, '$');
              if 0 <= idx2 < |t2| - 1 then Assign(MatchFloat(t2[idx2 + 1..])) else Keep
      else Keep
  }

  /**
   * The main guard, read on a trimmed text: the text holds a `\s` character and what follows
   * the last one ends with the item number.
   */
  lemma MainPriceGuardMeans(text: string, item: string)
    ensures var t := Trim(text);
      MainPriceGuard(t, item) <==> LastSpace(t) >= 0 && EndsWith(t[LastSpace(t) + 1..], item)
  {
    SplitTrimmed(Trim(text));
  }

  /**
   * The image rule of an `<img>`: an id equal to "mainImg" (ignoring case), or starting with
   * "productOnFigureImage" and ending with the item number, makes its `src` the image URL; a
   * missing `src` then throws.
   */
  function ImageEffect(item: string, n: Node): Update
    requires n.Element?
  {
    match AttrValue(n, "id")
    case None => Keep
    case Some(id) =>
      if EqualsIgnoreCase("mainImg", id) || (StartsWith(id, "productOnFigureImage") && EndsWith(id, item)) then
        match AttrValue(n, "src")
        case None => Fails
        case Some(src) => Assign(Some(src))
      else Keep
  }

  /** The title a title cell offers: its first child's trimmed text. */
  function CellTitle(n: Node): Option<string> {
    if RoleOf(n) == TitleCell && FirstChild(n).Some? then NodeValue(FirstChild(n).value).Map(Trim) else None
  }

  function PriceUpdate(item: string, n: Node): Update {
    if RoleOf(n) == PriceCell then PriceEffect(item, n) else Keep
  }

  function ImageUpdate(item: string, n: Node): Update {
    if RoleOf(n) == ImageTag then ImageEffect(item, n) else Keep
  }

  /**
   * One node's turn in `parse`: a title cell is read only while no title is known (and throws
   * without a first child), a price cell applies the price rule, an image the image rule.
   */
  function Visit(n: Node, f: Fields): (w: Walked<Fields>)
    ensures w.threw <==>
      || (RoleOf(n) == TitleCell && f.productTitle.None? && FirstChild(n).None?)
      || PriceUpdate(f.itemNumber, n) == Fails
      || ImageUpdate(f.itemNumber, n) == Fails
    ensures !w.threw ==> w.st == Fields(
      f.itemNumber,
      if f.productTitle.Some? then f.productTitle else CellTitle(n),
      Applied(PriceUpdate(f.itemNumber, n), f.price),
      Applied(ImageUpdate(f.itemNumber, n), f.imageURL))
  {
    match RoleOf(n)
    case TitleCell =>
      if f.productTitle.Some? then Walked(f, false)
      else if FirstChild(n).None? then Walked(f, true)
      else Walked(f.(productTitle := CellTitle(n)), false)
    case PriceCell =>
      (match PriceEffect(f.itemNumber, n)
       case Keep => Walked(f, false)
       case Assign(v) => Walked(f.(price := v), false)
       case Fails => Walked(f, true))
    case ImageTag =>
      (match ImageEffect(f.itemNumber, n)
       case Keep => Walked(f, false)
       case Assign(v) => Walked(f.(imageURL := v), false)
       case Fails => Walked(f, true))
    case Other => Walked(f, false)
  }

  // ------------------------------------------------------------------ what a walk collects

  /** The first title cell (in document order) whose first child has a non-null text gives the title. */
  function FirstTitle(ns: seq<Node>): Option<string> {
    if ns == [] then None
    else
      var t := FirstTitle(ns[..|ns| - 1]);
      if t.Some? then t else CellTitle(ns[|ns| - 1])
  }

  /**
   * What visiting the nodes in order leaves behind, when nothing throws: the title already
   * known or else the first title found, and the price and the image of the last node that
   * sets them.
   */
  lemma {:induction false} FoldCollects(ns: seq<Node>, f: Fields)
    requires !Fold(Visit, ns, f).threw
    ensures Fold(Visit, ns, f).st == Fields(
      f.itemNumber,
      if f.productTitle.Some? then f.productTitle else FirstTitle(ns),
      LastAssigned(n => PriceUpdate(f.itemNumber, n), ns, f.price),
      LastAssigned(n => ImageUpdate(f.itemNumber, n), ns, f.imageURL))
  {
    if ns != [] {
      FoldCollects(ns[..|ns| - 1], f);
    }
  }

  /** Nothing in the nodes can throw: every title cell has a child, no price or image rule fails. */
  predicate Safe(item: string, ns: seq<Node>) {
    forall i :: 0 <= i < |ns| ==>
      && (RoleOf(ns[i]) == TitleCell ==> FirstChild(ns[i]).Some?)
      && PriceUpdate(item, ns[i]) != Fails
      && ImageUpdate(item, ns[i]) != Fails
  }

  lemma {:induction false} SafeFoldDoesNotThrow(ns: seq<Node>, f: Fields)
    requires Safe(f.itemNumber, ns)
    ensures !Fold(Visit, ns, f).threw
  {
    if ns != [] {
      var init := ns[..|ns| - 1];
      assert Safe(f.itemNumber, init) by {
        forall i | 0 <= i < |init| ensures init[i] == ns[i] { }
      }
      SafeFoldDoesNotThrow(init, f);
      FoldKeepsItem(init, f);
      assert Safe(f.itemNumber, [ns[|ns| - 1]]) by {
        assert [ns[|ns| - 1]][0] == ns[|ns| - 1];
      }
    }
  }

  /** The item number never changes. */
  lemma {:induction false} FoldKeepsItem(ns: seq<Node>, f: Fields)
    ensures Fold(Visit, ns, f).st.itemNumber == f.itemNumber
  {
    if ns != [] {
      FoldKeepsItem(ns[..|ns| - 1], f);
    }
  }

  /** The walk `new Parser(doc, itemNum)` performs, from a parser with no fields set. */
  function ParseRun(item: string, doc: Node): Walked<Fields> {
    Walk(Visit, doc, Fields(item, None, None, None))
  }

  /** The price the last price cell of the page (in document order) sets, if any. */
  function PagePrice(item: string, doc: Node): Option<string> {
    LastAssigned(n => PriceUpdate(item, n), Preorder(doc), None)
  }

  /** The image URL the last matching `<img>` of the page sets, if any. */
  function PageImage(item: string, doc: Node): Option<string> {
    LastAssigned(n => ImageUpdate(item, n), Preorder(doc), None)
  }

  /**
   * `new Parser(doc, itemNum)`: on a page where nothing throws, the title is the first title
   * cell's text, the price and the image come from the last cells that set them, and a page
   * without a failing node never throws.
   */
  lemma ParseCollects(doc: Node, item: string)
    ensures var w := ParseRun(item, doc);
      && (Safe(item, Preorder(doc)) ==> !w.threw)
      && (!w.threw ==> w.st == Fields(item, FirstTitle(Preorder(doc)), PagePrice(item, doc), PageImage(item, doc)))
  {
    var f := Fields(item, None, None, None);
    WalkIsPreorderFold(Visit, doc, f);
    if Safe(item, Preorder(doc)) {
      SafeFoldDoesNotThrow(Preorder(doc), f);
    }
    if !Walk(Visit, doc, f).threw {
      FoldCollects(Preorder(doc), f);
    }
  }

  /** Once a title is known, no later node changes it, even on a walk that throws. */
  lemma {:induction false} TitleIsKept(ns: seq<Node>, f: Fields)
    requires f.productTitle.Some?
    ensures Fold(Visit, ns, f).st.productTitle == f.productTitle
  {
    if ns != [] {
      TitleIsKept(ns[..|ns| - 1], f);
    }
  }

  // ------------------------------------------------------------------ the parser object

  /** The page parser: its fields start empty and `Parse` fills them while walking. */
  class Parser {
    const itemNumber: string
    var productTitle: Option<string>
    var price: Option<string>
    var imageURL: Option<string>

    function State(): Fields
      reads this
    {
      Fields(itemNumber, productTitle, price, imageURL)
    }

    constructor (itemNum: string)
      ensures State() == Fields(itemNum, None, None, None)
    {
      itemNumber := itemNum;
      productTitle, price, imageURL := None, None, None;
    }

    /** `parse(node)`: visit the node, then each child in turn; `threw` is the escaping exception. */
    method Parse(node: Node) returns (threw: bool)
      modifies this
      ensures Walked(State(), threw) == Walk(Visit, node, old(State()))
      decreases node
    {
      var w := Visit(node, State());
      productTitle, price, imageURL := w.st.productTitle, w.st.price, w.st.imageURL;
      threw := w.threw;
      if threw || !node.Element? {
        return;
      }
      var children := node.children;
      ghost var start := State();
      var i := 0;
      while i < |children| && !threw
        invariant 0 <= i <= |children|
        invariant itemNumber == start.itemNumber
        invariant Walked(State(), threw) == WalkAll(Visit, children[..i], start)
      {
        WalkAllStep(Visit, children, i, start);
        threw := Parse(children[i]);
        i := i + 1;
      }
      if threw {
        WalkAllStops(Visit, children, i, start);
      } else {
        assert children[..i] == children;
      }
    }
  }

  // ================================================================== the filter


  predicate Complete(f: Fields) {
    f.productTitle.Some? && f.price.Some? && f.imageURL.Some?
  }

  /** How `filter` ends for a page. */
  datatype Outcome =
    | NotProduct          // malformed URL, no match, or differing item numbers
    | ParseFailed         // the parser threw
    | Partial             // a field is missing: an id is generated, nothing is recorded
    | Recorded(itemNumber: string, productTitle: string, price: string, imageURL: string)
                          // all fields found: metadata is added and an id is generated

  /** Step 1 on the base URL, which is null when `new URL` rejects it. */
  function UrlItem(baseUrl: Option<string>): Option<string> {
    if baseUrl.Some? then ItemNumber(baseUrl.value) else None
  }

  /**
   * The outcome of `filter` for the item number step 1 gave (null: not a product page): the
   * parse fails exactly when the walk throws (never on a safe page); otherwise the page is
   * recorded, with the first title and the last price and image, exactly when all three were
   * found, and is partial when one is missing.
   */
  function FilterOutcome(item: Option<string>, doc: Node): (o: Outcome)
    ensures o == NotProduct <==> item.None?
    ensures o == ParseFailed <==> item.Some? && ParseRun(item.value, doc).threw
    ensures item.Some? && Safe(item.value, Preorder(doc)) ==> o != ParseFailed
    ensures o.Recorded? <==>
      && item.Some? && !ParseRun(item.value, doc).threw
      && FirstTitle(Preorder(doc)).Some? && PagePrice(item.value, doc).Some? && PageImage(item.value, doc).Some?
    ensures o == Partial <==>
      && item.Some? && !ParseRun(item.value, doc).threw
      && !(FirstTitle(Preorder(doc)).Some? && PagePrice(item.value, doc).Some? && PageImage(item.value, doc).Some?)
    ensures o.Recorded? ==> && item.Some? && o.itemNumber == item.value
                            && Some(o.productTitle) == FirstTitle(Preorder(doc))
                            && Some(o.price) == PagePrice(item.value, doc)
                            && Some(o.imageURL) == PageImage(item.value, doc)
  {
    if item.None? then NotProduct
    else
      var w := ParseRun(item.value, doc);
      ParseCollects(doc, item.value);
      if w.threw then ParseFailed
      else if Complete(w.st) then
        Recorded(item.value, w.st.productTitle.value, w.st.price.value, w.st.imageURL.value)
      else Partial
  }

  /** The filter itself, with the shared id generator it was configured with. */
  class JCrewParser {
    const idGenerator: MysqlIdGenerator

    constructor (idGenerator: MysqlIdGenerator)
      ensures this.idGenerator == idGenerator
    {
      this.idGenerator := idGenerator;
    }

    /**
     * `filter`: for a product page, parse it; a complete parse adds the six metadata entries
     * to the page's parse (`parse == null` throws, before anything is added) and then asks for
     * an id, a partial one only asks for an id. `generated` is the id obtained ("Got ID"), absent
     * when none was asked for. The parse result is returned unchanged apart from the metadata.
     */
    method Filter(baseUrl: Option<string>, parse: ParseData?, doc: Node, response: InsertResponse)
        returns (generated: Option<int>)
      requires idGenerator.statics.insertStmt != null ==> idGenerator.statics.insertStmt.Valid()
      modifies parse, idGenerator.Store()
      ensures idGenerator.statics.insertStmt == old(idGenerator.statics.insertStmt)
      ensures parse != null ==> parse.contentMeta == old(parse.contentMeta) + RecordedMeta(FilterOutcome(UrlItem(baseUrl), doc), parse.title)
      ensures generated.Some? <==> AsksForId(FilterOutcome(UrlItem(baseUrl), doc), parse != null)
      ensures generated.Some? ==> Issued(old(idGenerator.statics.insertStmt), Some(""), response, generated.value)
      ensures generated.None? && old(idGenerator.statics.insertStmt) != null ==> unchanged(old(idGenerator.statics.insertStmt))
    {
      generated := FilterItem(UrlItem(baseUrl), parse, doc, response);
    }

    /** `filter` once step 1 has read the item number (null: not a product page) from the URL. */
    method FilterItem(item: Option<string>, parse: ParseData?, doc: Node, response: InsertResponse)
        returns (generated: Option<int>)
      requires idGenerator.statics.insertStmt != null ==> idGenerator.statics.insertStmt.Valid()
      modifies parse, idGenerator.Store()
      ensures idGenerator.statics.insertStmt == old(idGenerator.statics.insertStmt)
      ensures parse != null ==> parse.contentMeta == old(parse.contentMeta) + RecordedMeta(FilterOutcome(item, doc), parse.title)
      ensures generated.Some? <==> AsksForId(FilterOutcome(item, doc), parse != null)
      ensures generated.Some? ==> Issued(old(idGenerator.statics.insertStmt), Some(""), response, generated.value)
      ensures generated.None? && old(idGenerator.statics.insertStmt) != null ==> unchanged(old(idGenerator.statics.insertStmt))
    {
      var o := Extract(item, doc);
      TrimEmpty();
      match o
      case NotProduct =>
        return None;
      case ParseFailed =>
        return None;
      case Recorded(itemNumber, productTitle, price, imgURL) =>
        if parse == null {
          return None;
        }
        AddProductMeta(parse, itemNumber, productTitle, price, imgURL);
        var id := idGenerator.GenerateFor(Some(""), response);
        generated := Some(id);
      case Partial =>
        var id := idGenerator.GenerateFor(Some(""), response);
        generated := Some(id);
    }

    /** Steps 2 and 3 of `filter` for a product page: run a fresh parser over it and judge its fields. */
    method Extract(item: Option<string>, doc: Node) returns (o: Outcome)
      ensures o == FilterOutcome(item, doc)
    {
      if item.None? {
        return NotProduct;
      }
      var parser := new Parser(item.value);
      var threw := parser.Parse(doc);
      if threw {
        return ParseFailed;
      }
      var productTitle, price, imgURL := parser.productTitle, parser.price, parser.imageURL;
      if productTitle.Some? && price.Some? && imgURL.Some? {
        o := Recorded(item.value, productTitle.value, price.value, imgURL.value);
      } else {
        o := Partial;
      }
    }
  }

  /** The six `meta.add` calls of a complete parse, the HTML title last. */
  method AddProductMeta(parse: ParseData, itemNumber: string, productTitle: string, price: string, imgURL: string)
    modifies parse
    ensures parse.contentMeta
         == old(parse.contentMeta) + RecordedMeta(Recorded(itemNumber, productTitle, price, imgURL), parse.title)
  {
    parse.Add("brand", "jcrew");
    parse.Add("itemNumber", itemNumber);
    parse.Add("productTitle", productTitle);
    parse.Add("price", price);
    parse.Add("imgURL", imgURL);
    parse.Add("jcrew", parse.title);
  }

  /** The entries an outcome adds to the page's metadata: all six for a recorded page, else none. */
  function RecordedMeta(o: Outcome, htmlTitle: string): seq<(string, string)> {
    if o.Recorded? then
      [("brand", "jcrew"), ("itemNumber", o.itemNumber), ("productTitle", o.productTitle),
       ("price", o.price), ("imgURL", o.imageURL), ("jcrew", htmlTitle)]
    else []
  }

  /** An id is asked for after every parse that did not throw, except when the parse is missing. */
  predicate AsksForId(o: Outcome, parsePresent: bool) {
    o.Partial? || (o.Recorded? && parsePresent)
  }
}
