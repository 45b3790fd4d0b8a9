# WatchList product-page extraction, in Dafny

WatchList is a set of Apache Nutch 1.1 plugins and tools. Together they recognise product pages of
three retailers while a crawl runs: J.Crew, Burberry and Ann Taylor. For each such page they
extract the item number, product title, price and image URL, and they attach these to the page's
parse metadata. Alongside the plugins, this project models the following parts:

- the MySQL-backed id generator;
- the configuration-key enum;
- the SQL-script runner that sets up the database;
- the log analyser that finds J.Crew pages whose parse logged a missing field.

The model has one module per source file, plus shared modules:

- `Wrappers`: `Option`.
- `Strings`: Java's `trim`, `equalsIgnoreCase`, `indexOf`, `lastIndexOf`, `split("\\s+")`,
  `Integer.parseInt` and `Integer.toString`, and Python's `str.strip`.
- `Search`: the leftmost and rightmost position satisfying a test. The regex searches are built
  from these.
- `Decimals`: the `\d+\.\d+` price syntax.
- `Dom`: a DOM node tree, `checkNode`/`checkNodeWithAttr`, and a generic pre-order walk that can
  stop on an exception.
- `Metadata`: a page's `ParseData` with its content metadata.

Three modules model the vendor parse filters: `JCrew`, `Burberry` and `AnnTaylor`. Each one has
the same parts:

- The product-URL regex, with Java's `Matcher.find()` semantics stated outright. The match is
  leftmost, and each `.*` is greedy with backtracking. A lemma proves that the computed match is
  the first one the matcher tries.
- The item-number and title rules of step 1.
- A per-node update function for each field the recursive `parse` sets.
- A `Parser` class whose recursive `Parse` method updates its fields in place. It is proved equal
  to the pure walk, and the walk is proved equal to a fold over the pre-order node sequence.
- Lemmas that say which node's value each field ends up holding.
- The `filter` method, proved against a function that gives the outcome of the whole step.

`IdGen` models `MysqlIdGenerator`:

- The class-wide prepared statement is an object shared by every instance.
- The database table is a class with an auto-increment counter.
- Each `generate` overload is a method whose contract gives the exact new table state and the
  id it returns.

`Config` models `WatchListConfig` and proves that the lookup by attribute string round-trips.

`InitDb` models `runSqlScript`. The method is proved equal to a specification of the run, and
lemmas about that specification state which commands are sent and what line count is reported.

`LogAnalysis` models `build_error_set`:

- The log is the sequence of lines `readline()` returns, each with its newline. A read past the
  last line gives "".
- A specification says which records the scan finds and what it tallies.
- The method, with its nested loops, is proved equal to that specification.
- A lemma characterises exactly when the scan never ends.

Exceptions that the source catches become explicit outcomes:

- A walk that throws is `Walked(st, true)`.
- A URL that does not name a product is `NotProduct`.
- A failed id insert is `-1`.
- A log scan that never ends is `Diverges`.

Inputs that come from outside become parameters:

- the base URL: `None` when `new URL` rejects it;
- the parsed DOM;
- the database's response to an insert;
- the line at which reading a script fails;
- which SQL commands the server rejects, asked about each command by its position among those
  sent and its text, so the answer may depend on the commands it ran before.

Some consequences of the code that the lemmas make explicit:

- Only the J.Crew title keeps the first value found (`JCrew.TitleIsKept`). Every price and
  image is overwritten by later matches (`LastAssigned` in the `FoldCollects`/`ParseCollects`
  lemmas).
- The Burberry price pattern never matches, so the Burberry parser's price field stays null
  (`Burberry.PriceStaysNull`). The price the filter records is the constant "10" that
  `getPrice` returns.
- The Ann Taylor filter never adds metadata.
- The Ann Taylor title is always null, since it is an element's node value
  (`AnnTaylor.TitleAlwaysNull`).

## Model

| member | source | states |
|---|---|---|
| Strings.IndexOf | apache-nutch-1.1/script/log_analysis.py:24 | `find`/`indexOf`: -1 or the first occurrence at or after `from`; no occurrence before it |
| Strings.LastIndexOfChar | apache-nutch-1.1/src/plugin/watchlist-jcrew/src/java/org/apache/nutch/watchlist/jcrew/JCrewParser.java:319 | `lastIndexOf("$")`: -1 or an index holding the character, with none after it |
| Strings.Strip | apache-nutch-1.1/src/java/org/apache/nutch/watchlist/InitDatabase.java:35 | `trim`/`strip` result is no longer than its input and neither starts nor ends with a dropped character |
| Strings.StripIsSlice | apache-nutch-1.1/src/java/org/apache/nutch/watchlist/InitDatabase.java:35 | the stripped string is a slice of the input with only dropped characters before and after it; with `Strip`'s contract, the longest such slice |
| Strings.StripKeeps | apache-nutch-1.1/script/log_analysis.py:37 | every character of a stripped string occurs in the original |
| Strings.TrimEmpty | apache-nutch-1.1/src/java/org/apache/nutch/watchlist/InitDatabase.java:35 | trimming "" gives "" |
| Strings.ReplaceChar | apache-nutch-1.1/src/plugin/watchlist-burberry/src/java/org/apache/nutch/watchlist/burberry/BurberryParser.java:115 | `replace('-', ' ')` keeps the length and changes exactly the '-' characters |
| Strings.SplitTrimmed | apache-nutch-1.1/src/plugin/watchlist-jcrew/src/java/org/apache/nutch/watchlist/jcrew/JCrewParser.java:289-291 | on a trimmed text, `split("\\s+")` gives at least one token, two or more exactly when the text holds a `\s`, and the last token is the text after the last `\s` |
| Strings.LastSpaceOfSuffix | apache-nutch-1.1/src/plugin/watchlist-jcrew/src/java/org/apache/nutch/watchlist/jcrew/JCrewParser.java:290 | the last `\s` of a string, located through the suffix after a `\s` |
| Strings.IntToStringCanonical | apache-nutch-1.1/src/plugin/watchlist-jcrew/src/java/org/apache/nutch/watchlist/jcrew/JCrewParser.java:122 | `Integer.toString` of a non-negative number is its canonical digits (no leading zero) and denotes that number |
| Strings.ParseIntToString | apache-nutch-1.1/src/plugin/watchlist-anntaylor/src/java/org/apache/nutch/watchlist/anntaylor/AnnTaylorParser.java:101-102 | round trip: `parseInt(toString(n)) == n` for every `n` that fits in an `int` |
| Strings.CanonicalUnique | apache-nutch-1.1/src/plugin/watchlist-jcrew/src/java/org/apache/nutch/watchlist/jcrew/JCrewParser.java:116-122 | two canonical digit strings with the same value are equal |
| Strings.ReprintIsCanonical | apache-nutch-1.1/src/plugin/watchlist-anntaylor/src/java/org/apache/nutch/watchlist/anntaylor/AnnTaylorParser.java:101-102 | reprinting a parsed digit string gives the canonical spelling of its value |
| Decimals.FloatTextIsLiteral | apache-nutch-1.1/src/plugin/watchlist-jcrew/src/java/org/apache/nutch/watchlist/jcrew/JCrewParser.java:77 | the text group `(\d+\.\d+)` captures is a decimal literal (digits, one '.', digits), so `Float.parseFloat` accepts it |
| Dom.Item | apache-nutch-1.1/src/plugin/watchlist-anntaylor/src/java/org/apache/nutch/watchlist/anntaylor/AnnTaylorParser.java:157 | `NodeList.item(i)` is null exactly when `i` is out of range, and otherwise the i-th child |
| Dom.NamedItem | apache-nutch-1.1/src/plugin/watchlist-jcrew/src/java/org/apache/nutch/watchlist/jcrew/JCrewParser.java:251-252 | `getNamedItem` finds an attribute node exactly when the element has an attribute of that name |
| Dom.CheckNodeWithAttrMeans | apache-nutch-1.1/src/plugin/watchlist-anntaylor/src/java/org/apache/nutch/watchlist/anntaylor/AnnTaylorParser.java:184-198 | `checkNodeWithAttr` holds exactly for an element whose name and whose attribute's value match, ignoring case |
| Dom.WalkAllStops | apache-nutch-1.1/src/plugin/watchlist-jcrew/src/java/org/apache/nutch/watchlist/jcrew/JCrewParser.java:390-393 | once a child's walk throws, later children are not visited |
| Dom.WalkIsPreorderFold | apache-nutch-1.1/src/plugin/watchlist-jcrew/src/java/org/apache/nutch/watchlist/jcrew/JCrewParser.java:240-394 | the recursive `parse` (node first, then children in order) is the fold of the visit over the pre-order node sequence |
| Dom.PreorderSize | apache-nutch-1.1/src/plugin/watchlist-jcrew/src/java/org/apache/nutch/watchlist/jcrew/JCrewParser.java:389-393 | the pre-order sequence the walk follows has one entry per node of the tree |
| Dom.FoldThrowsWhere | apache-nutch-1.1/src/plugin/watchlist-burberry/src/java/org/apache/nutch/watchlist/burberry/BurberryParser.java:201-233 | a walk whose node failures do not depend on state throws exactly when some node fails |
| Metadata.ParseData.constructor | apache-nutch-1.1/src/plugin/watchlist-jcrew/src/java/org/apache/nutch/watchlist/jcrew/JCrewParser.java:145-146 | a page's title and content metadata |
| Metadata.ParseData.Add | apache-nutch-1.1/src/plugin/watchlist-jcrew/src/java/org/apache/nutch/watchlist/jcrew/JCrewParser.java:149 | `meta.add` appends one name/value pair and changes nothing else |
| Config.ValuesListsEachOnce | apache-nutch-1.1/src/java/org/apache/nutch/watchlist/WatchListConfig.java:3-9 | `values()` lists every constant, each exactly once |
| Config.AttributeStringsDistinct | apache-nutch-1.1/src/java/org/apache/nutch/watchlist/WatchListConfig.java:4-9 | no two constants' attribute strings are equal ignoring case |
| Config.FirstNamedIs | apache-nutch-1.1/src/java/org/apache/nutch/watchlist/WatchListConfig.java:32-35 | the lookup returns the first constant in order whose attribute string matches |
| Config.FirstNamedDefault | apache-nutch-1.1/src/java/org/apache/nutch/watchlist/WatchListConfig.java:38 | with no matching constant, the lookup returns the default |
| Config.FromAttributeString | apache-nutch-1.1/src/java/org/apache/nutch/watchlist/WatchListConfig.java:29-39 | the loop returns the first constant matching ignoring case; a null string gives the default |
| Config.LookupAttributeString | apache-nutch-1.1/src/java/org/apache/nutch/watchlist/WatchListConfig.java:21-39 | round trip: looking up a constant's own attribute string returns that constant, whatever the default |
| Config.FirstNamedIgnoresCase | apache-nutch-1.1/src/java/org/apache/nutch/watchlist/WatchListConfig.java:33 | two spellings equal ignoring case find the same entry |
| Config.LookupIgnoresCase | apache-nutch-1.1/src/java/org/apache/nutch/watchlist/WatchListConfig.java:33 | the lookup ignores case |
| Config.FirstNamedFound | apache-nutch-1.1/src/java/org/apache/nutch/watchlist/WatchListConfig.java:32-35 | when some entry matches, the result matches |
| Config.LookupFindsNamed | apache-nutch-1.1/src/java/org/apache/nutch/watchlist/WatchListConfig.java:29-39 | a string naming some constant finds a constant it names; one naming none gives the default |
| IdGen.Table.Empty | apache-nutch-1.1/src/test/org/apache/nutch/watchlist/TestMysqlIdGenerator.java:31 | a fresh `object` table: no rows, next auto-increment key 1 |
| IdGen.Table.Insert | apache-nutch-1.1/src/java/org/apache/nutch/watchlist/MysqlIdGenerator.java:51-60 | an accepted insert adds one row under the next key and returns it if the driver returns keys; a refused one changes nothing; a returned key is new |
| IdGen.Statics.constructor | apache-nutch-1.1/src/java/org/apache/nutch/watchlist/MysqlIdGenerator.java:14-16 | the class-wide statement starts out null |
| IdGen.MysqlIdGenerator.constructor | apache-nutch-1.1/src/java/org/apache/nutch/watchlist/MysqlIdGenerator.java:18-45 | a successful connect replaces the shared statement; a failed one leaves the previous statement (or null) |
| IdGen.MysqlIdGenerator.Generate | apache-nutch-1.1/src/java/org/apache/nutch/watchlist/MysqlIdGenerator.java:48-69 | inserts "unknown"; returns the new key, or -1 on a null statement, a refused insert or missing keys; every returned id is new, positive and fits in 63 bits |
| IdGen.MysqlIdGenerator.GenerateFor | apache-nutch-1.1/src/java/org/apache/nutch/watchlist/MysqlIdGenerator.java:72-93 | as `generate()`, storing the trimmed name; a null name returns -1 and inserts nothing |
| IdGen.MysqlIdGenerator.Insert | apache-nutch-1.1/src/java/org/apache/nutch/watchlist/MysqlIdGenerator.java:73-92 | the shared body: -1 on any failure, the generated key otherwise |
| IdGen.ThreeIdsFromEmptyTable | apache-nutch-1.1/src/test/org/apache/nutch/watchlist/TestMysqlIdGenerator.java:95-101 | on an empty table, `generate()`, `generate("have fun")`, `generate(" ")` return 1, 2, 3 |
| IdGen.SharedStatement | apache-nutch-1.1/src/java/org/apache/nutch/watchlist/MysqlIdGenerator.java:14-16 | two generator instances share one statement, so the second one's table serves both and ids continue 1, 2 |
| JCrew.FindMatch | apache-nutch-1.1/src/plugin/watchlist-jcrew/src/java/org/apache/nutch/watchlist/jcrew/JCrewParser.java:76 | a found match satisfies the URL pattern at its positions |
| JCrew.MatchesIsFound | apache-nutch-1.1/src/plugin/watchlist-jcrew/src/java/org/apache/nutch/watchlist/jcrew/JCrewParser.java:76 | every match is visible to each stage of the search |
| JCrew.FindMatchIsLeftmostGreedy | apache-nutch-1.1/src/plugin/watchlist-jcrew/src/java/org/apache/nutch/watchlist/jcrew/JCrewParser.java:113-114 | `find()` fails exactly when no match exists; otherwise it returns the leftmost match with the longest `.*`s |
| JCrew.Major | apache-nutch-1.1/src/plugin/watchlist-jcrew/src/java/org/apache/nutch/watchlist/jcrew/JCrewParser.java:116 | group 1 is a non-empty digit string |
| JCrew.Minor | apache-nutch-1.1/src/plugin/watchlist-jcrew/src/java/org/apache/nutch/watchlist/jcrew/JCrewParser.java:117 | group 2 is a non-empty digit string |
| JCrew.ItemNumberMeans | apache-nutch-1.1/src/plugin/watchlist-jcrew/src/java/org/apache/nutch/watchlist/jcrew/JCrewParser.java:108-132 | a page is a product exactly when the URL matches and both ids have the same value that fits in an `int`; the item number is that value's canonical digits |
| JCrew.ItemNumberUnique | apache-nutch-1.1/src/plugin/watchlist-jcrew/src/java/org/apache/nutch/watchlist/jcrew/JCrewParser.java:122 | the item number is the only canonical spelling of the URL's id |
| JCrew.MatchFloat | apache-nutch-1.1/src/plugin/watchlist-jcrew/src/java/org/apache/nutch/watchlist/jcrew/JCrewParser.java:229-238 | null exactly when the text holds no `\d+\.\d+`; otherwise the leftmost one, a decimal literal |
| JCrew.MainPriceGuardMeans | apache-nutch-1.1/src/plugin/watchlist-jcrew/src/java/org/apache/nutch/watchlist/jcrew/JCrewParser.java:288-293 | the main price form: the trimmed text holds a `\s`, and what follows the last one ends with the item number |
| JCrew.Visit | apache-nutch-1.1/src/plugin/watchlist-jcrew/src/java/org/apache/nutch/watchlist/jcrew/JCrewParser.java:240-386 | one node: throws exactly on a title cell without a first child while no title is known, or when the price or image rule throws; otherwise the title is kept or read, and price and image are updated |
| JCrew.FoldCollects | apache-nutch-1.1/src/plugin/watchlist-jcrew/src/java/org/apache/nutch/watchlist/jcrew/JCrewParser.java:266-271 | after a walk that does not throw: the first title found, the last price assigned, the last image assigned |
| JCrew.SafeFoldDoesNotThrow | apache-nutch-1.1/src/plugin/watchlist-jcrew/src/java/org/apache/nutch/watchlist/jcrew/JCrewParser.java:250-386 | a page with no title cell lacking a child and no failing price or image node does not throw |
| JCrew.FoldKeepsItem | apache-nutch-1.1/src/plugin/watchlist-jcrew/src/java/org/apache/nutch/watchlist/jcrew/JCrewParser.java:208-209 | the item number never changes during the walk |
| JCrew.ParseCollects | apache-nutch-1.1/src/plugin/watchlist-jcrew/src/java/org/apache/nutch/watchlist/jcrew/JCrewParser.java:208-211 | after `new Parser(doc, item)`: a safe page does not throw; without an exception the title is the document's first title cell's text and the price and image are the last ones set, in pre-order |
| JCrew.TitleIsKept | apache-nutch-1.1/src/plugin/watchlist-jcrew/src/java/org/apache/nutch/watchlist/jcrew/JCrewParser.java:266 | once a title is known, no later node changes it |
| JCrew.Parser.constructor | apache-nutch-1.1/src/plugin/watchlist-jcrew/src/java/org/apache/nutch/watchlist/jcrew/JCrewParser.java:203-209 | fields start with the item number and nulls |
| JCrew.Parser.Parse | apache-nutch-1.1/src/plugin/watchlist-jcrew/src/java/org/apache/nutch/watchlist/jcrew/JCrewParser.java:240-394 | the in-place recursive parse ends in the state, and with the exception, of the pure walk |
| JCrew.FilterOutcome | apache-nutch-1.1/src/plugin/watchlist-jcrew/src/java/org/apache/nutch/watchlist/jcrew/JCrewParser.java:137-193 | not a product exactly when step 1 fails; parse failed exactly when the walk throws, never on a safe page; recorded exactly when the walk does not throw and title, price and image were all found, partial exactly when one is missing; a recorded page carries step 1's item number, the document's first title and its last price and image |
| JCrew.JCrewParser.constructor | apache-nutch-1.1/src/plugin/watchlist-jcrew/src/java/org/apache/nutch/watchlist/jcrew/JCrewParser.java:402-405 | the filter uses the given id generator |
| JCrew.JCrewParser.Filter | apache-nutch-1.1/src/plugin/watchlist-jcrew/src/java/org/apache/nutch/watchlist/jcrew/JCrewParser.java:101-199 | appends exactly the six metadata entries of a recorded page, else nothing; asks the generator for an id with label "" exactly after a partial parse or a recorded one on an existing parse |
| JCrew.JCrewParser.FilterItem | apache-nutch-1.1/src/plugin/watchlist-jcrew/src/java/org/apache/nutch/watchlist/jcrew/JCrewParser.java:134-198 | steps 2 and on, given the item number |
| JCrew.JCrewParser.Extract | apache-nutch-1.1/src/plugin/watchlist-jcrew/src/java/org/apache/nutch/watchlist/jcrew/JCrewParser.java:139-143 | runs the parser and classifies the page as the outcome function does |
| JCrew.AddProductMeta | apache-nutch-1.1/src/plugin/watchlist-jcrew/src/java/org/apache/nutch/watchlist/jcrew/JCrewParser.java:145-161 | the six `meta.add` calls, in order, with their keys |
| Burberry.FindMatch | apache-nutch-1.1/src/plugin/watchlist-burberry/src/java/org/apache/nutch/watchlist/burberry/BurberryParser.java:71 | a found match satisfies the URL pattern at its positions |
| Burberry.MatchesIsFound | apache-nutch-1.1/src/plugin/watchlist-burberry/src/java/org/apache/nutch/watchlist/burberry/BurberryParser.java:71 | every match is visible to each stage of the search |
| Burberry.FindMatchIsLeftmostGreedy | apache-nutch-1.1/src/plugin/watchlist-burberry/src/java/org/apache/nutch/watchlist/burberry/BurberryParser.java:109-110 | `find()` fails exactly when no match exists; otherwise it returns the leftmost match with the longest `.*` and `(.+)`s |
| Burberry.Group2 | apache-nutch-1.1/src/plugin/watchlist-burberry/src/java/org/apache/nutch/watchlist/burberry/BurberryParser.java:114 | the item number is a non-empty digit string |
| Burberry.ProductOfMeans | apache-nutch-1.1/src/plugin/watchlist-burberry/src/java/org/apache/nutch/watchlist/burberry/BurberryParser.java:105-124 | a product exactly when the URL matches and groups 1 and 3 agree ignoring case; the id is group 2 as written, a non-empty digit string; the title has group 3's length, keeps its other characters and has a space at each of its '-' positions, and no '-' left |
| Burberry.PriceMatchAsWrittenNeverMatches | apache-nutch-1.1/src/plugin/watchlist-burberry/src/java/org/apache/nutch/watchlist/burberry/BurberryParser.java:72 | the price pattern as written never matches |
| Burberry.PriceCounterexample | apache-nutch-1.1/src/plugin/watchlist-burberry/src/java/org/apache/nutch/watchlist/burberry/BurberryParser.java:72 | "$12.50" is not matched as written, and the escaped pattern gives "12.50" |
| Burberry.PriceMatch | apache-nutch-1.1/src/plugin/watchlist-burberry/src/java/org/apache/nutch/watchlist/burberry/BurberryParser.java:206-208 | the escaped pattern's group 1 is a decimal literal |
| Burberry.PriceMatchMeans | apache-nutch-1.1/src/plugin/watchlist-burberry/src/java/org/apache/nutch/watchlist/burberry/BurberryParser.java:206-208 | no match exactly when no "$" is followed by a decimal; otherwise the decimal after the first such "$" |
| Burberry.NormalizedFirstNone | apache-nutch-1.1/src/plugin/watchlist-burberry/src/java/org/apache/nutch/watchlist/burberry/BurberryParser.java:203-204 | after `normalize()` the span has no first child exactly when all its children are empty texts |
| Burberry.ChildWithTypeAndName | apache-nutch-1.1/src/plugin/watchlist-burberry/src/java/org/apache/nutch/watchlist/burberry/BurberryParser.java:263-272 | null exactly when no child has the type and name; otherwise the first child that has them |
| Burberry.PriceUpdateNeverAssigns | apache-nutch-1.1/src/plugin/watchlist-burberry/src/java/org/apache/nutch/watchlist/burberry/BurberryParser.java:202-211 | no node's price rule ever assigns a price, since the pattern as written never matches |
| Burberry.PriceStaysNull | apache-nutch-1.1/src/plugin/watchlist-burberry/src/java/org/apache/nutch/watchlist/burberry/BurberryParser.java:185-211 | over any sequence of nodes the price field keeps its initial value: the parser's price stays null |
| Burberry.Visit | apache-nutch-1.1/src/plugin/watchlist-burberry/src/java/org/apache/nutch/watchlist/burberry/BurberryParser.java:201-226 | throws exactly on a price span left with no first child by `normalize()`; otherwise applies the price rule (with the pattern as written), else the image rule |
| Burberry.FoldThrows | apache-nutch-1.1/src/plugin/watchlist-burberry/src/java/org/apache/nutch/watchlist/burberry/BurberryParser.java:202-204 | a walk throws exactly when some node is a price span with no first child after `normalize()` |
| Burberry.FoldFields | apache-nutch-1.1/src/plugin/watchlist-burberry/src/java/org/apache/nutch/watchlist/burberry/BurberryParser.java:208-222 | after a walk that does not throw: the last price and the last image assigned (with the as-written price rule, which `PriceStaysNull` shows assigns nothing) |
| Burberry.ParseCollects | apache-nutch-1.1/src/plugin/watchlist-burberry/src/java/org/apache/nutch/watchlist/burberry/BurberryParser.java:188-191 | after `new Parser(doc, item)`: throws exactly when a price span of the document has no first child after `normalize()`; otherwise the price is still null and the image is the last one a product-image div offers, in pre-order |
| Burberry.Parser.constructor | apache-nutch-1.1/src/plugin/watchlist-burberry/src/java/org/apache/nutch/watchlist/burberry/BurberryParser.java:184-189 | fields start with the item number and nulls |
| Burberry.Parser.GetPrice | apache-nutch-1.1/src/plugin/watchlist-burberry/src/java/org/apache/nutch/watchlist/burberry/BurberryParser.java:193-195 | `getPrice` always answers "10" |
| Burberry.Parser.VisitNode | apache-nutch-1.1/src/plugin/watchlist-burberry/src/java/org/apache/nutch/watchlist/burberry/BurberryParser.java:202-226 | one node's in-place update is the pure visit, so the price field is never written (`PriceUpdateNeverAssigns`) |
| Burberry.Parser.Parse | apache-nutch-1.1/src/plugin/watchlist-burberry/src/java/org/apache/nutch/watchlist/burberry/BurberryParser.java:201-233 | the in-place recursive parse ends in the state, and with the exception, of the pure walk, whose result `ParseCollects` states: price null, last image |
| Burberry.SpanPrice | apache-nutch-1.1/src/plugin/watchlist-burberry/src/java/org/apache/nutch/watchlist/burberry/BurberryParser.java:203-211 | the price span's update on the normalized children, matching the pattern as written: throws with no first child, otherwise never assigns a price |
| Burberry.DivImageOf | apache-nutch-1.1/src/plugin/watchlist-burberry/src/java/org/apache/nutch/watchlist/burberry/BurberryParser.java:214-225 | the image of a product-image div: the `src` of its first `<img>`, else of its first `<a>`'s first `<img>` |
| Burberry.GetChildWithTypeAndName | apache-nutch-1.1/src/plugin/watchlist-burberry/src/java/org/apache/nutch/watchlist/burberry/BurberryParser.java:263-272 | the loop returns the first matching child, or null |
| Burberry.GetNamedChild | apache-nutch-1.1/src/plugin/watchlist-burberry/src/java/org/apache/nutch/watchlist/burberry/BurberryParser.java:274-276 | the first element child with that name ignoring case |
| Burberry.FilterOutcome | apache-nutch-1.1/src/plugin/watchlist-burberry/src/java/org/apache/nutch/watchlist/burberry/BurberryParser.java:105-158 | not a product exactly when step 1 fails; recorded exactly when it is a product, no price span throws and an image was found, carrying step 1's item number and title, price "10" and the last image |
| Burberry.BurberryParser.Filter | apache-nutch-1.1/src/plugin/watchlist-burberry/src/java/org/apache/nutch/watchlist/burberry/BurberryParser.java:96-163 | appends exactly the six metadata entries of a recorded page, else nothing |
| Burberry.BurberryParser.Extract | apache-nutch-1.1/src/plugin/watchlist-burberry/src/java/org/apache/nutch/watchlist/burberry/BurberryParser.java:128-132 | runs the parser and classifies the page as the outcome function does |
| Burberry.AddProductMeta | apache-nutch-1.1/src/plugin/watchlist-burberry/src/java/org/apache/nutch/watchlist/burberry/BurberryParser.java:134-141 | the six `meta.add` calls, in order, with their keys |
| AnnTaylor.FindMatch | apache-nutch-1.1/src/plugin/watchlist-anntaylor/src/java/org/apache/nutch/watchlist/anntaylor/AnnTaylorParser.java:69 | a found match satisfies the URL pattern |
| AnnTaylor.FindMatchIsLeftmostGreedy | apache-nutch-1.1/src/plugin/watchlist-anntaylor/src/java/org/apache/nutch/watchlist/anntaylor/AnnTaylorParser.java:99-100 | `find()` fails exactly when no match exists; otherwise it returns the leftmost match with the longest id |
| AnnTaylor.Group1 | apache-nutch-1.1/src/plugin/watchlist-anntaylor/src/java/org/apache/nutch/watchlist/anntaylor/AnnTaylorParser.java:101 | the product id is a non-empty digit string |
| AnnTaylor.ItemNumberMeans | apache-nutch-1.1/src/plugin/watchlist-anntaylor/src/java/org/apache/nutch/watchlist/anntaylor/AnnTaylorParser.java:96-110 | a product exactly when the URL matches with an id that fits in an `int`; the item number is its canonical digits |
| AnnTaylor.PriceUpdate | apache-nutch-1.1/src/plugin/watchlist-anntaylor/src/java/org/apache/nutch/watchlist/anntaylor/AnnTaylorParser.java:165-174 | never throws; assigns exactly on the `div.price > p.price` chain, and then the last child's text |
| AnnTaylor.Visit | apache-nutch-1.1/src/plugin/watchlist-anntaylor/src/java/org/apache/nutch/watchlist/anntaylor/AnnTaylorParser.java:151-175 | one node never throws; it applies the title and price rules |
| AnnTaylor.FoldCollects | apache-nutch-1.1/src/plugin/watchlist-anntaylor/src/java/org/apache/nutch/watchlist/anntaylor/AnnTaylorParser.java:151-182 | a walk never throws and leaves the last title and the last price assigned |
| AnnTaylor.TitleAlwaysNull | apache-nutch-1.1/src/plugin/watchlist-anntaylor/src/java/org/apache/nutch/watchlist/anntaylor/AnnTaylorParser.java:157-158 | the title stays null: an `<h1>` element's node value is null |
| AnnTaylor.ParseCollects | apache-nutch-1.1/src/plugin/watchlist-anntaylor/src/java/org/apache/nutch/watchlist/anntaylor/AnnTaylorParser.java:134-137 | the parser after `new Parser(doc, item)`: no title, no image, the document's last price |
| AnnTaylor.HdInfoPrice | apache-nutch-1.1/src/plugin/watchlist-anntaylor/src/java/org/apache/nutch/watchlist/anntaylor/AnnTaylorParser.java:165-174 | the nested checks compute the price rule |
| AnnTaylor.Parser.constructor | apache-nutch-1.1/src/plugin/watchlist-anntaylor/src/java/org/apache/nutch/watchlist/anntaylor/AnnTaylorParser.java:129-135 | fields start with the item number and nulls |
| AnnTaylor.Parser.VisitNode | apache-nutch-1.1/src/plugin/watchlist-anntaylor/src/java/org/apache/nutch/watchlist/anntaylor/AnnTaylorParser.java:152-175 | one node's in-place update is the pure visit |
| AnnTaylor.Parser.Parse | apache-nutch-1.1/src/plugin/watchlist-anntaylor/src/java/org/apache/nutch/watchlist/anntaylor/AnnTaylorParser.java:151-182 | the in-place recursive parse ends in the state of the pure walk |
| AnnTaylor.ParsedFields | apache-nutch-1.1/src/plugin/watchlist-anntaylor/src/java/org/apache/nutch/watchlist/anntaylor/AnnTaylorParser.java:112-120 | fields only for a product page: its item number, no title, no image, the last price |
| AnnTaylor.AnnTaylorParser.Filter | apache-nutch-1.1/src/plugin/watchlist-anntaylor/src/java/org/apache/nutch/watchlist/anntaylor/AnnTaylorParser.java:89-125 | returns the parse result it was given, unchanged, on every path |
| AnnTaylor.AnnTaylorParser.Extract | apache-nutch-1.1/src/plugin/watchlist-anntaylor/src/java/org/apache/nutch/watchlist/anntaylor/AnnTaylorParser.java:112-113 | runs the parser for a product page |
| InitDb.CommentTextStartsWithDashes | apache-nutch-1.1/src/java/org/apache/nutch/watchlist/InitDatabase.java:36 | a comment line is one whose trimmed text starts with "--" |
| InitDb.SemicolonEnding | apache-nutch-1.1/src/java/org/apache/nutch/watchlist/InitDatabase.java:38 | a terminator line is one whose trimmed text ends with ";" |
| InitDb.ClassifiedWellFormed | apache-nutch-1.1/src/java/org/apache/nutch/watchlist/InitDatabase.java:35-46 | every terminator's text ends with ";" |
| InitDb.ScriptRunSends | apache-nutch-1.1/src/java/org/apache/nutch/watchlist/InitDatabase.java:30-48 | the commands sent are a prefix of the script's commands, and the server accepted every one but the last, each asked about by its position and text; with no read failure and no rejection, all are sent |
| InitDb.ScriptRunCounts | apache-nutch-1.1/src/java/org/apache/nutch/watchlist/InitDatabase.java:24-60 | the count is -1 exactly when a read fails before any rejection; otherwise it is between 0 and the number of lines, and equal to that number on a clean run |
| InitDb.CommandsEndWithSemicolon | apache-nutch-1.1/src/java/org/apache/nutch/watchlist/InitDatabase.java:38-42 | every command sent ends with ";" |
| InitDb.OneCommandPerTerminator | apache-nutch-1.1/src/java/org/apache/nutch/watchlist/InitDatabase.java:38-42 | one command per terminator line |
| InitDb.TrailingTextNeverSent | apache-nutch-1.1/src/java/org/apache/nutch/watchlist/InitDatabase.java:43-46 | lines after the last terminator are never sent |
| InitDb.CommentChangesNothing | apache-nutch-1.1/src/java/org/apache/nutch/watchlist/InitDatabase.java:36-37 | removing a comment line changes neither the commands nor the pending text |
| InitDb.HandleLine | apache-nutch-1.1/src/java/org/apache/nutch/watchlist/InitDatabase.java:31-46 | one line: the specification's step; rejected exactly when the server refuses the command a terminator completes, asked by how many commands were sent before it |
| InitDb.RunSqlScript | apache-nutch-1.1/src/java/org/apache/nutch/watchlist/InitDatabase.java:21-62 | the commands sent and the line count are those of the specification of the run, for any server verdict on the n-th command sent |
| InitDb.SecondCopyRejected | apache-nutch-1.1/src/java/org/apache/nutch/watchlist/InitDatabase.java:38-48 | a server that runs a repeated command once and refuses its second copy: both copies are sent and the run stops after two lines |
| LogAnalysis.ColumnZeroIgnored | apache-nutch-1.1/script/log_analysis.py:24 | `find(...) > 0` misses a marker at column 0 |
| LogAnalysis.EndOfFileMarksNothing | apache-nutch-1.1/script/log_analysis.py:47 | the "" read at the end of the file holds no marker |
| LogAnalysis.SecondPiece | apache-nutch-1.1/script/log_analysis.py:26 | `split(START)[1]`: the slice after the first marker, ending at the next marker or the end of the line, with no marker inside it |
| LogAnalysis.StartUrl | apache-nutch-1.1/script/log_analysis.py:26 | the URL lies after the marker, with no surrounding whitespace |
| LogAnalysis.StartUrlMeans | apache-nutch-1.1/script/log_analysis.py:26 | the URL is the text between the first two markers with only whitespace cut from its ends |
| LogAnalysis.LastFieldMeans | apache-nutch-1.1/script/log_analysis.py:35-37 | the title is the text after the last ':' with only whitespace cut from its ends; it has no ':' and no surrounding whitespace |
| LogAnalysis.KindSane | apache-nutch-1.1/script/log_analysis.py:47 | at the end of the file, no start, header or end is seen |
| LogAnalysis.FinishAfter | apache-nutch-1.1/script/log_analysis.py:32 | a record's end lies within the log |
| LogAnalysis.FinishAfterMeans | apache-nutch-1.1/script/log_analysis.py:32 | a record ends at the first following line with the end marker; none ends when no line has it |
| LogAnalysis.OpenRecord | apache-nutch-1.1/script/log_analysis.py:24-31 | a start line followed by a header opens a record |
| LogAnalysis.PassOver | apache-nutch-1.1/script/log_analysis.py:50-51 | any other non-empty line is skipped |
| LogAnalysis.EndOfLog | apache-nutch-1.1/script/log_analysis.py:47-49 | "" ends the scan with the report so far |
| LogAnalysis.DiscardNext | apache-nutch-1.1/script/log_analysis.py:28-29 | a start line not followed by a header consumes that next line too |
| LogAnalysis.RecordStep | apache-nutch-1.1/script/log_analysis.py:30-46 | a record line without the end marker extends the record by one step |
| LogAnalysis.TitleAfterNone | apache-nutch-1.1/script/log_analysis.py:31 | a record without a title line keeps the title "Unknown" |
| LogAnalysis.TitleAfterLast | apache-nutch-1.1/script/log_analysis.py:34-37 | otherwise the title is that of its last title line |
| LogAnalysis.RunBodyCounts | apache-nutch-1.1/script/log_analysis.py:34-38 | a record adds its title lines to the total |
| LogAnalysis.RunBodyLists | apache-nutch-1.1/script/log_analysis.py:39-45 | a record appends, under its URL only, the title in effect at each null warning; its URL becomes a key exactly when it has one |
| LogAnalysis.TalliedCounts | apache-nutch-1.1/script/log_analysis.py:38 | the total counts the title lines of all records |
| LogAnalysis.TalliedLists | apache-nutch-1.1/script/log_analysis.py:39-45 | each URL lists the null titles of its records, in log order |
| LogAnalysis.TalliedKeys | apache-nutch-1.1/script/log_analysis.py:40-44 | a URL is a key exactly when one of its records has a null warning |
| LogAnalysis.ErrorSetMeans | apache-nutch-1.1/script/log_analysis.py:15-56 | the scan ends exactly when every opened record ends; the dictionary then has exactly the URLs with a null warning, each listing its titles, and the total counts every title line |
| LogAnalysis.UnfinishedRecord | apache-nutch-1.1/script/log_analysis.py:30-32 | records are missing only when an opened record never ends |
| LogAnalysis.DivergesOnlyOnUnfinishedRecord | apache-nutch-1.1/script/log_analysis.py:30-46 | the scan runs forever only when a start line and a header are followed by no end marker |
| LogAnalysis.NoStartEmptyReport | apache-nutch-1.1/script/log_analysis.py:22-51 | a log without start lines gives an empty dictionary and total 0 |
| LogAnalysis.RecordsFrame | apache-nutch-1.1/script/log_analysis.py:22-51 | the records from a line on depend only on the lines from there on |
| LogAnalysis.DiscardedLine | apache-nutch-1.1/script/log_analysis.py:28-29 | the line after a start line without a header is never examined for a start marker |
| LogAnalysis.RecordLine | apache-nutch-1.1/script/log_analysis.py:33-45 | the loop body for one record line is the specification's step |
| LogAnalysis.ReadRecord | apache-nutch-1.1/script/log_analysis.py:30-46 | the inner loop finishes exactly when the record ends, reads up to its end marker, and tallies the record's lines |
| LogAnalysis.BuildErrorSet | apache-nutch-1.1/script/log_analysis.py:15-56 | the scan's outcome is the specification's |

## Left out

- Logging, `print`, `printStackTrace` and the source's messages are not modelled. The log
  analyser's input log is a parameter.
- `Strings.EqualsIgnoreCase` folds ASCII letters only. Java's `equalsIgnoreCase` also folds
  other Unicode letters, so the model rejects some non-ASCII equalities that Java accepts.
- `new URL(...)` and its normalisation are not modelled. The base URL is a parameter, `None`
  when the constructor throws, and otherwise the URL's text.
- `Float.parseFloat` is not modelled. Every text the price patterns capture is a decimal
  literal, which it accepts (`Decimals.FloatTextIsLiteral`).
- The DOM is a finite immutable tree of elements, texts and attributes:
  - `normalize()` is modelled only by its effect on the span's first child, which the Burberry
    rule reads (`Burberry.NormalizedFirst`).
  - Other DOM node kinds are not modelled.
- Exceptions inside `parse` are the ones the modelled paths raise: a missing child or a null
  node value where the code dereferences one.
- JDBC is not modelled:
  - Driver loading, `DriverManager.getConnection`, the configuration lookups with their
    default values, `ResultSet`/`Statement` closing and `Statement.execute` itself are not
    modelled.
  - The connect-and-prepare step is the constructor's `prepared` argument.
  - The server's answer to an insert is the `response` argument.
  - The server's verdict on a script command is the `rejects` argument, a function of the
    command's position among those sent and its text. The commands before it are fixed by the
    script, so this covers a server whose answer depends on what it ran before.
- `IdGen.MysqlIdGenerator.Generate`: concurrent callers and the table's own locking are not
  modelled. The source relies on the database's auto-increment for uniqueness across threads.
- Three things are outside this model: the `IdGenerator` interface (with its configuration key
  names), `PoolingDataDriver`, and `JCrewIndexingFilter`. The J.Crew filter receives its
  generator as a constructor argument instead of `setConf`.
- InitDatabase: `initMySqlDatabase`, `main` and `createStatement` are not part of this model.
  An `IOException` from `close()` is not modelled either: the model's `readFailsAt` covers only
  opening and reading the file.
- `InitDb.RunSqlScript`: the file's lines are a parameter, without their terminators.
- log_analysis.py: `main`, `options_parser` and the fetch of remote URLs are not part of this
  model. Also left out is a failure to open the log file, where the `finally` block's
  `f.close()` itself fails.
- `LogAnalysis.BuildErrorSet`: the log scan that never ends is the outcome `Diverges`. The
  method stops on such a log instead of looping; what it returns on other logs is exact.
  Python's dictionary order is not modelled: the dictionary is a `map`.
- `getConf`/`setConf` and the plugins' other `Configurable` plumbing are not modelled.

## Findings

| source | as written | input that shows it | evidently intended | confidence | as-written member | corrected member |
|---|---|---|---|---|---|---|
| apache-nutch-1.1/src/plugin/watchlist-burberry/src/java/org/apache/nutch/watchlist/burberry/BurberryParser.java:72 | `$(\d+\.\d+)`: the unescaped `$` is the end-of-input anchor, so digits can never follow it and the price pattern never matches | the price text "$12.50" | `\$(\d+\.\d+)`: the decimal after a dollar sign, here "12.50" | not executed; the parser's `getPrice` returns the constant "10" anyway, so no recorded price changes, and the parser model keeps the pattern as written (its price stays null) | Burberry.PriceCounterexample | Burberry.PriceMatchMeans |
