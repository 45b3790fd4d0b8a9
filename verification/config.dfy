/** The watch list's configuration keys: each names an XML attribute and a label for display. */
module Config {
  import opened Wrappers
  import opened Strings

  /** The enum's constants, in declaration order. */
  datatype WatchListConfig =
    | JDBC_DRIVER
    | JDBC_URL
    | JDBC_USER
    | JDBC_PASSWORD
    | JDBC_ID_GEN_TABLE
    | NONE
  {
    /** `getAttributeString()`: the key in the XML configuration. */
    function AttributeString(): string {
      match this
      case JDBC_DRIVER => "watchlist.jdbc.driver"
      case JDBC_URL => "watchlist.jdbc.url"
      case JDBC_USER => "watchlist.jdbc.user"
      case JDBC_PASSWORD => "watchlist.jdbc.password"
      case JDBC_ID_GEN_TABLE => "watchlist.jdbc.idgenerator.table"
      case NONE => "none"
    }

    /** `getDisplayName()`: the label shown to a user. */
    function DisplayName(): string {
      match this
      case JDBC_DRIVER => "JDBC Driver to be used"
      case JDBC_URL => "The JDBC URL to access Database"
      case JDBC_USER => "JDBC user name"
      case JDBC_PASSWORD => "The JDBC password"
      case JDBC_ID_GEN_TABLE => "The Table for IdGenerator"
      case NONE => "end of configuration"
    }
  }

  /** `values()`: the constants in declaration order. */
  function Values(): seq<WatchListConfig> {
    [JDBC_DRIVER, JDBC_URL, JDBC_USER, JDBC_PASSWORD, JDBC_ID_GEN_TABLE, NONE]
  }

  /** Every constant appears in `values()`, exactly once. */
  lemma ValuesListsEachOnce(c: WatchListConfig)
    ensures exists i :: 0 <= i < |Values()| && Values()[i] == c
    ensures forall i, j :: 0 <= i < j < |Values()| ==> Values()[i] != Values()[j]
  {
    var vs := Values();
    match c
    case JDBC_DRIVER => assert vs[0] == c;
    case JDBC_URL => assert vs[1] == c;
    case JDBC_USER => assert vs[2] == c;
    case JDBC_PASSWORD => assert vs[3] == c;
    case JDBC_ID_GEN_TABLE => assert vs[4] == c;
    case NONE => assert vs[5] == c;
  }

  /** `c`'s attribute string equals `s` ignoring case. */
  predicate Named(c: WatchListConfig, s: string) { EqualsIgnoreCase(c.AttributeString(), s) }

  /**
   * The specification of `fromAttributeString`: the first constant of `vs` named `s`, or the
   * default when there is none.
   */
  function FirstNamed(vs: seq<WatchListConfig>, s: string, defaultType: WatchListConfig): WatchListConfig {
    if vs == [] then defaultType
    else if Named(vs[0], s) then vs[0]
    else FirstNamed(vs[1..], s, defaultType)
  }

  /** The lookup returns the first constant named `s`. */
  lemma {:induction false} FirstNamedIs(vs: seq<WatchListConfig>, s: string, defaultType: WatchListConfig, i: nat)
    requires i < |vs| && Named(vs[i], s)
    requires forall j :: 0 <= j < i ==> !Named(vs[j], s)
    ensures FirstNamed(vs, s, defaultType) == vs[i]
  {
    if i > 0 {
      assert !Named(vs[0], s);
      var tail := vs[1..];
      assert forall j :: 0 <= j < i - 1 ==> tail[j] == vs[j + 1];
      FirstNamedIs(tail, s, defaultType, i - 1);
    }
  }

  /** When no constant is named `s`, the lookup returns the default. */
  lemma {:induction false} FirstNamedDefault(vs: seq<WatchListConfig>, s: string, defaultType: WatchListConfig)
    requires forall i :: 0 <= i < |vs| ==> !Named(vs[i], s)
    ensures FirstNamed(vs, s, defaultType) == defaultType
  {
    if vs != [] {
      assert forall i :: 0 <= i < |vs[1..]| ==> vs[1..][i] == vs[i + 1];
      FirstNamedDefault(vs[1..], s, defaultType);
    }
  }

  /**
   * `fromAttributeString(attString, defaultType)`: the constants in declaration order, the first
   * whose attribute string equals `attString` ignoring case; a null or unknown string gives the
   * default.
   */
  method FromAttributeString(attString: Option<string>, defaultType: WatchListConfig) returns (r: WatchListConfig)
    ensures r == if attString.Some? then FirstNamed(Values(), attString.value, defaultType) else defaultType
  {
    if attString.Some? {
      var values := Values();
      for i := 0 to |values|
        invariant FirstNamed(values, attString.value, defaultType) == FirstNamed(values[i..], attString.value, defaultType)
      {
        if EqualsIgnoreCase(values[i].AttributeString(), attString.value) {
          return values[i];
        }
        assert values[i..][1..] == values[i + 1..];
      }
    }
    return defaultType;
  }

  /** No two constants have attribute strings equal ignoring case. */
  lemma AttributeStringsDistinct(c: WatchListConfig, d: WatchListConfig)
    ensures Named(c, d.AttributeString()) <==> c == d
  {
    if c == d {
      assert EqualsIgnoreCase(c.AttributeString(), c.AttributeString());
    }
  }

  /** Round trip: looking up a constant's attribute string gives back that constant. */
  lemma LookupAttributeString(c: WatchListConfig, defaultType: WatchListConfig)
    ensures FirstNamed(Values(), c.AttributeString(), defaultType) == c
  {
    var vs := Values();
    forall i | 0 <= i < |vs| ensures Named(vs[i], c.AttributeString()) <==> vs[i] == c {
      AttributeStringsDistinct(vs[i], c);
    }
    ValuesListsEachOnce(c);
    var i :| 0 <= i < |vs| && vs[i] == c;
    assert Named(vs[i], c.AttributeString());
    FirstNamedIs(vs, c.AttributeString(), defaultType, i);
  }

  /** Two spellings that agree ignoring case find the same entry of any list. */
  lemma {:induction false} FirstNamedIgnoresCase(vs: seq<WatchListConfig>, a: string, b: string, defaultType: WatchListConfig)
    requires EqualsIgnoreCase(a, b)
    ensures FirstNamed(vs, a, defaultType) == FirstNamed(vs, b, defaultType)
  {
    if vs != [] {
      assert Named(vs[0], a) <==> Named(vs[0], b);
      FirstNamedIgnoresCase(vs[1..], a, b, defaultType);
    }
  }

  /** When some entry of a list is named `s`, the lookup finds an entry named `s`. */
  lemma {:induction false} FirstNamedFound(vs: seq<WatchListConfig>, s: string, defaultType: WatchListConfig, i: nat)
    requires i < |vs| && Named(vs[i], s)
    ensures Named(FirstNamed(vs, s, defaultType), s)
  {
    if !Named(vs[0], s) {
      assert vs[1..][i - 1] == vs[i];
      FirstNamedFound(vs[1..], s, defaultType, i - 1);
    }
  }

  /** The lookup ignores case: two spellings that agree ignoring case find the same constant. */
  lemma LookupIgnoresCase(a: string, b: string, defaultType: WatchListConfig)
    requires EqualsIgnoreCase(a, b)
    ensures FirstNamed(Values(), a, defaultType) == FirstNamed(Values(), b, defaultType)
  {
    FirstNamedIgnoresCase(Values(), a, b, defaultType);
  }

  /** A string that names some constant finds one it names; one that names none gives the default. */
  lemma LookupFindsNamed(s: string, defaultType: WatchListConfig)
    ensures (exists c :: Named(c, s)) ==> Named(FirstNamed(Values(), s, defaultType), s)
    ensures (forall c :: !Named(c, s)) ==> FirstNamed(Values(), s, defaultType) == defaultType
  {
    var vs := Values();
    if c :| Named(c, s) {
      ValuesListsEachOnce(c);
      var i :| 0 <= i < |vs| && vs[i] == c;
      FirstNamedFound(vs, s, defaultType, i);
    } else {
      FirstNamedDefault(vs, s, defaultType);
    }
  }
}
