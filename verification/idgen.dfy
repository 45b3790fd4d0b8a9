/**
 * MysqlIdGenerator: primary keys minted by inserting a row into an AUTO_INCREMENT table and
 * reading back the generated key. The table is abstracted as its counter and its rows; the
 * database's answer to each insert is a parameter.
 */
module IdGen {
  import opened Wrappers
  import opened Strings

  /** `Long.MAX_VALUE`: ids are signed 64-bit, so 63 bits are usable. */
  const MAX_LONG: int := 0x7fff_ffff_ffff_ffff

  /** The name `generate()` stores. */
  const UNKNOWN_LABEL: string := "unknown"

  /** What the database does with one `executeUpdate` of the insert statement. */
  datatype InsertResponse =
    | Accepted      // the row is inserted and its key is returned
    | KeyMissing    // the row is inserted but `getGeneratedKeys()` is empty
    | Refused       // `executeUpdate` throws (connection lost, constraint, ...)

  /** The id table: `id` AUTO_INCREMENT, `orig_table` the name it was asked for. */
  class Table {
    /** The next value AUTO_INCREMENT hands out. */
    var nextId: int
    ghost var rows: seq<(int, string)>

    /** Ids are positive, below the counter, and strictly increasing in insertion order. */
    ghost predicate Valid()
      reads this
    {
      && nextId >= 1
      && (forall i :: 0 <= i < |rows| ==> 1 <= rows[i].0 < nextId)
      && (forall i, j :: 0 <= i < j < |rows| ==> rows[i].0 < rows[j].0)
    }

    ghost function Ids(): set<int>
      reads this
    {
      set i | 0 <= i < |rows| :: rows[i].0
    }

    constructor Empty()
      ensures Valid() && rows == [] && nextId == 1
    {
      nextId := 1;
      rows := [];
    }

    /**
     * One insert of `origTable`. A BIGINT counter past `Long.MAX_VALUE` makes the database refuse
     * the insert, whatever `response` says.
     */
    method Insert(origTable: string, response: InsertResponse) returns (key: Option<int>)
      requires Valid()
      modifies this
      ensures Valid()
      ensures var inserted := response != Refused && old(nextId) <= MAX_LONG;
        && (inserted ==> rows == old(rows) + [(old(nextId), origTable)] && nextId == old(nextId) + 1)
        && (!inserted ==> rows == old(rows) && nextId == old(nextId))
        && key == (if inserted && response == Accepted then Some(old(nextId)) else None)
      ensures key.Some? ==> key.value in Ids() && key.value !in old(Ids())
    {
      if response != Refused && nextId <= MAX_LONG {
        rows := rows + [(nextId, origTable)];
        if response == Accepted {
          key := Some(nextId);
        } else {
          key := None;
        }
        nextId := nextId + 1;
        assert rows[|rows| - 1].0 in Ids();
      } else {
        key := None;
      }
    }
  }

  /** The class's static `connection`/`insertStmt`: one prepared insert shared by every instance. */
  class Statics {
    var insertStmt: Table?

    constructor ()
      ensures insertStmt == null
    {
      insertStmt := null;
    }
  }

  class MysqlIdGenerator {
    const statics: Statics

    /**
     * Connecting and preparing the insert replace the shared statement; when they fail
     * (`prepared == null`) the previous statement, or none, stays in place.
     */
    constructor (statics: Statics, prepared: Table?)
      modifies statics
      ensures this.statics == statics
      ensures statics.insertStmt == if prepared != null then prepared else old(statics.insertStmt)
    {
      this.statics := statics;
      if prepared != null {
        statics.insertStmt := prepared;
      }
    }

    ghost function Store(): set<object>
      reads this, statics
    {
      if statics.insertStmt != null then {statics.insertStmt} else {}
    }

    /** `generate()`: `generate` with the name "unknown". */
    method Generate(response: InsertResponse) returns (id: int)
      requires statics.insertStmt != null ==> statics.insertStmt.Valid()
      modifies Store()
      ensures statics.insertStmt == old(statics.insertStmt)
      ensures Issued(old(statics.insertStmt), Some(UNKNOWN_LABEL), response, id)
    {
      id := Insert(UNKNOWN_LABEL, response);
    }

    /** `generate(tableName)`: the trimmed name is stored; a null name fails before the insert. */
    method GenerateFor(tableName: Option<string>, response: InsertResponse) returns (id: int)
      requires statics.insertStmt != null ==> statics.insertStmt.Valid()
      modifies Store()
      ensures statics.insertStmt == old(statics.insertStmt)
      ensures Issued(old(statics.insertStmt), tableName.Map(Trim), response, id)
    {
      if tableName.None? {
        id := -1;
        return;
      }
      id := Insert(Trim(tableName.value), response);
    }

    /** The body both overloads share: -1 on every failure, the generated key otherwise. */
    method Insert(origTable: string, response: InsertResponse) returns (id: int)
      requires statics.insertStmt != null ==> statics.insertStmt.Valid()
      modifies Store()
      ensures statics.insertStmt == old(statics.insertStmt)
      ensures Issued(old(statics.insertStmt), Some(origTable), response, id)
    {
      var stmt := statics.insertStmt;
      if stmt == null {
        id := -1;
        return;
      }
      var key := stmt.Insert(origTable, response);
      id := if key.Some? then key.value else -1;
    }
  }

  /**
   * What one `generate` call did to the table behind `stmt`, given the name (null fails) and
   * the database's response: with no statement or no name, nothing and -1; otherwise the
   * table's insert, whose key (or -1) is returned. Every id returned is new, positive and fits
   * in 63 bits; the name never influences it.
   */
  twostate predicate Issued(stmt: Table?, origTable: Option<string>, response: InsertResponse, id: int)
    reads stmt
  {
    if stmt == null || origTable.None? then
      id == -1 && (stmt != null ==> unchanged(stmt))
    else
      var inserted := response != Refused && old(stmt.nextId) <= MAX_LONG;
      && stmt.Valid()
      && (inserted ==> stmt.rows == old(stmt.rows) + [(old(stmt.nextId), origTable.value)]
                       && stmt.nextId == old(stmt.nextId) + 1)
      && (!inserted ==> stmt.rows == old(stmt.rows) && stmt.nextId == old(stmt.nextId))
      && id == (if inserted && response == Accepted then old(stmt.nextId) else -1)
      && (id != -1 ==> 1 <= id <= MAX_LONG && id !in old(stmt.Ids()) && id in stmt.Ids())
  }

  /**
   * The unit test's scenario: against an empty table, `generate()`, `generate("have fun")` and
   * `generate(" ")` return 1, 2 and 3, whatever the names.
   */
  method ThreeIdsFromEmptyTable() returns (a: int, b: int, c: int)
    ensures a == 1 && b == 2 && c == 3
  {
    var table := new Table.Empty();
    var statics := new Statics();
    var gen := new MysqlIdGenerator(statics, table);
    a := gen.Generate(Accepted);
    b := gen.GenerateFor(Some("have fun"), Accepted);
    c := gen.GenerateFor(Some(" "), Accepted);
  }

  /**
   * Instances share the statement: once a second generator is built on another table, the
   * first one inserts there too, so the two draw from one counter.
   */
  method SharedStatement() returns (first: int, second: int)
    ensures first == 1 && second == 2
  {
    var t1 := new Table.Empty();
    var t2 := new Table.Empty();
    var statics := new Statics();
    var g1 := new MysqlIdGenerator(statics, t1);
    var g2 := new MysqlIdGenerator(statics, t2);
    first := g1.Generate(Accepted);
    second := g2.Generate(Accepted);
  }
}
