/**
 * The Lookup Store's loading rules as functions of the rows read, one row at a time:
 *  - `_load_csv_to_dict`: key each row by `key_type(row[key_field])`, insert-if-absent or
 *    overwrite; the first row whose key raises ends the load (the exception is caught outside
 *    the loop), and what was inserted before it stays.
 *  - `_load_transaction_items`: append each row to the list of its `transaction_id`; a row
 *    without that column ends the load in the same way.
 * The importer class applies these to its dictionaries; the lemmas here state what they do.
 */
module LookupStore {
  import opened Wrappers
  import opened Rows

  // ---------------------------------------------------------------------------------------
  // Keyed tables

  /** `key_type`: a conversion of the key column's text that may raise (`None`). */
  type KeyType = string -> Option<int>

  datatype LoadResult = LoadResult(table: map<int, Row>, stoppedAt: Option<nat>)

  /** `key_type(row[key_field])`, `None` when either the lookup or the conversion raises. */
  function Key(row: Row, keyField: string, keyType: KeyType): Option<int> {
    if keyField in row then keyType(row[keyField]) else None
  }

  /** One insertion: with `overwrite` false an existing key keeps its row. */
  function Put(m: map<int, Row>, key: int, row: Row, overwrite: bool): map<int, Row> {
    if !overwrite && key in m then m else m[key := row]
  }

  function Later(stop: Option<nat>, n: nat): Option<nat> {
    if stop.Some? then Some(stop.value + n) else None
  }

  /** The rows loaded into `m` in file order; `stoppedAt` is the row whose key raised, if any. */
  function LoadRows(m: map<int, Row>, rows: seq<Row>, keyField: string, keyType: KeyType, overwrite: bool): (r: LoadResult)
    ensures m.Keys <= r.table.Keys
    ensures r.stoppedAt.Some? ==> r.stoppedAt.value < |rows| && Key(rows[r.stoppedAt.value], keyField, keyType).None?
    decreases |rows|
  {
    if rows == [] then LoadResult(m, None)
    else match Key(rows[0], keyField, keyType)
      case None => LoadResult(m, Some(0))
      case Some(k) =>
        var rest := LoadRows(Put(m, k, rows[0], overwrite), rows[1..], keyField, keyType, overwrite);
        LoadResult(rest.table, Later(rest.stoppedAt, 1))
  }

  lemma LaterTwice(stop: Option<nat>, a: nat, b: nat)
    ensures Later(Later(stop, a), b) == Later(stop, a + b)
  {
  }

  /** How many rows a load consumed. */
  function Consumed(r: LoadResult, rows: seq<Row>): nat {
    if r.stoppedAt.Some? && r.stoppedAt.value <= |rows| then r.stoppedAt.value else |rows|
  }

  predicate Keyed(rows: seq<Row>, keyField: string, keyType: KeyType) {
    forall i :: 0 <= i < |rows| ==> Key(rows[i], keyField, keyType).Some?
  }

  function KeysOf(rows: seq<Row>, keyField: string, keyType: KeyType): set<int>
    requires Keyed(rows, keyField, keyType)
  {
    set i | 0 <= i < |rows| :: Key(rows[i], keyField, keyType).value
  }

  /** No row after row j has row j's key. */
  predicate LastWithKey(rows: seq<Row>, keyField: string, keyType: KeyType, j: int)
    requires 0 <= j < |rows|
  {
    forall i :: j < i < |rows| ==> Key(rows[i], keyField, keyType) != Key(rows[j], keyField, keyType)
  }

  /** No row before row j has row j's key. */
  predicate FirstWithKey(rows: seq<Row>, keyField: string, keyType: KeyType, j: int)
    requires 0 <= j < |rows|
  {
    forall i :: 0 <= i < j ==> Key(rows[i], keyField, keyType) != Key(rows[j], keyField, keyType)
  }

  /** Reading row i of a load: its key inserted, then the load goes on from row i + 1. */
  lemma LoadStep(m: map<int, Row>, rows: seq<Row>, i: nat, keyField: string, keyType: KeyType, overwrite: bool)
    requires i < |rows| && Key(rows[i], keyField, keyType).Some?
    ensures var rest := LoadRows(Put(m, Key(rows[i], keyField, keyType).value, rows[i], overwrite), rows[i + 1..], keyField, keyType, overwrite);
      LoadRows(m, rows[i..], keyField, keyType, overwrite) == LoadResult(rest.table, Later(rest.stoppedAt, 1))
  {
    assert rows[i..][0] == rows[i] && rows[i..][1..] == rows[i + 1..];
  }

  /**
   * One iteration: `key_type(row[key_field])`, which may raise; then the row stored under the
   * key unless `overwrite` is off and the key is taken.
   */
  method StoreRow(table0: map<int, Row>, row: Row, keyField: string, keyType: KeyType, overwrite: bool)
    returns (table: map<int, Row>, raised: bool)
    ensures raised == Key(row, keyField, keyType).None?
    ensures raised ==> table == table0
    ensures !raised ==> table == Put(table0, Key(row, keyField, keyType).value, row, overwrite)
  {
    table := table0;
    if keyField !in row || keyType(row[keyField]).None? {
      return table, true;
    }
    var key := keyType(row[keyField]).value;
    raised := false;
    if !overwrite && key in table {
      return;
    }
    table := table[key := row];
  }

  /**
   * The whole load seen from row i: what loading rows[i..] into `m` gives, with the stopping
   * row counted from the start of the file.
   */
  function ResumeLoad(m: map<int, Row>, rows: seq<Row>, i: nat, keyField: string, keyType: KeyType, overwrite: bool): LoadResult
    requires i <= |rows|
  {
    var rest := LoadRows(m, rows[i..], keyField, keyType, overwrite);
    LoadResult(rest.table, Later(rest.stoppedAt, i))
  }

  lemma LoadStart(m: map<int, Row>, rows: seq<Row>, keyField: string, keyType: KeyType, overwrite: bool)
    ensures ResumeLoad(m, rows, 0, keyField, keyType, overwrite) == LoadRows(m, rows, keyField, keyType, overwrite)
  {
    assert rows[0..] == rows;
  }

  lemma LoadEnd(m: map<int, Row>, rows: seq<Row>, keyField: string, keyType: KeyType, overwrite: bool)
    ensures ResumeLoad(m, rows, |rows|, keyField, keyType, overwrite) == LoadResult(m, None)
  {
    assert rows[|rows|..] == [];
  }

  /** Row i read with a key: the load resumes at row i + 1 from the table with that row put in. */
  lemma LoadAdvance(m: map<int, Row>, rows: seq<Row>, i: nat, keyField: string, keyType: KeyType, overwrite: bool)
    requires i < |rows| && Key(rows[i], keyField, keyType).Some?
    ensures ResumeLoad(m, rows, i, keyField, keyType, overwrite)
      == ResumeLoad(Put(m, Key(rows[i], keyField, keyType).value, rows[i], overwrite), rows, i + 1, keyField, keyType, overwrite)
  {
    LoadStep(m, rows, i, keyField, keyType, overwrite);
    var m' := Put(m, Key(rows[i], keyField, keyType).value, rows[i], overwrite);
    LaterTwice(LoadRows(m', rows[i + 1..], keyField, keyType, overwrite).stoppedAt, 1, i);
  }

  /** Row i read without a key: the load ends there with the table as it is. */
  lemma LoadHalt(m: map<int, Row>, rows: seq<Row>, i: nat, keyField: string, keyType: KeyType, overwrite: bool)
    requires i < |rows| && Key(rows[i], keyField, keyType).None?
    ensures ResumeLoad(m, rows, i, keyField, keyType, overwrite) == LoadResult(m, Some(i))
  {
    LoadStop(m, rows, i, keyField, keyType, overwrite);
  }

  /** A row whose key raises stops the load there. */
  lemma LoadStop(m: map<int, Row>, rows: seq<Row>, i: nat, keyField: string, keyType: KeyType, overwrite: bool)
    requires i < |rows| && Key(rows[i], keyField, keyType).None?
    ensures LoadRows(m, rows[i..], keyField, keyType, overwrite) == LoadResult(m, Some(0))
  {
    assert rows[i..][0] == rows[i];
  }

  /** What a lookup load printed: nothing, the missing-file warning, or the error of a row. */
  datatype LoadOutcome = Loaded | FileMissing | RowRaised(row: nat)

  /**
   * The loop of `_load_csv_to_dict` on the target dictionary `table`: `key_type(row[key_field])`
   * for each row in order, the row stored under that key unless `overwrite` is off and the key
   * is taken; the first row whose key raises ends the loop.
   */
  method InsertRows(table0: map<int, Row>, rows: seq<Row>, keyField: string, keyType: KeyType, overwrite: bool)
    returns (table: map<int, Row>, outcome: LoadOutcome)
    ensures var r := LoadRows(table0, rows, keyField, keyType, overwrite);
      && table == r.table
      && outcome == (if r.stoppedAt.Some? then RowRaised(r.stoppedAt.value) else Loaded)
  {
    table := table0;
    ghost var goal := LoadRows(table0, rows, keyField, keyType, overwrite);
    LoadStart(table0, rows, keyField, keyType, overwrite);
    var i := 0;
    while i < |rows|
      invariant i <= |rows| && goal == ResumeLoad(table, rows, i, keyField, keyType, overwrite)
    {
      var next, raised := StoreRow(table, rows[i], keyField, keyType, overwrite);
      if raised {
        LoadHalt(table, rows, i, keyField, keyType, overwrite);
        return table, RowRaised(i);
      }
      LoadAdvance(table, rows, i, keyField, keyType, overwrite);
      table, i := next, i + 1;
    }
    LoadEnd(table, rows, keyField, keyType, overwrite);
    return table, Loaded;
  }

  /**
   * The loop of `_load_transaction_items` on the map `groups`: each row appended to the list of
   * its `transaction_id` (a new list for a new id); the first row without one ends the loop.
   */
  method AppendRows(groups0: map<string, seq<Row>>, rows: seq<Row>)
    returns (groups: map<string, seq<Row>>, outcome: LoadOutcome)
    ensures var r := GroupRows(groups0, rows);
      && groups == r.groups
      && outcome == (if r.stoppedAt.Some? then RowRaised(r.stoppedAt.value) else Loaded)
  {
    groups := groups0;
    ghost var goal := GroupRows(groups0, rows);
    GroupStart(groups0, rows);
    var i := 0;
    while i < |rows|
      invariant i <= |rows| && goal == ResumeGroup(groups, rows, i)
    {
      var next, raised := AppendRow(groups, rows[i]);
      if raised {
        GroupHalt(groups, rows, i);
        return groups, RowRaised(i);
      }
      GroupAdvance(groups, rows, i);
      groups, i := next, i + 1;
    }
    GroupEnd(groups, rows);
    return groups, Loaded;
  }

  // ---------------------------------------------------------------------------------------
  // Lemmas about loads in which every row has a key

  lemma KeyedTail(rows: seq<Row>, keyField: string, keyType: KeyType)
    requires rows != [] && Keyed(rows, keyField, keyType)
    ensures Keyed(rows[1..], keyField, keyType)
    ensures KeysOf(rows, keyField, keyType)
         == {Key(rows[0], keyField, keyType).value} + KeysOf(rows[1..], keyField, keyType)
  {
    assert Keyed(rows[1..], keyField, keyType) by {
      forall i | 0 <= i < |rows[1..]| ensures Key(rows[1..][i], keyField, keyType).Some? {
        assert rows[1..][i] == rows[i + 1];
      }
    }
    var ks, rest := KeysOf(rows, keyField, keyType), KeysOf(rows[1..], keyField, keyType);
    forall k | k in ks ensures k in {Key(rows[0], keyField, keyType).value} + rest {
      var i :| 0 <= i < |rows| && Key(rows[i], keyField, keyType).value == k;
      if i > 0 { assert rows[1..][i - 1] == rows[i]; }
    }
    forall k | k in rest ensures k in ks {
      var i :| 0 <= i < |rows[1..]| && Key(rows[1..][i], keyField, keyType).value == k;
      assert rows[i + 1] == rows[1..][i];
    }
  }

  /** A keyed load adds exactly the rows' keys; a key no row has keeps its old row. */
  lemma {:induction false} KeyedLoadFrame(m: map<int, Row>, rows: seq<Row>, keyField: string, keyType: KeyType, overwrite: bool)
    requires Keyed(rows, keyField, keyType)
    ensures var r := LoadRows(m, rows, keyField, keyType, overwrite);
      && r.stoppedAt.None?
      && r.table.Keys == m.Keys + KeysOf(rows, keyField, keyType)
      && (forall k :: k in m && k !in KeysOf(rows, keyField, keyType) ==> r.table[k] == m[k])
      && (!overwrite ==> forall k :: k in m ==> r.table[k] == m[k])
    decreases |rows|
  {
    if rows != [] {
      KeyedTail(rows, keyField, keyType);
      var k := Key(rows[0], keyField, keyType).value;
      KeyedLoadFrame(Put(m, k, rows[0], overwrite), rows[1..], keyField, keyType, overwrite);
    }
  }

  /** With overwrite, the row of a key is the last row carrying it. */
  lemma {:induction false} KeyedLoadLastWins(m: map<int, Row>, rows: seq<Row>, keyField: string, keyType: KeyType, j: nat)
    requires Keyed(rows, keyField, keyType) && j < |rows| && LastWithKey(rows, keyField, keyType, j)
    ensures var t := LoadRows(m, rows, keyField, keyType, true).table;
      Key(rows[j], keyField, keyType).value in t && t[Key(rows[j], keyField, keyType).value] == rows[j]
    decreases |rows|
  {
    KeyedTail(rows, keyField, keyType);
    var k := Key(rows[0], keyField, keyType).value;
    var m' := Put(m, k, rows[0], true);
    if j == 0 {
      assert k !in KeysOf(rows[1..], keyField, keyType) by {
        forall i | 0 <= i < |rows[1..]| ensures Key(rows[1..][i], keyField, keyType).value != k {
          assert rows[1..][i] == rows[i + 1];
        }
      }
      KeyedLoadFrame(m', rows[1..], keyField, keyType, true);
    } else {
      assert LastWithKey(rows[1..], keyField, keyType, j - 1) by {
        forall i | j - 1 < i < |rows[1..]|
          ensures Key(rows[1..][i], keyField, keyType) != Key(rows[1..][j - 1], keyField, keyType)
        {
          assert rows[1..][i] == rows[i + 1] && rows[1..][j - 1] == rows[j];
        }
      }
      KeyedLoadLastWins(m', rows[1..], keyField, keyType, j - 1);
      assert rows[1..][j - 1] == rows[j];
    }
  }

  /** Without overwrite, a key new to the table gets the first row carrying it. */
  lemma {:induction false} KeyedLoadFirstWins(m: map<int, Row>, rows: seq<Row>, keyField: string, keyType: KeyType, j: nat)
    requires Keyed(rows, keyField, keyType) && j < |rows| && FirstWithKey(rows, keyField, keyType, j)
    requires Key(rows[j], keyField, keyType).value !in m
    ensures var t := LoadRows(m, rows, keyField, keyType, false).table;
      Key(rows[j], keyField, keyType).value in t && t[Key(rows[j], keyField, keyType).value] == rows[j]
    decreases |rows|
  {
    KeyedTail(rows, keyField, keyType);
    var k := Key(rows[0], keyField, keyType).value;
    var m' := Put(m, k, rows[0], false);
    if j == 0 {
      KeyedLoadFrame(m', rows[1..], keyField, keyType, false);
    } else {
      assert FirstWithKey(rows[1..], keyField, keyType, j - 1) by {
        forall i | 0 <= i < j - 1
          ensures Key(rows[1..][i], keyField, keyType) != Key(rows[1..][j - 1], keyField, keyType)
        {
          assert rows[1..][i] == rows[i + 1] && rows[1..][j - 1] == rows[j];
        }
      }
      assert rows[1..][j - 1] == rows[j];
      KeyedLoadFirstWins(m', rows[1..], keyField, keyType, j - 1);
    }
  }

  // ---------------------------------------------------------------------------------------
  // What a load does, for any rows

  /**
   * The first row whose key raises ends the load: every row before it has a key, the table is
   * what loading exactly those rows gives, and no row after it is read. A load runs to the end
   * exactly when every row has a key.
   */
  lemma {:induction false} LoadStopsAtFirstBadKey(m: map<int, Row>, rows: seq<Row>, keyField: string, keyType: KeyType, overwrite: bool)
    ensures var r := LoadRows(m, rows, keyField, keyType, overwrite);
      var n := Consumed(r, rows);
      && (r.stoppedAt.None? <==> Keyed(rows, keyField, keyType))
      && (r.stoppedAt.Some? ==> r.stoppedAt.value < |rows| && Key(rows[n], keyField, keyType).None?)
      && Keyed(rows[..n], keyField, keyType)
      && LoadRows(m, rows[..n], keyField, keyType, overwrite) == LoadResult(r.table, None)
    decreases |rows|
  {
    if rows == [] {
      assert rows[..0] == [];
    } else if Key(rows[0], keyField, keyType).None? {
      assert rows[..0] == [];
    } else {
      var k := Key(rows[0], keyField, keyType).value;
      LoadStopsAtFirstBadKey(Put(m, k, rows[0], overwrite), rows[1..], keyField, keyType, overwrite);
      StopsAfterFirst(m, rows, keyField, keyType, overwrite);
    }
  }

  /** The conclusion of LoadStopsAtFirstBadKey, for one starting table and one file. */
  predicate StopsAtFirstBadKey(m: map<int, Row>, rows: seq<Row>, keyField: string, keyType: KeyType, overwrite: bool) {
    var r := LoadRows(m, rows, keyField, keyType, overwrite);
    var n := Consumed(r, rows);
    && (r.stoppedAt.None? <==> Keyed(rows, keyField, keyType))
    && (r.stoppedAt.Some? ==> r.stoppedAt.value < |rows| && Key(rows[n], keyField, keyType).None?)
    && Keyed(rows[..n], keyField, keyType)
    && LoadRows(m, rows[..n], keyField, keyType, overwrite) == LoadResult(r.table, None)
  }

  /** The inductive step of LoadStopsAtFirstBadKey: a first row with a key is read and counted. */
  lemma {:induction false} StopsAfterFirst(m: map<int, Row>, rows: seq<Row>, keyField: string, keyType: KeyType, overwrite: bool)
    requires rows != [] && Key(rows[0], keyField, keyType).Some?
    requires StopsAtFirstBadKey(Put(m, Key(rows[0], keyField, keyType).value, rows[0], overwrite), rows[1..], keyField, keyType, overwrite)
    ensures StopsAtFirstBadKey(m, rows, keyField, keyType, overwrite)
  {
    var k := Key(rows[0], keyField, keyType).value;
    var rest := rows[1..];
    var m' := Put(m, k, rows[0], overwrite);
    var r' := LoadRows(m', rest, keyField, keyType, overwrite);
    var n' := Consumed(r', rest);
    var n := n' + 1;
    assert LoadRows(m, rows, keyField, keyType, overwrite) == LoadResult(r'.table, Later(r'.stoppedAt, 1));
    assert n == Consumed(LoadRows(m, rows, keyField, keyType, overwrite), rows);
    KeyedCons(rows, keyField, keyType);
    KeyedCons(rows[..n], keyField, keyType);
    assert rows[..n][0] == rows[0] && rows[..n][1..] == rest[..n'];
    if r'.stoppedAt.Some? {
      assert rows[n] == rest[n'];
    }
  }

  /** A file has a key in every row exactly when its first row does and the rest of it do. */
  lemma KeyedCons(rows: seq<Row>, keyField: string, keyType: KeyType)
    requires rows != []
    ensures Keyed(rows, keyField, keyType)
      <==> Key(rows[0], keyField, keyType).Some? && Keyed(rows[1..], keyField, keyType)
  {
    if Key(rows[0], keyField, keyType).Some? && Keyed(rows[1..], keyField, keyType) {
      forall i | 0 <= i < |rows| ensures Key(rows[i], keyField, keyType).Some? {
        if i > 0 { assert rows[i] == rows[1..][i - 1]; }
      }
    }
  }

  /**
   * `overwrite=False`: every key already present keeps its row, and the keys afterwards are the
   * old keys plus those of the rows read before the load stopped.
   */
  lemma LoadKeepsExisting(m: map<int, Row>, rows: seq<Row>, keyField: string, keyType: KeyType)
    ensures var r := LoadRows(m, rows, keyField, keyType, false);
      var n := Consumed(r, rows);
      && Keyed(rows[..n], keyField, keyType)
      && r.table.Keys == m.Keys + KeysOf(rows[..n], keyField, keyType)
      && forall k :: k in m ==> r.table[k] == m[k]
  {
    var n := Consumed(LoadRows(m, rows, keyField, keyType, false), rows);
    LoadStopsAtFirstBadKey(m, rows, keyField, keyType, false);
    KeyedLoadFrame(m, rows[..n], keyField, keyType, false);
  }

  /**
   * `overwrite=True`: the keys afterwards are the old keys plus those of the rows read, and
   * among the rows read the last one carrying a key is that key's row.
   */
  lemma LoadOverwriteLastWins(m: map<int, Row>, rows: seq<Row>, keyField: string, keyType: KeyType, j: nat)
    requires j < Consumed(LoadRows(m, rows, keyField, keyType, true), rows)
    requires LastWithKey(rows[..Consumed(LoadRows(m, rows, keyField, keyType, true), rows)], keyField, keyType, j)
    ensures var r := LoadRows(m, rows, keyField, keyType, true);
      var n := Consumed(r, rows);
      && Keyed(rows[..n], keyField, keyType)
      && r.table.Keys == m.Keys + KeysOf(rows[..n], keyField, keyType)
      && Key(rows[j], keyField, keyType).Some?
      && Key(rows[j], keyField, keyType).value in r.table
      && r.table[Key(rows[j], keyField, keyType).value] == rows[j]
  {
    var n := Consumed(LoadRows(m, rows, keyField, keyType, true), rows);
    LoadStopsAtFirstBadKey(m, rows, keyField, keyType, true);
    KeyedLoadFrame(m, rows[..n], keyField, keyType, true);
    KeyedLoadLastWins(m, rows[..n], keyField, keyType, j);
    assert rows[..n][j] == rows[j];
  }

  /** `overwrite=False`: a key that was not present gets the first row read that carries it. */
  lemma LoadFirstWins(m: map<int, Row>, rows: seq<Row>, keyField: string, keyType: KeyType, j: nat)
    requires j < Consumed(LoadRows(m, rows, keyField, keyType, false), rows)
    requires FirstWithKey(rows[..Consumed(LoadRows(m, rows, keyField, keyType, false), rows)], keyField, keyType, j)
    requires Key(rows[j], keyField, keyType).Some? ==> Key(rows[j], keyField, keyType).value !in m
    ensures var t := LoadRows(m, rows, keyField, keyType, false).table;
      && Key(rows[j], keyField, keyType).Some?
      && Key(rows[j], keyField, keyType).value in t
      && t[Key(rows[j], keyField, keyType).value] == rows[j]
  {
    var n := Consumed(LoadRows(m, rows, keyField, keyType, false), rows);
    LoadStopsAtFirstBadKey(m, rows, keyField, keyType, false);
    assert rows[..n][j] == rows[j];
    KeyedLoadFirstWins(m, rows[..n], keyField, keyType, j);
  }
  /**
   * One file loaded overwriting, then a second loaded keeping existing keys: the last row of the
   * first file read for a key is that key's row at the end, whatever the second file holds.
   */
  lemma {:induction false} LastThenKept(m: map<int, Row>, first: seq<Row>, second: seq<Row>, keyField: string, keyType: KeyType, j: nat)
    requires j < Consumed(LoadRows(m, first, keyField, keyType, true), first)
    requires LastWithKey(first[..Consumed(LoadRows(m, first, keyField, keyType, true), first)], keyField, keyType, j)
    ensures var key, middle := Key(first[j], keyField, keyType), LoadRows(m, first, keyField, keyType, true).table;
      var t := LoadRows(middle, second, keyField, keyType, false).table;
      && key.Some? && key.value in middle && middle[key.value] == first[j]
      && key.value in t && t[key.value] == first[j]
  {
    LoadOverwriteLastWins(m, first, keyField, keyType, j);
    var middle := LoadRows(m, first, keyField, keyType, true).table;
    KeptThrough(middle, second, keyField, keyType, Key(first[j], keyField, keyType).value);
  }

  lemma KeptThrough(m: map<int, Row>, rows: seq<Row>, keyField: string, keyType: KeyType, key: int)
    requires key in m
    ensures var t := LoadRows(m, rows, keyField, keyType, false).table;
      key in t && t[key] == m[key]
  {
    LoadKeepsExisting(m, rows, keyField, keyType);
  }


  // ---------------------------------------------------------------------------------------
  // Transaction items grouped by transaction id

  const TransactionIdField := "transaction_id"

  datatype GroupResult = GroupResult(groups: map<string, seq<Row>>, stoppedAt: Option<nat>)

  /** `transaction_items_map.get(tx, [])`. */
  function GroupOf(g: map<string, seq<Row>>, tx: string): seq<Row> {
    if tx in g then g[tx] else []
  }

  /** Append `row` to the list of `tx`, creating the list when it is not there yet. */
  function AppendItem(g: map<string, seq<Row>>, tx: string, row: Row): map<string, seq<Row>> {
    g[tx := GroupOf(g, tx) + [row]]
  }

  /** The item rows grouped in file order; `stoppedAt` is the first row without a transaction id. */
  function GroupRows(g: map<string, seq<Row>>, rows: seq<Row>): (r: GroupResult)
    ensures g.Keys <= r.groups.Keys
    ensures r.stoppedAt.Some? ==> r.stoppedAt.value < |rows| && TransactionIdField !in rows[r.stoppedAt.value]
    decreases |rows|
  {
    if rows == [] then GroupResult(g, None)
    else if TransactionIdField !in rows[0] then GroupResult(g, Some(0))
    else
      var rest := GroupRows(AppendItem(g, rows[0][TransactionIdField], rows[0]), rows[1..]);
      GroupResult(rest.groups, Later(rest.stoppedAt, 1))
  }

  function GroupConsumed(r: GroupResult, rows: seq<Row>): nat {
    if r.stoppedAt.Some? && r.stoppedAt.value <= |rows| then r.stoppedAt.value else |rows|
  }

  /**
   * One iteration: `row['transaction_id']`, which may raise; then the row appended to that
   * transaction's list, created empty when missing.
   */
  method AppendRow(groups0: map<string, seq<Row>>, row: Row) returns (groups: map<string, seq<Row>>, raised: bool)
    ensures raised == (TransactionIdField !in row)
    ensures raised ==> groups == groups0
    ensures !raised ==> groups == AppendItem(groups0, row[TransactionIdField], row)
  {
    groups := groups0;
    if TransactionIdField !in row {
      return groups, true;
    }
    var tx := row[TransactionIdField];
    raised := false;
    if tx !in groups {
      groups := groups[tx := []];
    }
    groups := groups[tx := groups[tx] + [row]];
  }

  /** Reading item row i: it is appended to its transaction's list, then grouping goes on. */
  lemma GroupStep(g: map<string, seq<Row>>, rows: seq<Row>, i: nat)
    requires i < |rows| && TransactionIdField in rows[i]
    ensures var rest := GroupRows(AppendItem(g, rows[i][TransactionIdField], rows[i]), rows[i + 1..]);
      GroupRows(g, rows[i..]) == GroupResult(rest.groups, Later(rest.stoppedAt, 1))
  {
    assert rows[i..][0] == rows[i] && rows[i..][1..] == rows[i + 1..];
  }

  /** The whole grouping seen from item row i, as ResumeLoad is for a load. */
  function ResumeGroup(g: map<string, seq<Row>>, rows: seq<Row>, i: nat): GroupResult
    requires i <= |rows|
  {
    var rest := GroupRows(g, rows[i..]);
    GroupResult(rest.groups, Later(rest.stoppedAt, i))
  }

  lemma GroupStart(g: map<string, seq<Row>>, rows: seq<Row>)
    ensures ResumeGroup(g, rows, 0) == GroupRows(g, rows)
  {
    assert rows[0..] == rows;
  }

  lemma GroupEnd(g: map<string, seq<Row>>, rows: seq<Row>)
    ensures ResumeGroup(g, rows, |rows|) == GroupResult(g, None)
  {
    assert rows[|rows|..] == [];
  }

  /** Item row i read with a transaction id: grouping resumes at row i + 1 with the row appended. */
  lemma GroupAdvance(g: map<string, seq<Row>>, rows: seq<Row>, i: nat)
    requires i < |rows| && TransactionIdField in rows[i]
    ensures ResumeGroup(g, rows, i) == ResumeGroup(AppendItem(g, rows[i][TransactionIdField], rows[i]), rows, i + 1)
  {
    GroupStep(g, rows, i);
    var g' := AppendItem(g, rows[i][TransactionIdField], rows[i]);
    LaterTwice(GroupRows(g', rows[i + 1..]).stoppedAt, 1, i);
  }

  /** Item row i read without a transaction id: grouping ends there. */
  lemma GroupHalt(g: map<string, seq<Row>>, rows: seq<Row>, i: nat)
    requires i < |rows| && TransactionIdField !in rows[i]
    ensures ResumeGroup(g, rows, i) == GroupResult(g, Some(i))
  {
    GroupStop(g, rows, i);
  }

  /** An item row without a transaction id stops grouping there. */
  lemma GroupStop(g: map<string, seq<Row>>, rows: seq<Row>, i: nat)
    requires i < |rows| && TransactionIdField !in rows[i]
    ensures GroupRows(g, rows[i..]) == GroupResult(g, Some(0))
  {
    assert rows[i..][0] == rows[i];
  }

  predicate HasId(row: Row, tx: string) {
    TransactionIdField in row && row[TransactionIdField] == tx
  }

  /** `[row]` when the row belongs to `tx`, otherwise nothing. */
  function Own(row: Row, tx: string): seq<Row> {
    if HasId(row, tx) then [row] else []
  }

  /** The rows of `rows` that belong to transaction `tx`, in order. */
  function Matching(rows: seq<Row>, tx: string): (r: seq<Row>)
    decreases |rows|
  {
    if rows == [] then [] else Own(rows[0], tx) + Matching(rows[1..], tx)
  }

  predicate AllHaveIds(rows: seq<Row>) {
    forall i :: 0 <= i < |rows| ==> TransactionIdField in rows[i]
  }

  lemma {:induction false} MatchingAppend(a: seq<Row>, b: seq<Row>, tx: string)
    ensures Matching(a + b, tx) == Matching(a, tx) + Matching(b, tx)
    decreases |a|
  {
    if a == [] {
      assert a + b == b;
    } else {
      assert (a + b)[0] == a[0] && (a + b)[1..] == a[1..] + b;
      MatchingAppend(a[1..], b, tx);
      var h := Own(a[0], tx);
      assert Matching(a + b, tx) == h + Matching(a[1..] + b, tx);
      assert h + (Matching(a[1..], tx) + Matching(b, tx)) == (h + Matching(a[1..], tx)) + Matching(b, tx);
    }
  }

  /** A row belongs to exactly the transaction it names. */
  lemma {:induction false} MatchingMember(rows: seq<Row>, tx: string, i: nat)
    requires i < |rows| && HasId(rows[i], tx)
    ensures rows[i] in Matching(rows, tx)
    decreases |rows|
  {
    if i > 0 {
      assert rows[1..][i - 1] == rows[i];
      MatchingMember(rows[1..], tx, i - 1);
    }
  }

  /** Grouping reads rows until the first one without a transaction id. */
  lemma {:induction false} GroupStopsAtMissingId(g: map<string, seq<Row>>, rows: seq<Row>)
    ensures var r := GroupRows(g, rows);
      var n := GroupConsumed(r, rows);
      && (r.stoppedAt.None? <==> AllHaveIds(rows))
      && (r.stoppedAt.Some? ==> r.stoppedAt.value < |rows| && TransactionIdField !in rows[n])
      && AllHaveIds(rows[..n])
    decreases |rows|
  {
    if rows == [] {
      assert rows[..0] == [];
    } else if TransactionIdField !in rows[0] {
      assert rows[..0] == [];
    } else {
      var rest := rows[1..];
      var g' := AppendItem(g, rows[0][TransactionIdField], rows[0]);
      GroupStopsAtMissingId(g', rest);
      var r' := GroupRows(g', rest);
      var n' := GroupConsumed(r', rest);
      var n := n' + 1;
      assert n == GroupConsumed(GroupRows(g, rows), rows);
      assert AllHaveIds(rows[..n]) by {
        forall i | 0 <= i < n ensures TransactionIdField in rows[..n][i] {
          if i > 0 { assert rows[..n][i] == rest[..n'][i - 1]; }
        }
      }
      if r'.stoppedAt.Some? {
        assert rows[n] == rest[n'];
      } else {
        assert AllHaveIds(rows) by {
          forall i | 0 <= i < |rows| ensures TransactionIdField in rows[i] {
            if i > 0 { assert rows[i] == rest[i - 1]; }
          }
        }
      }
      if AllHaveIds(rows) {
        assert AllHaveIds(rest) by {
          forall i | 0 <= i < |rest| ensures TransactionIdField in rest[i] {
            assert rest[i] == rows[i + 1];
          }
        }
      }
    }
  }

  /** The matching rows of a non-empty prefix: the first row's own, then those of the rest. */
  lemma MatchingFirst(rows: seq<Row>, n: nat, tx: string)
    requires n < |rows|
    ensures Matching(rows[..n + 1], tx) == Own(rows[0], tx) + Matching(rows[1..][..n], tx)
  {
    assert rows[..n + 1][0] == rows[0] && rows[..n + 1][1..] == rows[1..][..n];
  }

  /**
   * Grouping only appends: each transaction's list becomes its old list followed by the rows read
   * that name it, in file order.
   */
  lemma {:induction false} GroupsOnlyAppend(g: map<string, seq<Row>>, rows: seq<Row>, tx: string)
    ensures var r := GroupRows(g, rows);
      GroupOf(r.groups, tx) == GroupOf(g, tx) + Matching(rows[..GroupConsumed(r, rows)], tx)
    decreases |rows|
  {
    if rows == [] || TransactionIdField !in rows[0] {
      assert rows[..0] == [];
    } else {
      var rest := rows[1..];
      var g' := AppendItem(g, rows[0][TransactionIdField], rows[0]);
      GroupsOnlyAppend(g', rest, tx);
      AppendedFirst(g, rows, tx);
    }
  }

  /** The inductive step of GroupsOnlyAppend: the first row's contribution comes first. */
  lemma {:induction false} AppendedFirst(g: map<string, seq<Row>>, rows: seq<Row>, tx: string)
    requires rows != [] && TransactionIdField in rows[0]
    requires var g', rest := AppendItem(g, rows[0][TransactionIdField], rows[0]), rows[1..];
      var r' := GroupRows(g', rest);
      GroupOf(r'.groups, tx) == GroupOf(g', tx) + Matching(rest[..GroupConsumed(r', rest)], tx)
    ensures var r := GroupRows(g, rows);
      GroupOf(r.groups, tx) == GroupOf(g, tx) + Matching(rows[..GroupConsumed(r, rows)], tx)
  {
    var rest := rows[1..];
    var g' := AppendItem(g, rows[0][TransactionIdField], rows[0]);
    var r' := GroupRows(g', rest);
    var n' := GroupConsumed(r', rest);
    assert GroupRows(g, rows) == r'.(stoppedAt := Later(r'.stoppedAt, 1));
    assert n' + 1 == GroupConsumed(GroupRows(g, rows), rows);
    MatchingFirst(rows, n', tx);
    var before, own, later := GroupOf(g, tx), Own(rows[0], tx), Matching(rest[..n'], tx);
    assert GroupOf(g', tx) == before + own;
    ConcatAssociates(before, own, later);
  }

  lemma ConcatAssociates(a: seq<Row>, b: seq<Row>, c: seq<Row>)
    ensures (a + b) + c == a + (b + c)
  {
  }

  /** A transaction has a list after grouping exactly when it had one or some row read names it. */
  lemma {:induction false} GroupKeys(g: map<string, seq<Row>>, rows: seq<Row>, tx: string)
    ensures var r := GroupRows(g, rows);
      tx in r.groups <==> tx in g || Matching(rows[..GroupConsumed(r, rows)], tx) != []
    decreases |rows|
  {
    if rows == [] || TransactionIdField !in rows[0] {
      assert rows[..0] == [];
    } else {
      var rest := rows[1..];
      var g' := AppendItem(g, rows[0][TransactionIdField], rows[0]);
      GroupKeys(g', rest, tx);
      var n' := GroupConsumed(GroupRows(g', rest), rest);
      assert n' + 1 == GroupConsumed(GroupRows(g, rows), rows);
      MatchingFirst(rows, n', tx);
      assert tx in g' <==> tx in g || Own(rows[0], tx) != [];
    }
  }

  /**
   * Two period files grouped one after the other into an empty map: a transaction's list is its
   * rows from the first file followed by its rows from the second, and when both files are read
   * to the end its length is the number of matching rows in both.
   */
  lemma ItemsAccumulateAcrossPeriods(first: seq<Row>, second: seq<Row>, tx: string)
    ensures var r1 := GroupRows(map[], first);
      var r2 := GroupRows(r1.groups, second);
      && GroupOf(r2.groups, tx) == Matching(first[..GroupConsumed(r1, first)], tx) + Matching(second[..GroupConsumed(r2, second)], tx)
      && (AllHaveIds(first) && AllHaveIds(second) ==>
            |GroupOf(r2.groups, tx)| == |Matching(first, tx)| + |Matching(second, tx)|)
  {
    var r1 := GroupRows(map[], first);
    var n1 := GroupConsumed(r1, first);
    var r2 := GroupRows(r1.groups, second);
    var n2 := GroupConsumed(r2, second);
    assert GroupOf(r1.groups, tx) == Matching(first[..n1], tx) by {
      GroupsOnlyAppend(map[], first, tx);
      assert GroupOf(map[], tx) == [];
    }
    assert GroupOf(r2.groups, tx) == GroupOf(r1.groups, tx) + Matching(second[..n2], tx) by {
      GroupsOnlyAppend(r1.groups, second, tx);
    }
    if AllHaveIds(first) && AllHaveIds(second) {
      assert first[..n1] == first by {
        GroupStopsAtMissingId(map[], first);
      }
      assert second[..n2] == second by {
        GroupStopsAtMissingId(r1.groups, second);
      }
    }
  }

  /** The number of item rows held over all transactions. */
  ghost function ItemTotal(g: map<string, seq<Row>>): nat
    decreases |g.Keys|
  {
    if g == map[] then 0
    else
      var tx :| tx in g;
      |g[tx]| + ItemTotal(g - {tx})
  }

  /** The total can be counted starting from any transaction. */
  lemma {:induction false} ItemTotalWithout(g: map<string, seq<Row>>, tx: string)
    requires tx in g
    ensures ItemTotal(g) == |g[tx]| + ItemTotal(g - {tx})
    decreases |g.Keys|
  {
    var other :| other in g && ItemTotal(g) == |g[other]| + ItemTotal(g - {other});
    if other != tx {
      assert |(g - {other}).Keys| < |g.Keys| by {
        assert (g - {other}).Keys < g.Keys;
      }
      assert |(g - {tx}).Keys| < |g.Keys| by {
        assert (g - {tx}).Keys < g.Keys;
      }
      ItemTotalWithout(g - {other}, tx);
      ItemTotalWithout(g - {tx}, other);
      assert g - {other} - {tx} == g - {tx} - {other};
    }
  }

  /** Appending one row adds exactly one to the total. */
  lemma AppendItemTotal(g: map<string, seq<Row>>, tx: string, row: Row)
    ensures ItemTotal(AppendItem(g, tx, row)) == ItemTotal(g) + 1
  {
    var g' := AppendItem(g, tx, row);
    ItemTotalWithout(g', tx);
    if tx in g {
      ItemTotalWithout(g, tx);
      assert g' - {tx} == g - {tx};
    } else {
      assert g' - {tx} == g;
    }
  }

  /** Grouping stores exactly one item per row read: the total grows by the number of rows read. */
  lemma {:induction false} GroupTotal(g: map<string, seq<Row>>, rows: seq<Row>)
    ensures var r := GroupRows(g, rows);
      ItemTotal(r.groups) == ItemTotal(g) + GroupConsumed(r, rows)
    decreases |rows|
  {
    if rows != [] && TransactionIdField in rows[0] {
      var g' := AppendItem(g, rows[0][TransactionIdField], rows[0]);
      AppendItemTotal(g, rows[0][TransactionIdField], rows[0]);
      GroupTotal(g', rows[1..]);
    }
  }
}
