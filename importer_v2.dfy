/**
 * The optimised (v2) importer, `OptimizedDataImporter`: six in-memory dictionaries filled from
 * CSV files row by row, then one enriched document built per transaction row.
 *
 * A CSV file is the sequence of its rows (`csv.DictReader`), or `None` when the file does not
 * exist. The warnings and errors the importer prints become outcome values.
 */
module ImporterV2 {
  import opened Wrappers
  import opened Numeric
  import opened Coercion
  import opened Timestamps
  import opened Rows
  import opened LookupStore
  import opened Assembler

  type CsvFile = Option<seq<Row>>

  /** The dictionaries keyed by an integer id. */
  datatype TableName = Stores | MenuItems | PaymentMethods | Vouchers | Users

  /** What `import_optimized_transactions` printed: the count, a missing file, or a row's error. */
  datatype ImportOutcome = Imported(count: nat) | FileNotFound | RowFailed(row: nat, error: Failure)

  /** The eight files `_load_lookup_data` reads, in the order it reads them. */
  datatype LookupFiles = LookupFiles(
    stores: CsvFile,
    menuItems: CsvFile,
    paymentMethods: CsvFile,
    vouchers: CsvFile,
    users202307: CsvFile,
    users202401: CsvFile,
    items202307: CsvFile,
    items202401: CsvFile)

  function Table(l: Lookups, t: TableName): map<int, Row> {
    match t
    case Stores => l.stores
    case MenuItems => l.menuItems
    case PaymentMethods => l.paymentMethods
    case Vouchers => l.vouchers
    case Users => l.users
  }

  /** `l` with table `t` replaced by `m` and everything else as it was. */
  function WithTable(l: Lookups, t: TableName, m: map<int, Row>): (r: Lookups)
    ensures Table(r, t) == m && r.itemGroups == l.itemGroups
  {
    match t
    case Stores => l.(stores := m)
    case MenuItems => l.(menuItems := m)
    case PaymentMethods => l.(paymentMethods := m)
    case Vouchers => l.(vouchers := m)
    case Users => l.(users := m)
  }

  /** The table one `_load_csv_to_dict` call leaves (keys through `int`). */
  function LoadFile(m: map<int, Row>, file: CsvFile, keyField: string, keyType: KeyType, overwrite: bool): (t: map<int, Row>)
    ensures m.Keys <= t.Keys
    ensures file.None? ==> t == m
  {
    match file
    case None => m
    case Some(rows) => LoadRows(m, rows, keyField, keyType, overwrite).table
  }

  /** The item map one `_load_transaction_items` call leaves. */
  function GroupFile(g: map<string, seq<Row>>, file: CsvFile): (r: map<string, seq<Row>>)
    ensures g.Keys <= r.Keys
    ensures file.None? ==> r == g
  {
    match file
    case None => g
    case Some(rows) => GroupRows(g, rows).groups
  }

  /**
   * All of `_load_lookup_data`: each reference table from its file, overwriting; the users of
   * 2023-07 overwriting and then those of 2024-01 only where absent; the item groups of both
   * periods, 2023-07 first.
   */
  function LoadAll(l: Lookups, f: LookupFiles): (r: Lookups)
    ensures l.stores.Keys <= r.stores.Keys && l.menuItems.Keys <= r.menuItems.Keys
    ensures l.paymentMethods.Keys <= r.paymentMethods.Keys && l.vouchers.Keys <= r.vouchers.Keys
    ensures l.users.Keys <= r.users.Keys && l.itemGroups.Keys <= r.itemGroups.Keys
    ensures f.stores.None? ==> r.stores == l.stores
    ensures f.users202307.None? && f.users202401.None? ==> r.users == l.users
  {
    Lookups(
      LoadFile(l.stores, f.stores, "store_id", ParseInt, true),
      LoadFile(l.menuItems, f.menuItems, "item_id", ParseInt, true),
      LoadFile(l.paymentMethods, f.paymentMethods, "method_id", ParseInt, true),
      LoadFile(l.vouchers, f.vouchers, "voucher_id", ParseInt, true),
      LoadFile(LoadFile(l.users, f.users202307, "user_id", ParseInt, true), f.users202401, "user_id", ParseInt, false),
      GroupFile(GroupFile(l.itemGroups, f.items202307), f.items202401))
  }

  /**
   * The users dictionary across the two period files: inside the 2023-07 file the last row read
   * for a user id wins, and that row survives the 2024-01 file, which only adds ids not seen
   * before (first file wins).
   */
  lemma UsersLastWinsThenFirstWins(l: Lookups, f: LookupFiles, j: nat)
    requires f.users202307.Some?
    requires var rows := f.users202307.value;
      var n := Consumed(LoadRows(l.users, rows, "user_id", ParseInt, true), rows);
      j < n && LastWithKey(rows[..n], "user_id", ParseInt, j)
    ensures var row, users := f.users202307.value[j], LoadAll(l, f).users;
      var key := Key(row, "user_id", ParseInt);
      && key.Some? && key.value in users && users[key.value] == row
  {
    var rows := f.users202307.value;
    var second := if f.users202401.Some? then f.users202401.value else [];
    LastThenKept(l.users, rows, second, "user_id", ParseInt, j);
  }

  /** The empty dictionaries of a new importer. */
  const Empty := Lookups(map[], map[], map[], map[], map[], map[])

  class OptimizedDataImporter {
    var stores: map<int, Row>
    var menuItems: map<int, Row>
    var paymentMethods: map<int, Row>
    var vouchers: map<int, Row>
    var users: map<int, Row>
    var transactionItems: map<string, seq<Row>>

    /** A new importer: every dictionary empty. */
    constructor ()
      ensures Snapshot() == Empty
    {
      stores := map[];
      menuItems := map[];
      paymentMethods := map[];
      vouchers := map[];
      users := map[];
      transactionItems := map[];
    }

    /** The dictionaries as the transform reads them. */
    function Snapshot(): Lookups
      reads this
    {
      Lookups(stores, menuItems, paymentMethods, vouchers, users, transactionItems)
    }

    function TableOf(t: TableName): (m: map<int, Row>)
      reads this
      ensures m == Table(Snapshot(), t)
    {
      match t
      case Stores => stores
      case MenuItems => menuItems
      case PaymentMethods => paymentMethods
      case Vouchers => vouchers
      case Users => users
    }

    /** Makes `m` the dictionary named `t`. */
    method SetTable(t: TableName, m: map<int, Row>)
      modifies this
      ensures Snapshot() == WithTable(old(Snapshot()), t, m)
    {
      match t
      case Stores => stores := m;
      case MenuItems => menuItems := m;
      case PaymentMethods => paymentMethods := m;
      case Vouchers => vouchers := m;
      case Users => users := m;
    }

    /**
     * `_load_csv_to_dict(file, target, key_field, key_type, overwrite)`: the rows inserted in
     * file order until the first row whose key column is missing or does not convert; that row
     * and those after it are not read, and what was inserted stays. No other dictionary changes.
     */
    method LoadCsvToDict(file: CsvFile, target: TableName, keyField: string, keyType: KeyType, overwrite: bool)
      returns (outcome: LoadOutcome)
      modifies this
      ensures Snapshot() == WithTable(old(Snapshot()), target, LoadFile(old(TableOf(target)), file, keyField, keyType, overwrite))
      ensures file.None? ==> outcome == FileMissing
      ensures file.Some? ==>
        var r := LoadRows(old(TableOf(target)), file.value, keyField, keyType, overwrite);
        outcome == (if r.stoppedAt.Some? then RowRaised(r.stoppedAt.value) else Loaded)
    {
      if file.None? {
        SetTable(target, TableOf(target));
        return FileMissing;
      }
      var table;
      table, outcome := InsertRows(TableOf(target), file.value, keyField, keyType, overwrite);
      SetTable(target, table);
    }

    /**
     * `_load_transaction_items(file)`: each row appended, in file order, to the list of its
     * `transaction_id`, until the first row without that column. The other dictionaries stay.
     */
    method LoadTransactionItems(file: CsvFile) returns (outcome: LoadOutcome)
      modifies this
      ensures Snapshot() == old(Snapshot()).(itemGroups := GroupFile(old(transactionItems), file))
      ensures file.None? ==> outcome == FileMissing
      ensures file.Some? ==>
        var r := GroupRows(old(transactionItems), file.value);
        outcome == (if r.stoppedAt.Some? then RowRaised(r.stoppedAt.value) else Loaded)
    {
      if file.None? {
        return FileMissing;
      }
      transactionItems, outcome := AppendRows(transactionItems, file.value);
    }

    /** `_load_lookup_data()`: the eight loads in the source's order. */
    method LoadLookupData(f: LookupFiles)
      modifies this
      ensures Snapshot() == LoadAll(old(Snapshot()), f)
    {
      LoadStaticData(f);
      LoadPeriodData(f);
    }

    /** The static half of `_load_lookup_data`: the four reference tables, each overwriting. */
    method LoadStaticData(f: LookupFiles)
      modifies this
      ensures Snapshot() == old(Snapshot()).(
        stores := LoadFile(old(stores), f.stores, "store_id", ParseInt, true),
        menuItems := LoadFile(old(menuItems), f.menuItems, "item_id", ParseInt, true),
        paymentMethods := LoadFile(old(paymentMethods), f.paymentMethods, "method_id", ParseInt, true),
        vouchers := LoadFile(old(vouchers), f.vouchers, "voucher_id", ParseInt, true))
    {
      var _ := LoadCsvToDict(f.stores, Stores, "store_id", ParseInt, true);
      var _ := LoadCsvToDict(f.menuItems, MenuItems, "item_id", ParseInt, true);
      var _ := LoadCsvToDict(f.paymentMethods, PaymentMethods, "method_id", ParseInt, true);
      var _ := LoadCsvToDict(f.vouchers, Vouchers, "voucher_id", ParseInt, true);
    }

    /**
     * The per-period half of `_load_lookup_data`: users of 2023-07 overwriting, users of 2024-01
     * only where absent, then the item rows of both periods.
     */
    method LoadPeriodData(f: LookupFiles)
      modifies this
      ensures Snapshot() == old(Snapshot()).(
        users := LoadFile(LoadFile(old(users), f.users202307, "user_id", ParseInt, true), f.users202401, "user_id", ParseInt, false),
        itemGroups := GroupFile(GroupFile(old(transactionItems), f.items202307), f.items202401))
    {
      var _ := LoadCsvToDict(f.users202307, Users, "user_id", ParseInt, true);
      var _ := LoadCsvToDict(f.users202401, Users, "user_id", ParseInt, false);
      var _ := LoadTransactionItems(f.items202307);
      var _ := LoadTransactionItems(f.items202401);
    }

    /**
     * The item loop of `_transform_transaction_v2`: one embedded line appended per item row, in
     * order; the first row that raises ends the transform with its error.
     */
    method EmbedTransactionItems(items: seq<Row>) returns (r: Result<seq<EmbeddedItem>, Failure>)
      ensures r == EmbedItems(Snapshot(), items)
    {
      r := MapInOrder(Embedder(Snapshot()), items);
    }

    /** `_transform_transaction_v2(row)`, against the dictionaries as they are now. */
    method TransformTransactionV2(row: Row, parse: Parser) returns (r: Result<Document, Failure>)
      ensures r == AssembleV2(Snapshot(), row, parse)
    {
      var l := Snapshot();
      if "created_at" !in row {
        return Failure(MissingField("created_at"));
      }
      var createdAt := ParseTimestamp(parse, row["created_at"]);
      if createdAt.None? {
        return Failure(BadTimestamp("created_at"));
      }
      var storeId := IntField(row, "store_id");
      if storeId.Failure? {
        return Failure(storeId.error);
      }
      var paymentId := IntField(row, "payment_method_id");
      if paymentId.Failure? {
        return Failure(paymentId.error);
      }
      var user := UserSnapshotOf(l, row, parse);
      if user.Failure? {
        return Failure(user.error);
      }
      var voucher := VoucherSnapshotOf(l, row);
      if "transaction_id" !in row {
        return Failure(MissingField("transaction_id"));
      }
      var items := EmbedTransactionItems(GroupOf(transactionItems, row["transaction_id"]));
      if items.Failure? {
        return Failure(items.error);
      }
      var original := Field(row, "original_amount");
      if original.Failure? {
        return Failure(original.error);
      }
      var discount := Field(row, "discount_applied");
      if discount.Failure? {
        return Failure(discount.error);
      }
      var finalAmount := Field(row, "final_amount");
      if finalAmount.Failure? {
        return Failure(finalAmount.error);
      }
      r := Success(Document(
        row["transaction_id"],
        createdAt.value,
        Amounts(ToDecimal128(original.value), ToDecimal128(discount.value), ToDecimal128(finalAmount.value)),
        Details(createdAt.value),
        StoreSnapshotOf(l, storeId.value),
        PaymentSnapshotOf(l, paymentId.value),
        user.value,
        voucher,
        items.value,
        |items.value|));
    }

    /**
     * The per-row loop of `import_optimized_transactions`: one document per row, in file order.
     * The first row that raises ends the whole file: no later row is transformed and the count
     * is not reported. Nothing changes in the importer.
     */
    method ImportOptimizedTransactions(file: CsvFile, parse: Parser)
      returns (outcome: ImportOutcome, documents: seq<Document>)
      ensures file.None? ==> outcome == FileNotFound && documents == []
      ensures file.Some? ==> !outcome.FileNotFound?
      ensures outcome.Imported? ==>
        && outcome.count == |file.value| == |documents|
        && forall i :: 0 <= i < |documents| ==> AssembleV2(Snapshot(), file.value[i], parse) == Success(documents[i])
      ensures outcome.RowFailed? ==>
        && outcome.row < |file.value|
        && AssembleV2(Snapshot(), file.value[outcome.row], parse) == Failure(outcome.error)
        && |documents| == outcome.row
        && forall i :: 0 <= i < outcome.row ==> AssembleV2(Snapshot(), file.value[i], parse) == Success(documents[i])
    {
      if file.None? {
        return FileNotFound, [];
      }
      var rows := file.value;
      var l := Snapshot();
      ghost var assemble := (row: Row) => AssembleV2(l, row, parse);
      documents := [];
      var i := 0;
      while i < |rows|
        invariant i <= |rows| && |documents| == i
        invariant forall j :: 0 <= j < i ==> assemble(rows[j]) == Success(documents[j])
      {
        var document := TransformTransactionV2(rows[i], parse);
        if document.Failure? {
          return RowFailed(i, document.error), documents;
        }
        documents := documents + [document.value];
        i := i + 1;
      }
      return Imported(|documents|), documents;
    }
  }
}
