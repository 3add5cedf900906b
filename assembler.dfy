/**
 * The Document Assembler of the optimised (v2) importer, `_transform_transaction_v2`: one
 * transaction row and the loaded lookup tables to one enriched transaction document, or the
 * exception that the row raises. The checks happen in the order the source evaluates them, so
 * the failure reported is the one Python would raise first.
 */
module Assembler {
  import opened Wrappers
  import opened Numeric
  import opened Coercion
  import opened Timestamps
  import opened Rows
  import opened AgeClassifier
  import opened LookupStore

  /** The importer's dictionaries, as the assembler reads them. */
  datatype Lookups = Lookups(
    stores: map<int, Row>,
    menuItems: map<int, Row>,
    paymentMethods: map<int, Row>,
    vouchers: map<int, Row>,
    users: map<int, Row>,
    itemGroups: map<string, seq<Row>>)

  datatype Amounts = Amounts(original: Decimal, discount: Decimal, final: Decimal)

  /** `createdAtDetails`, computed once from the creation time. */
  datatype TimeDetails = TimeDetails(year: int, month: int, dayOfWeek: int, hour: int)

  datatype StoreSnapshot = StoreSnapshot(id: int, name: Option<string>, city: Option<string>)

  datatype PaymentSnapshot = PaymentSnapshot(id: int, name: Option<string>)

  datatype UserSnapshot = UserSnapshot(id: int, gender: Option<string>, birthdate: Timestamp, ageGroup: string)

  datatype VoucherSnapshot = VoucherSnapshot(id: int, discountType: Option<string>)

  datatype EmbeddedItem = EmbeddedItem(
    menuItemId: int,
    name: Option<string>,
    category: Option<string>,
    quantity: int,
    unitPrice: Decimal,
    subtotal: Decimal)

  datatype Document = Document(
    id: string,
    createdAt: Timestamp,
    amounts: Amounts,
    createdAtDetails: TimeDetails,
    store: StoreSnapshot,
    paymentMethod: PaymentSnapshot,
    user: Option<UserSnapshot>,
    voucher: Option<VoucherSnapshot>,
    items: seq<EmbeddedItem>,
    itemCount: nat)

  /** Year, month 1-12, ISO day of the week 1 (Monday) to 7 (Sunday) and hour 0-23 of `t`. */
  function Details(t: Timestamp): (d: TimeDetails)
    ensures d.year == t.year && d.month == t.month && d.hour == t.hour && d.dayOfWeek == IsoWeekday(t)
    ensures 1 <= d.month <= 12 && 1 <= d.dayOfWeek <= 7 && 0 <= d.hour <= 23
  {
    TimeDetails(t.year, t.month, IsoWeekday(t), t.hour)
  }

  /** The store's extended reference: its id, and its name and city when the store is known. */
  function StoreSnapshotOf(l: Lookups, id: int): (r: StoreSnapshot)
    ensures r.id == id
    ensures id !in l.stores ==> r.name.None? && r.city.None?
    ensures id in l.stores ==> r.name == Get(l.stores[id], "store_name") && r.city == Get(l.stores[id], "city")
  {
    var info := Lookup(l.stores, id);
    StoreSnapshot(id, Get(info, "store_name"), Get(info, "city"))
  }

  /** The payment method's extended reference: its id, and its name when the method is known. */
  function PaymentSnapshotOf(l: Lookups, id: int): (r: PaymentSnapshot)
    ensures r.id == id
    ensures id !in l.paymentMethods ==> r.name.None?
    ensures id in l.paymentMethods ==> r.name == Get(l.paymentMethods[id], "method_name")
  {
    PaymentSnapshot(id, Get(Lookup(l.paymentMethods, id), "method_name"))
  }

  /**
   * One item row embedded: its menu item id and quantity must be integers and its two amount
   * columns must exist; the menu item's name and category are copied when it is known.
   */
  function EmbedItem(l: Lookups, item: Row): (r: Result<EmbeddedItem, Failure>)
    ensures r.Success? <==>
      && "item_id" in item && ParseInt(item["item_id"]).Some?
      && "quantity" in item && ParseInt(item["quantity"]).Some?
      && "unit_price" in item && "subtotal" in item
    ensures r.Success? ==>
      && r.value.menuItemId == ParseInt(item["item_id"]).value
      && r.value.quantity == ParseInt(item["quantity"]).value
      && r.value.unitPrice == ToDecimal128(item["unit_price"])
      && r.value.subtotal == ToDecimal128(item["subtotal"])
      && (r.value.menuItemId !in l.menuItems ==> r.value.name.None? && r.value.category.None?)
      && (r.value.menuItemId in l.menuItems ==>
            && r.value.name == Get(l.menuItems[r.value.menuItemId], "item_name")
            && r.value.category == Get(l.menuItems[r.value.menuItemId], "category"))
  {
    match IntField(item, "item_id")
    case Failure(e) => Failure(e)
    case Success(id) =>
    var info := Lookup(l.menuItems, id);
    match IntField(item, "quantity")
    case Failure(e) => Failure(e)
    case Success(quantity) =>
    match Field(item, "unit_price")
    case Failure(e) => Failure(e)
    case Success(unitPrice) =>
    match Field(item, "subtotal")
    case Failure(e) => Failure(e)
    case Success(subtotal) =>
    Success(EmbeddedItem(id, Get(info, "item_name"), Get(info, "category"), quantity,
                         ToDecimal128(unitPrice), ToDecimal128(subtotal)))
  }

  /**
   * The item loop: every row of the group embedded, in order, one line per row; the first row
   * that raises ends the transform with its error.
   */
  function EmbedItems(l: Lookups, items: seq<Row>): (r: Result<seq<EmbeddedItem>, Failure>)
    ensures r.Success? <==> forall i :: 0 <= i < |items| ==> EmbedItem(l, items[i]).Success?
    ensures r.Success? ==> |r.value| == |items|
    ensures r.Success? ==> forall i :: 0 <= i < |items| ==> EmbedItem(l, items[i]) == Success(r.value[i])
  {
    MapResults(Embedder(l), items)
  }

  /** `EmbedItem` against fixed lookups, as a function value. */
  function Embedder(l: Lookups): (f: Row -> Result<EmbeddedItem, Failure>)
    ensures forall item :: f(item) == EmbedItem(l, item)
  {
    item => EmbedItem(l, item)
  }

  /** `user_id` reads as a number and names a user row that is not empty (Python's `if user_info:`). */
  predicate ResolvesUser(l: Lookups, row: Row) {
    OptionalId(Get(row, "user_id")).Some? && Lookup(l.users, OptionalId(Get(row, "user_id")).value) != map[]
  }

  function UserRow(l: Lookups, row: Row): Row
    requires ResolvesUser(l, row)
  {
    Lookup(l.users, OptionalId(Get(row, "user_id")).value)
  }

  /**
   * The user snapshot: only when the row resolves a user. The user's birth date is then parsed
   * first, so it must be present and parse, and the age group is computed from the same text.
   */
  function UserSnapshotOf(l: Lookups, row: Row, parse: Parser): (r: Result<Option<UserSnapshot>, Failure>)
    ensures r.Failure? <==>
      ResolvesUser(l, row) && TimestampOf(parse, Get(UserRow(l, row), "birthdate"), "birthdate").Failure?
    ensures r.Success? ==> (r.value.Some? <==> ResolvesUser(l, row))
    ensures r.Success? && r.value.Some? ==>
      var u := r.value.value;
      && u.id == OptionalId(Get(row, "user_id")).value
      && u.gender == Get(UserRow(l, row), "gender")
      && "birthdate" in UserRow(l, row)
      && parse(UserRow(l, row)["birthdate"]) == Some(u.birthdate)
      && u.ageGroup == Bracket(ReferenceYear - u.birthdate.year)
      && u.ageGroup != Unknown
  {
    match OptionalId(Get(row, "user_id"))
    case None => Success(None)
    case Some(id) =>
      var info := Lookup(l.users, id);
      if info == map[] then Success(None)
      else
        match TimestampOf(parse, Get(info, "birthdate"), "birthdate")
        case Failure(e) => Failure(e)
        case Success(birthdate) =>
        match GetAgeGroup(parse, Get(info, "birthdate"))
        case Success(ageGroup) => Success(Some(UserSnapshot(id, Get(info, "gender"), birthdate, ageGroup)))
        case Failure(e) => Failure(e)
  }

  /** The voucher snapshot, symmetric to the user's but without any field that can raise. */
  function VoucherSnapshotOf(l: Lookups, row: Row): (r: Option<VoucherSnapshot>)
    ensures r.Some? <==> OptionalId(Get(row, "voucher_id")).Some? && Lookup(l.vouchers, OptionalId(Get(row, "voucher_id")).value) != map[]
    ensures r.Some? ==>
      && r.value.id == OptionalId(Get(row, "voucher_id")).value
      && r.value.discountType == Get(l.vouchers[r.value.id], "discount_type")
  {
    match OptionalId(Get(row, "voucher_id"))
    case None => None
    case Some(id) =>
      var info := Lookup(l.vouchers, id);
      if info == map[] then None else Some(VoucherSnapshot(id, Get(info, "discount_type")))
  }

  /** `_transform_transaction_v2(row)`. */
  function AssembleV2(l: Lookups, row: Row, parse: Parser): (r: Result<Document, Failure>)
    ensures r.Success? ==> "transaction_id" in row && r.value.id == row["transaction_id"]
    ensures r.Success? ==> r.value.itemCount == |r.value.items| && r.value.createdAtDetails == Details(r.value.createdAt)
    ensures "created_at" !in row ==> r == Failure(MissingField("created_at"))
  {
    match Field(row, "created_at")
    case Failure(e) => Failure(e)
    case Success(createdText) =>
    match TimestampOf(parse, Some(createdText), "created_at")
    case Failure(e) => Failure(e)
    case Success(createdAt) =>
    match IntField(row, "store_id")
    case Failure(e) => Failure(e)
    case Success(storeId) =>
    match IntField(row, "payment_method_id")
    case Failure(e) => Failure(e)
    case Success(paymentId) =>
    match UserSnapshotOf(l, row, parse)
    case Failure(e) => Failure(e)
    case Success(user) =>
    match Field(row, "transaction_id")
    case Failure(e) => Failure(e)
    case Success(txId) =>
    match EmbedItems(l, GroupOf(l.itemGroups, txId))
    case Failure(e) => Failure(e)
    case Success(items) =>
    match Field(row, "original_amount")
    case Failure(e) => Failure(e)
    case Success(original) =>
    match Field(row, "discount_applied")
    case Failure(e) => Failure(e)
    case Success(discount) =>
    match Field(row, "final_amount")
    case Failure(e) => Failure(e)
    case Success(finalAmount) =>
    Success(Document(
      txId,
      createdAt,
      Amounts(ToDecimal128(original), ToDecimal128(discount), ToDecimal128(finalAmount)),
      Details(createdAt),
      StoreSnapshotOf(l, storeId),
      PaymentSnapshotOf(l, paymentId),
      user,
      VoucherSnapshotOf(l, row),
      items,
      |items|))
  }

  // ---------------------------------------------------------------------------------------
  // What a document says about its row

  predicate EveryItemEmbeds(l: Lookups, items: seq<Row>) {
    forall i :: 0 <= i < |items| ==> EmbedItem(l, items[i]).Success?
  }

  /** The conditions under which `_transform_transaction_v2` returns instead of raising. */
  predicate Assembles(l: Lookups, row: Row, parse: Parser) {
    && "created_at" in row && ParseTimestamp(parse, row["created_at"]).Some?
    && "store_id" in row && ParseInt(row["store_id"]).Some?
    && "payment_method_id" in row && ParseInt(row["payment_method_id"]).Some?
    && UserSnapshotOf(l, row, parse).Success?
    && "transaction_id" in row
    && EveryItemEmbeds(l, GroupOf(l.itemGroups, row["transaction_id"]))
    && "original_amount" in row && "discount_applied" in row && "final_amount" in row
  }

  /**
   * A row is assembled exactly when its creation time parses, its store and payment method ids
   * are integers, a resolved user has a birth date that parses, it has a transaction id whose
   * every item embeds, and its three amount columns exist.
   */
  lemma AssembleSucceedsIff(l: Lookups, row: Row, parse: Parser)
    ensures AssembleV2(l, row, parse).Success? <==> Assembles(l, row, parse)
  {
  }

  /**
   * A document carries its row's transaction id, creation time, store and payment method ids
   * and amounts, and one embedded line per item row of its transaction, in order.
   */
  lemma DocumentMirrorsRow(l: Lookups, row: Row, parse: Parser)
    requires AssembleV2(l, row, parse).Success?
    ensures var d := AssembleV2(l, row, parse).value;
      && "transaction_id" in row && d.id == row["transaction_id"]
      && "created_at" in row && row["created_at"] != "" && parse(row["created_at"]) == Some(d.createdAt)
      && d.createdAtDetails == Details(d.createdAt)
      && "store_id" in row && ParseInt(row["store_id"]) == Some(d.store.id)
      && "payment_method_id" in row && ParseInt(row["payment_method_id"]) == Some(d.paymentMethod.id)
      && "original_amount" in row && d.amounts.original == ToDecimal128(row["original_amount"])
      && "discount_applied" in row && d.amounts.discount == ToDecimal128(row["discount_applied"])
      && "final_amount" in row && d.amounts.final == ToDecimal128(row["final_amount"])
      && d.itemCount == |d.items| == |GroupOf(l.itemGroups, d.id)|
      && forall i :: 0 <= i < |d.items| ==> EmbedItem(l, GroupOf(l.itemGroups, d.id)[i]) == Success(d.items[i])
  {
  }

  /**
   * Missing references never fail a row: whether a row is assembled does not depend on the
   * store, payment method, voucher or menu item tables at all.
   */
  lemma ReferenceTablesNeverFailARow(l: Lookups, other: Lookups, row: Row, parse: Parser)
    requires other.users == l.users && other.itemGroups == l.itemGroups
    ensures AssembleV2(l, row, parse).Success? == AssembleV2(other, row, parse).Success?
  {
    AssembleSucceedsIff(l, row, parse);
    AssembleSucceedsIff(other, row, parse);
    assert UserSnapshotOf(l, row, parse).Success? == UserSnapshotOf(other, row, parse).Success?;
    if "transaction_id" in row {
      var group := GroupOf(l.itemGroups, row["transaction_id"]);
      assert forall i :: 0 <= i < |group| ==> EmbedItem(l, group[i]).Success? == EmbedItem(other, group[i]).Success?;
    }
  }

  /** The step behind AmountTextNeverFailsARow: amount text leaves the success conditions as they were. */
  lemma AmountTextKeepsConditions(l: Lookups, row: Row, parse: Parser, field: string, text: string)
    requires field == "original_amount" || field == "discount_applied" || field == "final_amount"
    requires field in row
    ensures Assembles(l, row[field := text], parse) == Assembles(l, row, parse)
  {
    var row' := row[field := text];
    assert Get(row', "user_id") == Get(row, "user_id");
    assert UserSnapshotOf(l, row', parse) == UserSnapshotOf(l, row, parse);
  }

  /**
   * A monetary column never fails a row: replacing the text of an amount column that is present,
   * by anything at all, does not change whether the row is assembled (a malformed amount becomes
   * `to_decimal128`'s zero instead).
   */
  lemma AmountTextNeverFailsARow(l: Lookups, row: Row, parse: Parser, field: string, text: string)
    requires field == "original_amount" || field == "discount_applied" || field == "final_amount"
    requires field in row
    ensures AssembleV2(l, row[field := text], parse).Success? == AssembleV2(l, row, parse).Success?
  {
    AmountTextKeepsConditions(l, row, parse, field, text);
    AssembleSucceedsIff(l, row, parse);
    AssembleSucceedsIff(l, row[field := text], parse);
  }

  /**
   * A document's store and payment method snapshots are those of its ids: the names (and the
   * store's city) from the lookup tables, null when the id is not there.
   */
  lemma DocumentEmbedsStoreAndPayment(l: Lookups, row: Row, parse: Parser)
    requires AssembleV2(l, row, parse).Success?
    ensures var d := AssembleV2(l, row, parse).value;
      && d.store == StoreSnapshotOf(l, d.store.id)
      && d.paymentMethod == PaymentSnapshotOf(l, d.paymentMethod.id)
  {
  }

  /** A document's user snapshot is the one resolved from the row's optional user id. */
  lemma DocumentEmbedsUser(l: Lookups, row: Row, parse: Parser)
    requires AssembleV2(l, row, parse).Success?
    ensures UserSnapshotOf(l, row, parse) == Success(AssembleV2(l, row, parse).value.user)
  {
  }

  /** A document's voucher snapshot is the one resolved from the row's optional voucher id. */
  lemma DocumentEmbedsVoucher(l: Lookups, row: Row, parse: Parser)
    requires AssembleV2(l, row, parse).Success?
    ensures AssembleV2(l, row, parse).value.voucher == VoucherSnapshotOf(l, row)
  {
  }

  /**
   * The birth date is parsed before the age group is computed, so a resolved user whose row has
   * no birth date, or an empty one, makes the whole row raise: the "Nepoznato" label of the age
   * classifier never reaches a document.
   */
  lemma ResolvedUserNeedsBirthdate(l: Lookups, row: Row, parse: Parser)
    requires ResolvesUser(l, row)
    requires "birthdate" !in UserRow(l, row) || UserRow(l, row)["birthdate"] == ""
    ensures AssembleV2(l, row, parse).Failure?
  {
    AssembleSucceedsIff(l, row, parse);
  }

  /**
   * End to end: a row "T1" of store 5, payment method 2, with empty user and voucher ids,
   * amounts 10.00, 0 and 10.00, created 4 July 2023 at 14:30 (as the date parser reads it), and
   * no item rows, becomes a document with no user, no voucher, no items, Tuesday (2) at hour 14,
   * the ids 5 and 2, and the amounts with their scales.
   */
  lemma ExampleTransactionDocument(l: Lookups, row: Row, parse: Parser)
    requires Get(row, "transaction_id") == Some("T1")
    requires Get(row, "store_id") == Some("5") && Get(row, "payment_method_id") == Some("2")
    requires Get(row, "user_id") == Some("") && Get(row, "voucher_id") == Some("")
    requires Get(row, "original_amount") == Some("10.00") && Get(row, "discount_applied") == Some("0")
    requires Get(row, "final_amount") == Some("10.00")
    requires Get(row, "created_at") == Some("2023-07-04T14:30:00")
    requires parse("2023-07-04T14:30:00") == Some(DateTime(2023, 7, 4, 14, 30, 0))
    requires "T1" !in l.itemGroups
    ensures var r := AssembleV2(l, row, parse);
      && r.Success?
      && r.value.id == "T1"
      && r.value.user.None? && r.value.voucher.None?
      && r.value.items == [] && r.value.itemCount == 0
      && r.value.createdAtDetails == TimeDetails(2023, 7, 2, 14)
      && r.value.store.id == 5 && r.value.paymentMethod.id == 2
      && r.value.amounts == Amounts(Decimal(false, 1000, -2), Decimal(false, 0, 0), Decimal(false, 1000, -2))
  {
    SmallScalars();
    ToDecimal128OfAmount();
    TuesdayIsTwo();
    OptionalIdOfNonNumericText();
    assert UserSnapshotOf(l, row, parse) == Success(None);
    assert VoucherSnapshotOf(l, row) == None;
    assert GroupOf(l.itemGroups, "T1") == [];
    assert Assembles(l, row, parse);
    AssembleSucceedsIff(l, row, parse);
    DocumentMirrorsRow(l, row, parse);
    DocumentEmbedsUser(l, row, parse);
    DocumentEmbedsVoucher(l, row, parse);
  }
}
