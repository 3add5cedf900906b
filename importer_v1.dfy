/**
 * The first (v1) importer, `DataImporter`: flat row-to-document transforms for the normalised
 * schema, and `_import_generic`, which builds one file's documents all-or-nothing before a
 * single bulk insert.
 */
module ImporterV1 {
  import opened Wrappers
  import opened Numeric
  import opened Coercion
  import opened Timestamps
  import opened Rows
  import opened LookupStore
  import opened Assembler

  type CsvFile = Option<seq<Row>>

  /** A `transactions` document; the two optional ids are `None` when absent. */
  datatype Transaction = Transaction(
    id: string,
    storeId: int,
    userId: Option<int>,
    paymentMethodId: int,
    voucherId: Option<int>,
    amounts: Amounts,
    createdAt: Timestamp)

  /** A `transaction_items` document. */
  datatype TransactionItem = TransactionItem(
    transactionId: string,
    menuItemId: int,
    quantity: int,
    unitPrice: Decimal,
    subtotal: Decimal)

  /** A `menu_items` document. */
  datatype MenuItem = MenuItem(id: int, name: string, category: string, price: Decimal)

  /** A `payment_methods` document. */
  datatype PaymentMethod = PaymentMethod(id: int, methodName: string, category: string)

  /** A transform that raised on row `row` of the file. */
  datatype RowError = RowError(row: nat, error: Failure)

  /**
   * What `_import_generic` printed: the count, a missing file, a row's error, or the error
   * `insert_many` raises on an empty list of documents.
   */
  datatype BatchOutcome = Imported(count: nat) | FileNotFound | RowFailed(row: nat, error: Failure) | EmptyBatch

  // ---------------------------------------------------------------------------------------
  // Row transforms

  /** The conditions under which `_transform_transaction` returns instead of raising. */
  predicate TransactionTransforms(row: Row, parse: Parser) {
    && "transaction_id" in row
    && "store_id" in row && ParseInt(row["store_id"]).Some?
    && "payment_method_id" in row && ParseInt(row["payment_method_id"]).Some?
    && "original_amount" in row && "discount_applied" in row && "final_amount" in row
    && "created_at" in row && ParseTimestamp(parse, row["created_at"]).Some?
  }

  /**
   * `_transform_transaction(row)`: the optional ids first (they never raise), then the fields
   * of the document in the order they are written. The transaction id is copied unchanged, the
   * store and payment method ids go through strict `int`, the amounts through `to_decimal128`.
   */
  function TransformTransaction(row: Row, parse: Parser): (r: Result<Transaction, Failure>)
    ensures r.Success? <==> TransactionTransforms(row, parse)
    ensures r.Success? ==>
      var t := r.value;
      && t.id == row["transaction_id"]
      && Some(t.storeId) == ParseInt(row["store_id"])
      && Some(t.paymentMethodId) == ParseInt(row["payment_method_id"])
      && t.userId == OptionalId(Get(row, "user_id"))
      && t.voucherId == OptionalId(Get(row, "voucher_id"))
      && t.amounts.original == ToDecimal128(row["original_amount"])
      && t.amounts.discount == ToDecimal128(row["discount_applied"])
      && t.amounts.final == ToDecimal128(row["final_amount"])
      && parse(row["created_at"]) == Some(t.createdAt)
    ensures "transaction_id" !in row ==> r == Failure(MissingField("transaction_id"))
    ensures "transaction_id" in row && IntField(row, "store_id").Failure? ==> r == Failure(IntField(row, "store_id").error)
  {
    var userId := OptionalId(Get(row, "user_id"));
    var voucherId := OptionalId(Get(row, "voucher_id"));
    match Field(row, "transaction_id")
    case Failure(e) => Failure(e)
    case Success(id) =>
    match IntField(row, "store_id")
    case Failure(e) => Failure(e)
    case Success(storeId) =>
    match IntField(row, "payment_method_id")
    case Failure(e) => Failure(e)
    case Success(paymentMethodId) =>
    match Field(row, "original_amount")
    case Failure(e) => Failure(e)
    case Success(original) =>
    match Field(row, "discount_applied")
    case Failure(e) => Failure(e)
    case Success(discount) =>
    match Field(row, "final_amount")
    case Failure(e) => Failure(e)
    case Success(finalAmount) =>
    match Field(row, "created_at")
    case Failure(e) => Failure(e)
    case Success(createdText) =>
    match TimestampOf(parse, Some(createdText), "created_at")
    case Failure(e) => Failure(e)
    case Success(createdAt) =>
    Success(Transaction(id, storeId, userId, paymentMethodId, voucherId,
      Amounts(ToDecimal128(original), ToDecimal128(discount), ToDecimal128(finalAmount)), createdAt))
  }

  /**
   * `_transform_transaction_item(row)`: the transaction id copied, `item_id` renamed to the
   * menu item id and the quantity through strict `int`, both prices through `to_decimal128`.
   */
  function TransformTransactionItem(row: Row): (r: Result<TransactionItem, Failure>)
    ensures r.Success? <==>
      && "transaction_id" in row
      && "item_id" in row && ParseInt(row["item_id"]).Some?
      && "quantity" in row && ParseInt(row["quantity"]).Some?
      && "unit_price" in row && "subtotal" in row
    ensures r.Success? ==>
      var t := r.value;
      && t.transactionId == row["transaction_id"]
      && Some(t.menuItemId) == ParseInt(row["item_id"])
      && Some(t.quantity) == ParseInt(row["quantity"])
      && t.unitPrice == ToDecimal128(row["unit_price"])
      && t.subtotal == ToDecimal128(row["subtotal"])
    ensures "transaction_id" !in row ==> r == Failure(MissingField("transaction_id"))
  {
    match Field(row, "transaction_id")
    case Failure(e) => Failure(e)
    case Success(transactionId) =>
    match IntField(row, "item_id")
    case Failure(e) => Failure(e)
    case Success(menuItemId) =>
    match IntField(row, "quantity")
    case Failure(e) => Failure(e)
    case Success(quantity) =>
    match Field(row, "unit_price")
    case Failure(e) => Failure(e)
    case Success(unitPrice) =>
    match Field(row, "subtotal")
    case Failure(e) => Failure(e)
    case Success(subtotal) =>
    Success(TransactionItem(transactionId, menuItemId, quantity, ToDecimal128(unitPrice), ToDecimal128(subtotal)))
  }

  /** `_transform_menu_item(row)`: `_id` is the `int` of `item_id`; a malformed price becomes zero. */
  function TransformMenuItem(row: Row): (r: Result<MenuItem, Failure>)
    ensures r.Success? <==>
      && "item_id" in row && ParseInt(row["item_id"]).Some?
      && "item_name" in row && "category" in row && "price" in row
    ensures r.Success? ==>
      && Some(r.value.id) == ParseInt(row["item_id"])
      && r.value.name == row["item_name"] && r.value.category == row["category"]
      && r.value.price == ToDecimal128(row["price"])
      && (ParseLiteral(row["price"]).None? ==> r.value.price == ZeroFallback)
    ensures IntField(row, "item_id").Failure? ==> r == Failure(IntField(row, "item_id").error)
  {
    match IntField(row, "item_id")
    case Failure(e) => Failure(e)
    case Success(id) =>
    match Field(row, "item_name")
    case Failure(e) => Failure(e)
    case Success(name) =>
    match Field(row, "category")
    case Failure(e) => Failure(e)
    case Success(category) =>
    match Field(row, "price")
    case Failure(e) => Failure(e)
    case Success(price) =>
    Success(MenuItem(id, name, category, ToDecimal128(price)))
  }

  /** `_transform_payment_method(row)`: `_id` is the `int` of `method_id`, the rest copied. */
  function TransformPaymentMethod(row: Row): (r: Result<PaymentMethod, Failure>)
    ensures r.Success? <==>
      && "method_id" in row && ParseInt(row["method_id"]).Some?
      && "method_name" in row && "category" in row
    ensures r.Success? ==>
      && Some(r.value.id) == ParseInt(row["method_id"])
      && r.value.methodName == row["method_name"] && r.value.category == row["category"]
    ensures IntField(row, "method_id").Failure? ==> r == Failure(IntField(row, "method_id").error)
  {
    match IntField(row, "method_id")
    case Failure(e) => Failure(e)
    case Success(id) =>
    match Field(row, "method_name")
    case Failure(e) => Failure(e)
    case Success(methodName) =>
    match Field(row, "category")
    case Failure(e) => Failure(e)
    case Success(category) =>
    Success(PaymentMethod(id, methodName, category))
  }

  // ---------------------------------------------------------------------------------------
  // The batch import

  /** A MongoDB collection, as the list of documents it holds. */
  class Collection<D> {
    var documents: seq<D>

    constructor ()
      ensures documents == []
    {
      documents := [];
    }

    /**
     * `insert_many(batch, ordered=False)`: the batch is added after what is there; an empty
     * batch is refused (pymongo raises) and nothing changes.
     */
    method InsertMany(batch: seq<D>) returns (accepted: bool)
      modifies this
      ensures accepted == (batch != [])
      ensures documents == old(documents) + batch
    {
      accepted := batch != [];
      if accepted {
        documents := documents + batch;
      }
    }
  }

  /**
   * The loop of `_import_generic`: `documents.append(transform(row))` for each row in order.
   * It completes exactly when every row transforms, and then holds one document per row; when
   * it does not, the error is that of the first row that raises.
   */
  method BuildDocuments<D>(rows: seq<Row>, transform: Row -> Result<D, Failure>) returns (r: Result<seq<D>, RowError>)
    ensures r.Success? <==> forall i :: 0 <= i < |rows| ==> transform(rows[i]).Success?
    ensures r.Success? ==> |r.value| == |rows| && forall i :: 0 <= i < |rows| ==> transform(rows[i]) == Success(r.value[i])
    ensures r.Failure? ==>
      && r.error.row < |rows|
      && transform(rows[r.error.row]) == Failure(r.error.error)
      && forall i :: 0 <= i < r.error.row ==> transform(rows[i]).Success?
  {
    var documents := [];
    var i := 0;
    while i < |rows|
      invariant i <= |rows| && |documents| == i
      invariant forall j :: 0 <= j < i ==> transform(rows[j]) == Success(documents[j])
    {
      var document := transform(rows[i]);
      if document.Failure? {
        return Failure(RowError(i, document.error));
      }
      documents := documents + [document.value];
      i := i + 1;
    }
    return Success(documents);
  }

  /**
   * `_import_generic(file, transform)` into `collection`: the collection receives every row's
   * document, in file order, when the file exists, is not empty and every row transforms;
   * otherwise it is left exactly as it was.
   */
  method ImportGeneric<D>(file: CsvFile, transform: Row -> Result<D, Failure>, collection: Collection<D>)
    returns (outcome: BatchOutcome)
    modifies collection
    ensures outcome == FileNotFound <==> file.None?
    ensures outcome.Imported? ==>
      && file.Some? && file.value != [] && outcome.count == |file.value|
      && |collection.documents| == |old(collection.documents)| + |file.value|
      && collection.documents[..|old(collection.documents)|] == old(collection.documents)
      && forall i :: 0 <= i < |file.value| ==>
           transform(file.value[i]) == Success(collection.documents[|old(collection.documents)| + i])
    ensures !outcome.Imported? ==> collection.documents == old(collection.documents)
    ensures file.Some? ==>
      (outcome.Imported? <==> file.value != [] && forall i :: 0 <= i < |file.value| ==> transform(file.value[i]).Success?)
    ensures outcome.RowFailed? ==>
      && file.Some? && outcome.row < |file.value|
      && transform(file.value[outcome.row]) == Failure(outcome.error)
      && forall i :: 0 <= i < outcome.row ==> transform(file.value[i]).Success?
    ensures outcome == EmptyBatch <==> file == Some([])
  {
    if file.None? {
      return FileNotFound;
    }
    var built := BuildDocuments(file.value, transform);
    if built.Failure? {
      return RowFailed(built.error.row, built.error.error);
    }
    var accepted := collection.InsertMany(built.value);
    if !accepted {
      return EmptyBatch;
    }
    return Imported(|built.value|);
  }

  // ---------------------------------------------------------------------------------------
  // Lemmas

  /**
   * The optional ids never fail a transaction: replacing or removing the text of `user_id` or
   * `voucher_id` leaves the conditions under which the row transforms as they were.
   */
  lemma OptionalIdsNeverFailATransaction(row: Row, parse: Parser, field: string, text: string)
    requires field == "user_id" || field == "voucher_id"
    ensures TransactionTransforms(row[field := text], parse) == TransactionTransforms(row, parse)
    ensures TransactionTransforms(row - {field}, parse) == TransactionTransforms(row, parse)
  {
  }

  /**
   * A monetary column never fails a transaction: replacing the text of an amount column that
   * is present, by anything at all, leaves the conditions under which the row transforms as
   * they were (a malformed amount becomes `to_decimal128`'s zero instead).
   */
  lemma AmountTextNeverFailsATransaction(row: Row, parse: Parser, field: string, text: string)
    requires field == "original_amount" || field == "discount_applied" || field == "final_amount"
    requires field in row
    ensures TransactionTransforms(row[field := text], parse) == TransactionTransforms(row, parse)
  {
  }

  /**
   * The optimised importer accepts a transaction row exactly when the first importer does and,
   * in addition, a resolved user's birth date parses and every item row of the transaction
   * embeds.
   */
  lemma V2AcceptsWhatV1AcceptsAndMore(l: Lookups, row: Row, parse: Parser)
    ensures AssembleV2(l, row, parse).Success? <==>
      && TransformTransaction(row, parse).Success?
      && UserSnapshotOf(l, row, parse).Success?
      && EveryItemEmbeds(l, GroupOf(l.itemGroups, row["transaction_id"]))
  {
    AssembleSucceedsIff(l, row, parse);
  }

  /**
   * Both importers read a transaction row the same way: the v2 document has the v1 document's
   * id, creation time, store and payment method ids and amounts, and its user and voucher
   * snapshots carry the v1 optional ids.
   */
  lemma V2DocumentAgreesWithV1(l: Lookups, row: Row, parse: Parser)
    requires AssembleV2(l, row, parse).Success?
    ensures var d, r := AssembleV2(l, row, parse).value, TransformTransaction(row, parse);
      && r.Success?
      && r.value.id == d.id
      && r.value.createdAt == d.createdAt
      && r.value.amounts == d.amounts
      && r.value.storeId == d.store.id
      && r.value.paymentMethodId == d.paymentMethod.id
      && (d.user.Some? ==> r.value.userId == Some(d.user.value.id))
      && (d.voucher.Some? ==> r.value.voucherId == Some(d.voucher.value.id))
  {
    V2AcceptsWhatV1AcceptsAndMore(l, row, parse);
    DocumentMirrorsRow(l, row, parse);
    DocumentEmbedsUser(l, row, parse);
    DocumentEmbedsVoucher(l, row, parse);
  }

  /**
   * An item row becomes a v1 `transaction_items` document exactly when it has a transaction id
   * and embeds in a v2 document, and the two carry the same menu item id, quantity and prices.
   */
  lemma ItemTransformsAgree(l: Lookups, row: Row)
    ensures TransformTransactionItem(row).Success? <==> "transaction_id" in row && EmbedItem(l, row).Success?
    ensures TransformTransactionItem(row).Success? ==>
      var t, e := TransformTransactionItem(row).value, EmbedItem(l, row).value;
      && t.menuItemId == e.menuItemId && t.quantity == e.quantity
      && t.unitPrice == e.unitPrice && t.subtotal == e.subtotal
  {
  }
}
