# MongoDB schema-optimisation importers, modelled in Dafny

This project models the two CSV-to-MongoDB importers of a coffee-shop sales data set.

- **v1 importer (`DataImporter`).** It turns each CSV row into a flat document of a normalised
  schema, one collection per entity. `_import_generic` builds the documents of a whole file and
  then inserts them with a single bulk insert.
- **Optimised v2 importer (`OptimizedDataImporter`).** It first loads the reference tables
  (stores, menu items, payment methods, vouchers, users) and the transaction item rows into
  in-memory dictionaries, the *lookup store*. It then assembles one enriched transaction document
  per transaction row. Each document carries:
  - store, payment method, user and voucher snapshots (the "extended reference" pattern);
  - its item rows embedded, in order, with their count;
  - a computed `createdAtDetails` breakdown of the creation time.

Both importers use `to_decimal128`, a conversion that turns a malformed amount into decimal
zero. They also share one rule for the optional foreign keys `user_id` and
`voucher_id`: an empty or non-numeric value means "no reference", and otherwise the id is
`int(float(raw))`.

The modules follow that structure:

| module | file | what it holds |
|---|---|---|
| `Wrappers` | wrappers.dfy | `Option`, `Result`, and the append-in-a-loop pattern (`MapResults`, `MapInOrder`) |
| `Numeric` | numeric.dfy | the numeric text grammar `[+-]digits[.digits]`, its parser and renderer, and Python's strict `int()` |
| `Coercion` | coercion.dfy | Decimal128 as an exact (sign, coefficient, exponent) value, `to_decimal128`, and the optional-id rule |
| `Timestamps` | timestamps.dfy | parsed date-times, the date parser as a parameter, and `toordinal` / `isoweekday` |
| `Rows` | rows.dfy | a CSV row as a map from column to text, the exceptions a transform raises, and the field accessors |
| `AgeClassifier` | age_classifier.dfy | `_get_age_group` |
| `LookupStore` | lookup_store.dfy | the loading rules of `_load_csv_to_dict` and `_load_transaction_items`, their loops and lemmas |
| `Assembler` | assembler.dfy | `_transform_transaction_v2` as a function of a row and the lookup tables, and what a document says |
| `ImporterV2` | importer_v2.dfy | the `OptimizedDataImporter` class: its dictionaries as fields, the loads, the transform and the import loop |
| `ImporterV1` | importer_v1.dfy | the v1 row transforms, a collection, `_import_generic`, and how v1 and v2 read the same row |

Some conventions hold throughout:

- **Exceptions.** A Python exception is a `Failure` value:
  - `MissingField` for a `KeyError`;
  - `NotAnInteger` for `int()`'s `ValueError`;
  - `BadTimestamp` for a date the parser rejects.

  Every transform checks its fields in the order Python evaluates them, so the error reported is
  the one Python raises first.
- **Missing files.** A missing file is `None`. Otherwise a file is the sequence of its rows.
- **Printed messages.** What an importer prints (a count, a warning, an error) becomes an
  outcome value.

Two behaviours of the code deserve a note:

- **The first bad row ends the file.** The code does not isolate rows: a row whose required
  field is malformed is not reported and skipped. A transform that raises escapes the row loop,
  and the file-wide `try` catches it.
  - In v2 this ends `import_optimized_transactions` at that row
    (`ImportOptimizedTransactions`).
  - In v1, `_import_generic` inserts nothing from the file (`ImportGeneric`).
  - The same holds for the lookup loads: the first row whose key cannot be converted ends the
    load, and the rows before it stay loaded.
- **The "Nepoznato" label never reaches a document.** `_transform_transaction_v2` parses a
  resolved user's birth date *before* it calls `_get_age_group`. A resolved user whose birth
  date is absent or empty therefore makes the row raise, and `_get_age_group`'s "Nepoznato"
  label cannot appear in a document (`ResolvedUserNeedsBirthdate`). `GetAgeGroup` itself still
  returns it.

## Model

| member | source | states |
|---|---|---|
| Coercion.ToDecimal128 | v2/scripts/data_importer_v2.py:11-16 | `to_decimal128` never raises in the model (see Left out): text outside the numeric grammar gives exactly the zero decimal `Decimal128("0.0")` (the same function is v1's `to_decimal128`, v1/scripts/data_importer_v1.py:10-15) |
| Coercion.ToDecimal128Value | v2/scripts/data_importer_v2.py:13-14 | the decimal of a numeric text has that text's sign, an exponent of minus the number of fraction digits, and as coefficient the whole part shifted by that many digits plus the fraction |
| Coercion.FallbackIsDecimalOfZeroText | v2/scripts/data_importer_v2.py:16 | the fallback value is exactly the decimal the text "0.0" denotes |
| Coercion.ToDecimal128OfAmount | v2/scripts/data_importer_v2.py:13-14 | "10.00" becomes coefficient 1000 with exponent -2 (the scale is kept) |
| Coercion.ToDecimal128OfMalformedText | v2/scripts/data_importer_v2.py:13-16 | "" and "n/a" become the zero fallback |
| Coercion.OptionalId | v2/scripts/data_importer_v2.py:97-99 | an optional id is absent exactly when the raw value is missing, empty or not numeric |
| Coercion.OptionalIdValue | v2/scripts/data_importer_v2.py:98-99 | a numeric text gives its literal truncated toward zero |
| Coercion.OptionalIdTruncatesDecimal | v2/scripts/data_importer_v2.py:98-99 | an id is present exactly when the text is a number, and then it is the text's decimal truncated toward zero: magnitude between the coefficient scaled down and one more, sign that of the decimal |
| Coercion.StrictIntAgrees | v2/scripts/data_importer_v2.py:89-99 | a text strict `int()` accepts gives the same number under `int(float(...))`, and its decimal has exponent 0 and that number's magnitude as coefficient |
| Coercion.OptionalIdOfFloatText | v2/scripts/data_importer_v2.py:98-99 | "104.0" gives the id 104 |
| Coercion.OptionalIdOfNegativeText | v2/scripts/data_importer_v2.py:98-99 | "-3.7" gives -3 (truncation toward zero, as `int(float(...))`) |
| Coercion.OptionalIdOfNonNumericText | v2/scripts/data_importer_v2.py:97-98 | an empty, non-numeric or missing id is absent |
| Numeric.ParseInt | v2/scripts/data_importer_v2.py:89-90 | `int(text)` accepts exactly the grammar's literals without a fraction part ("5.0" raises) |
| Numeric.ParseLiteral | v2/scripts/data_importer_v2.py:14 | every literal the recogniser returns is well formed (non-empty digit whole part, digit fraction) |
| Numeric.RenderParses | v2/scripts/data_importer_v2.py:14 | parsing the text of a well-formed literal gives that literal back |
| Numeric.ParseRendersBack | v2/scripts/data_importer_v2.py:14 | rendering a parsed literal gives back the text it was parsed from |
| Timestamps.ParseTimestamp | v2/scripts/data_importer_v2.py:88 | the date parser rejects the empty text and otherwise is the given parser |
| Timestamps.Ordinal | v2/scripts/data_importer_v2.py:148 | `toordinal` of every date lies in 1..3652059 |
| Timestamps.OrdinalEndpoints | v2/scripts/data_importer_v2.py:148 | 0001-01-01 is day 1 and 9999-12-31 is day 3652059, the ends of that range |
| Timestamps.IsoWeekday | v2/scripts/data_importer_v2.py:148 | the day of the week lies in 1..7 |
| Timestamps.NextDayOrdinal | v2/scripts/data_importer_v2.py:148 | consecutive calendar days have consecutive ordinals, across month and year ends |
| Timestamps.NextDayWeekday | v2/scripts/data_importer_v2.py:148 | the weekday advances by one per day and wraps from Sunday (7) to Monday (1) |
| Timestamps.MondayIsOne | v2/scripts/data_importer_v2.py:148 | 0001-01-01, a Monday, has weekday 1: with NextDayWeekday this is ISO 8601 numbering |
| Timestamps.TuesdayIsTwo | v2/scripts/data_importer_v2.py:148 | 4 July 2023 has weekday 2 |
| Rows.Get | v2/scripts/data_importer_v2.py:97 | `row.get(field)` is the value when the column exists and absent otherwise |
| Rows.Field | v2/scripts/data_importer_v2.py:137 | `row[field]` is the value when the column exists and raises `KeyError` for that field otherwise |
| Rows.IntField | v2/scripts/data_importer_v2.py:89-90 | `int(row[field])` succeeds exactly when the column exists and its text is an integer literal, with that value |
| Rows.TimestampOf | v2/scripts/data_importer_v2.py:88 | the date parse of a value that may be missing succeeds exactly when it is present and parses |
| Rows.Lookup | v2/scripts/data_importer_v2.py:93-94 | `table.get(key, {})` is the row of a known key and the empty row otherwise |
| AgeClassifier.Bracket | v2/scripts/data_importer_v2.py:79-83 | exactly one bracket applies to each age: each label is returned exactly on its age range |
| AgeClassifier.GetAgeGroup | v2/scripts/data_importer_v2.py:74-83 | an absent or empty birth date gives "Nepoznato"; it raises exactly when the date is present, non-empty and rejected by the parser; a date that parses gets the bracket of 2024 minus its year |
| LookupStore.LoadRows | v2/scripts/data_importer_v2.py:50-58 | a load keeps every key the dictionary had, and when it stops early it stops at a row whose key does not convert |
| LookupStore.StoreRow | v2/scripts/data_importer_v2.py:51-54 | one row: the key conversion raises exactly when the key column is missing or does not convert; otherwise the row is inserted, or dropped when overwrite is off and the key exists |
| LookupStore.InsertRows | v2/scripts/data_importer_v2.py:50-58 | the load loop leaves exactly the table of the load rules and reports the row whose key raised, if any |
| LookupStore.GroupRows | v2/scripts/data_importer_v2.py:64-72 | grouping keeps every transaction that had a list, and when it stops early it stops at a row without `transaction_id` |
| LookupStore.AppendRow | v2/scripts/data_importer_v2.py:65-68 | one item row: raises exactly when `transaction_id` is missing; otherwise the row is appended to its transaction's list, created when new |
| LookupStore.AppendRows | v2/scripts/data_importer_v2.py:64-72 | the item loop leaves exactly the grouping of the rules and reports the first row without a transaction id, if any |
| LookupStore.LoadStopsAtFirstBadKey | v2/scripts/data_importer_v2.py:50-58 | a load stops exactly at the first row whose key raises: every earlier row has a key, the table is that of loading exactly those rows, and it runs to the end exactly when every row has a key |
| LookupStore.LoadKeepsExisting | v2/scripts/data_importer_v2.py:52-54 | with overwrite off, every key already present keeps its row, and the keys are the old keys plus those of the rows read |
| LookupStore.LoadOverwriteLastWins | v2/scripts/data_importer_v2.py:50-54 | with overwrite on, the keys are the old keys plus those of the rows read, and the last row read with a key is that key's row |
| LookupStore.LoadFirstWins | v2/scripts/data_importer_v2.py:52-54 | with overwrite off, a key that was absent gets the first row read that carries it |
| LookupStore.KeyedLoadFrame | v2/scripts/data_importer_v2.py:50-54 | a load in which every row has a key adds exactly those keys and leaves every other key's row as it was |
| LookupStore.LastThenKept | v2/scripts/data_importer_v2.py:40-41 | a file loaded overwriting and then a second loaded without overwrite: the last row of the first file for a key is that key's row after both |
| LookupStore.KeptThrough | v2/scripts/data_importer_v2.py:52-53 | a key present before a load without overwrite keeps its row through it |
| LookupStore.GroupStopsAtMissingId | v2/scripts/data_importer_v2.py:64-72 | grouping reads rows until the first one without `transaction_id` and runs to the end exactly when every row has one |
| LookupStore.GroupsOnlyAppend | v2/scripts/data_importer_v2.py:64-68 | grouping only appends: each transaction's list becomes its old list followed by the rows read that name it, in file order |
| LookupStore.GroupKeys | v2/scripts/data_importer_v2.py:66-67 | a transaction has a list after grouping exactly when it had one or a row read names it |
| LookupStore.ItemsAccumulateAcrossPeriods | v2/scripts/data_importer_v2.py:42-43 | the item lists of two period files grouped in turn are the first file's rows for the transaction followed by the second file's, and when both are read to the end the length is the number of matching rows in both |
| LookupStore.GroupTotal | v2/scripts/data_importer_v2.py:64-68 | the number of stored items grows by exactly the number of rows read |
| LookupStore.AppendItemTotal | v2/scripts/data_importer_v2.py:66-68 | appending one row adds exactly one item to the total |
| Assembler.Details | v2/scripts/data_importer_v2.py:145-150 | `createdAtDetails` takes year, month and hour from the creation time and its day of week is the ISO weekday of that date, with month in 1..12, day of week in 1..7 and hour in 0..23 |
| Assembler.StoreSnapshotOf | v2/scripts/data_importer_v2.py:152-156 | the store snapshot keeps the id; name and city come from the store's row and are null when the store is unknown |
| Assembler.PaymentSnapshotOf | v2/scripts/data_importer_v2.py:157-160 | the payment snapshot keeps the id; the name comes from the method's row and is null when the method is unknown |
| Assembler.EmbedItem | v2/scripts/data_importer_v2.py:124-133 | an item row embeds exactly when its menu item id and quantity are integers and both amount columns exist; it carries those values, the decimals of the amounts, and the menu item's name and category (null when the item is unknown) |
| Assembler.EmbedItems | v2/scripts/data_importer_v2.py:121-133 | the items embed exactly when each row does, one line per row, in order |
| Assembler.UserSnapshotOf | v2/scripts/data_importer_v2.py:96-107 | there is a user snapshot exactly when the user id is numeric and names a known user; it has that id, the user's gender, the parsed birth date and its bracket; it raises exactly when that user's birth date does not parse |
| Assembler.VoucherSnapshotOf | v2/scripts/data_importer_v2.py:109-118 | there is a voucher snapshot exactly when the voucher id is numeric and names a known voucher, and it carries only that id and the voucher's discount type |
| Assembler.AssembleV2 | v2/scripts/data_importer_v2.py:85-166 | a missing `created_at` is the first error raised; an assembled document has the row's transaction id as `_id`, `item_count` equal to the number of embedded items, and `createdAtDetails` computed from its creation time |
| Assembler.AssembleSucceedsIff | v2/scripts/data_importer_v2.py:85-166 | a transaction row is assembled exactly when its creation time parses, its store and payment method ids are integers, a resolved user's birth date parses, it has a transaction id whose every item embeds, and its three amount columns exist |
| Assembler.DocumentMirrorsRow | v2/scripts/data_importer_v2.py:136-165 | the document's `_id` is the row's transaction id; it carries the parsed creation time and its details, the store and payment method ids, the three amounts as decimals, and one embedded line per item row in order, with `item_count` equal to their number |
| Assembler.ReferenceTablesNeverFailARow | v2/scripts/data_importer_v2.py:93-125 | whether a row is assembled does not depend on the store, payment method, voucher or menu item tables |
| Assembler.AmountTextNeverFailsARow | v2/scripts/data_importer_v2.py:140-142 | any text in an amount column that is present leaves whether the row is assembled unchanged |
| Assembler.DocumentEmbedsStoreAndPayment | v2/scripts/data_importer_v2.py:152-160 | the document's store and payment method snapshots are those of its ids |
| Assembler.DocumentEmbedsUser | v2/scripts/data_importer_v2.py:161 | the document's user is the one resolved from the row's user id |
| Assembler.DocumentEmbedsVoucher | v2/scripts/data_importer_v2.py:162 | the document's voucher is the one resolved from the row's voucher id |
| Assembler.ResolvedUserNeedsBirthdate | v2/scripts/data_importer_v2.py:105-106 | a resolved user without a birth date, or with an empty one, makes the row raise |
| Assembler.ExampleTransactionDocument | v2/scripts/data_importer_v2.py:85-166 | a concrete row (store 5, payment method 2, no user or voucher, amounts 10.00/0/10.00, created on Tuesday 4 July 2023 at 14:30, no items) gives the expected document |
| ImporterV2.LoadAll | v2/scripts/data_importer_v2.py:30-44 | loading the lookup data never removes a key from any dictionary; a missing stores file leaves the stores as they were, and missing user files leave the users as they were |
| ImporterV2.UsersLastWinsThenFirstWins | v2/scripts/data_importer_v2.py:40-41 | after the lookup load, the users dictionary maps a user id to the last row for it in the 2023-07 file, whatever the 2024-01 file holds |
| ImporterV2.OptimizedDataImporter.constructor | v2/scripts/data_importer_v2.py:20-28 | a new importer has every dictionary empty |
| ImporterV2.OptimizedDataImporter.LoadCsvToDict | v2/scripts/data_importer_v2.py:46-58 | the target dictionary becomes the load of the file into it, nothing else changes, and the outcome is the missing-file warning or the row whose key raised |
| ImporterV2.OptimizedDataImporter.LoadTransactionItems | v2/scripts/data_importer_v2.py:60-72 | the item map becomes the grouping of the file into it, nothing else changes, and the outcome is the missing-file warning or the first row without a transaction id |
| ImporterV2.OptimizedDataImporter.LoadLookupData | v2/scripts/data_importer_v2.py:30-44 | the eight loads in order give the dictionaries of the load rules |
| ImporterV2.OptimizedDataImporter.LoadStaticData | v2/scripts/data_importer_v2.py:34-37 | the four reference tables are each loaded overwriting from their file; users and items stay |
| ImporterV2.OptimizedDataImporter.LoadPeriodData | v2/scripts/data_importer_v2.py:40-43 | users of 2023-07 overwriting, then users of 2024-01 only where absent, then the items of both periods; the reference tables stay |
| ImporterV2.OptimizedDataImporter.EmbedTransactionItems | v2/scripts/data_importer_v2.py:121-133 | the item loop returns the embedding of the item rows, in order, or the first row's error |
| ImporterV2.OptimizedDataImporter.TransformTransactionV2 | v2/scripts/data_importer_v2.py:85-166 | the transform returns the assembled document of the row against the current dictionaries, or the error Python raises first |
| ImporterV2.OptimizedDataImporter.ImportOptimizedTransactions | v2/scripts/data_importer_v2.py:175-186 | one document per row in file order; the first row that raises ends the file with that row's error and the documents before it; a missing file is reported; the dictionaries do not change |
| Wrappers.MapInOrder | v2/scripts/data_importer_v2.py:121-126 | appending `f(x)` for each element in a loop gives every result in order, or the first error |
| ImporterV1.TransformTransaction | v1/scripts/data_importer_v1.py:62-71 | a transaction row transforms exactly when it has a transaction id, integer store and payment method ids, the three amount columns and a creation time that parses; the id is copied, the optional ids follow the optional-id rule, the amounts go through `to_decimal128`; a missing transaction id, then a bad store id, is the error raised |
| ImporterV1.TransformTransactionItem | v1/scripts/data_importer_v1.py:73-76 | an item row transforms exactly when it has a transaction id, integer item id and quantity, and both amount columns; `item_id` becomes the menu item id, and the amounts are decimals with the zero fallback |
| ImporterV1.TransformMenuItem | v1/scripts/data_importer_v1.py:46-48 | `_id` is the `int` of `item_id` (its error comes first); name and category are copied; a malformed price becomes zero |
| ImporterV1.TransformPaymentMethod | v1/scripts/data_importer_v1.py:50-51 | `_id` is the `int` of `method_id` (its error comes first); method name and category are copied |
| ImporterV1.Collection.InsertMany | v1/scripts/data_importer_v1.py:33 | the batch is added after the documents already there; an empty batch is refused |
| ImporterV1.BuildDocuments | v1/scripts/data_importer_v1.py:26-31 | the document list is built exactly when every row transforms, one document per row in order; otherwise the error is the first failing row's |
| ImporterV1.ImportGeneric | v1/scripts/data_importer_v1.py:22-38 | all or nothing per file: the collection receives every row's document in order exactly when the file exists, is non-empty and every row transforms; otherwise it is unchanged and the outcome names the missing file (exactly when there is none), the first failing row or the empty batch |
| ImporterV1.OptionalIdsNeverFailATransaction | v1/scripts/data_importer_v1.py:63-66 | any text in `user_id` or `voucher_id`, or no such column, leaves the conditions for a transaction row to transform unchanged |
| ImporterV1.AmountTextNeverFailsATransaction | v1/scripts/data_importer_v1.py:69-71 | any text in an amount column that is present leaves the conditions for a transaction row to transform unchanged |
| ImporterV1.V2AcceptsWhatV1AcceptsAndMore | v1/scripts/data_importer_v1.py:62-71 | v2 assembles a transaction row exactly when v1 transforms it, a resolved user's birth date parses, and every item of the transaction embeds |
| ImporterV1.V2DocumentAgreesWithV1 | v1/scripts/data_importer_v1.py:67-71 | the v2 document has the v1 document's id, creation time, store and payment method ids and amounts, and its user and voucher snapshots carry the v1 optional ids |
| ImporterV1.ItemTransformsAgree | v1/scripts/data_importer_v1.py:73-76 | an item row becomes a v1 item document exactly when it has a transaction id and embeds in v2, with the same menu item id, quantity and amounts |

## Left out

- **File and CSV reading, and logging.**
  - `open`, `csv.DictReader` and the `print` logging are not modelled. A file is its rows, or
    `None` when it does not exist. What is printed becomes an outcome value.
  - A short CSV row, whose missing cells `csv.DictReader` fills with `None`, is not modelled. A
    row is a map from column to text, so a missing column is an absent key.
- **MongoDB.**
  - The connection, database drop, index creation and the command-line wiring are not part of
    this model: v1/scripts/fill_database_v1.py and v2/scripts/fill_database_v2.py.
  - The `db` and collection-name parameters are not modelled.
- ImporterV1.Collection.InsertMany: does not model duplicate-`_id` errors or the partial
  inserts of `ordered=False`. A non-empty batch is always appended whole.
- ImporterV2.OptimizedDataImporter.ImportOptimizedTransactions: returns the documents it built.
  The source builds them and then drops them without inserting them.
- **Other v1 transforms and wiring.** These are not modelled:
  - `_transform_store`, which computes floating-point coordinates;
  - `_transform_voucher` and `_transform_user`, which add nothing beyond the date parse;
  - `import_static_collections` and `import_dynamic_collections`, which only call
    `_import_generic` in turn.
- Timestamps.ParseTimestamp: `dateutil.parser.parse` is a parameter of the model, a partial
  function from text to a date-time. Its format inference, time zones and microseconds are not
  modelled. Two facts are assumed about it:
  - it rejects the empty text;
  - it is a pure function of the text. `dateutil` fills the parts a text leaves out from
    today's date, and `_transform_transaction_v2` parses a birth date twice
    (v2/scripts/data_importer_v2.py:105-106). The model gives both parses the same result.
- Numeric.ParseLiteral: recognises only `[+-]digits[.digits]`. Other forms that Python accepts
  are treated as malformed, so the model gives a different answer from Python for them:
  - surrounding whitespace, as in `" 5"`;
  - `_` digit separators, as in `"1_000"`;
  - exponents, as in `"1e3"`;
  - a leading or trailing `.`, as in `"5."`;
  - `inf` and `nan`.

  For example, `ToDecimal128("1e3")` is the zero fallback, where Python gives `1E+3`, and
  `OptionalId(" 5")` is absent, where Python gives 5.
- Numeric.ParseInt: treats as malformed the surrounding whitespace and `_` separators that
  Python's `int()` accepts, so `int(" 5")` raises in the model and gives 5 in Python.
- Coercion.ToDecimal128: is total only in the model. The model does not model the 34-digit
  precision limit of Decimal128 or the rounding and overflow rules of its context, so the result
  is the exact decimal of the text. In Python, a text that needs more than 34 significant digits
  raises `decimal.Inexact`. `to_decimal128` does not catch that exception
  (v2/scripts/data_importer_v2.py:15), so such a text makes the row raise.
- Coercion.OptionalId: does not model float rounding in `int(float(raw))`. The model truncates
  the exact decimal. So `"3.9999999999999999"` gives 4 in Python, because the float rounds up,
  and 3 in the model. Ids beyond 2^53 also differ from Python's.
- **Dictionaries updated in place.** Each load loop (`InsertRows`, `AppendRows`) runs over a
  local map. `LoadCsvToDict` and `LoadTransactionItems` then store that map in the importer's
  field. This is the same end state as Python's in-place updates of `self.users` and the other
  dictionaries, because no other code sees the dictionary while a load is running.
- **Lemmas stated on predicates.** Several lemmas are stated on the success predicates
  `Assembles` and `TransactionTransforms` rather than on the transforms themselves. Examples are
  `OptionalIdsNeverFailATransaction`, `AmountTextNeverFailsATransaction`, and
  `AmountTextKeepsConditions`, the step behind `AmountTextNeverFailsARow`. `AssembleSucceedsIff` and the `ensures` of
  `TransformTransaction` tie each predicate to its transform in both directions.
