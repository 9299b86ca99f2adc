/**
 * `get_info_of_customers` of modules/data_processing.py and its older copy in
 * data.py: the customer sheet is sliced into a header and a body, cleaned,
 * split by seller against the "Vendedores" range, processed per seller and
 * concatenated. The two worksheet calls are replaced by the values they
 * returned: `get_all_values()` as `data` and `get('Vendedores')` as `sellersRange`.
 */
module Customers {
  import opened Wrappers
  import opened Seqs
  import opened Text
  import opened Tables
  import opened Cleaning
  import opened Filtering
  import opened Processing
  import opened Loader

  /** The columns the "Vendedores" range must have. */
  const SellerColumns: seq<string> := ["NOMBRE", "SIGLAS", "INDICATIVO", "CONTACTO"]

  /** The customer sheet: when it has a third row, that row is a header over rows of its width. */
  predicate SheetFits(data: seq<seq<string>>)
  {
    |data| > 2 ==> SheetShaped(data[2], data[3..])
  }

  /** The outermost handler: any exception leaves as a ValueError wrapping it. */
  function Outer(e: Error): Error
  {
    Wrapped(ValueErrorType, Unexpected, e)
  }

  // ---------------------------------------------------------------------------
  // pd.concat

  /** Every entry has the columns `cols`. */
  predicate Uniform(d: Dict<Table>, cols: seq<string>)
  {
    forall k :: k in d.entries ==> d.entries[k].Valid() && d.entries[k].columns == cols
  }

  /** The rows of the entries of the first `n` keys, one table after the other. */
  function ConcatRows(d: Dict<Table>, n: nat): seq<Row>
    requires d.Valid() && n <= |d.keys|
  {
    if n == 0 then [] else ConcatRows(d, n - 1) + d.entries[d.keys[n - 1]].rows
  }

  /**
   * `pd.concat(d.values(), ignore_index=True)` over tables that share their
   * columns: a ValueError for a dict with no tables.
   */
  function Concat(d: Dict<Table>, cols: seq<string>): (r: Result<Table, Error>)
    requires d.Valid() && Uniform(d, cols)
    ensures r.Err? <==> d.keys == []
    ensures r.Err? ==> r.error == Raised(ValueErrorType, NothingToConcatenate)
    ensures r.Ok? ==> r.value.Valid()
  {
    if d.keys == [] then Err(Raised(ValueErrorType, NothingToConcatenate))
    else
      ConcatValid(d, cols, |d.keys|);
      Ok(Table(cols, ConcatRows(d, |d.keys|)))
  }

  lemma {:induction false} ConcatValid(d: Dict<Table>, cols: seq<string>, n: nat)
    requires d.Valid() && Uniform(d, cols) && n <= |d.keys| && n > 0
    ensures Table(cols, ConcatRows(d, n)).Valid()
  {
    var k := d.keys[n - 1];
    assert k in d.entries;
    var prev, last := ConcatRows(d, n - 1), d.entries[k];
    assert Distinct(cols) by { assert last.Valid(); }
    if n > 1 {
      ConcatValid(d, cols, n - 1);
    }
    forall i | 0 <= i < |prev + last.rows| ensures (prev + last.rows)[i].Keys == ColumnSet(cols) {
      if i >= |prev| {
        assert (prev + last.rows)[i] == last.rows[i - |prev|];
      } else {
        assert (prev + last.rows)[i] == prev[i];
      }
    }
  }

  /** A row of the concatenation is a row of one of the concatenated tables, and each of their rows is in it. */
  lemma {:induction false} ConcatMembers(d: Dict<Table>, n: nat, row: Row)
    requires d.Valid() && n <= |d.keys|
    ensures row in ConcatRows(d, n) <==> exists i :: 0 <= i < n && row in d.entries[d.keys[i]].rows
  {
    if n > 0 {
      ConcatMembers(d, n - 1, row);
      assert d.keys[n - 1] in d.entries;
    }
  }

  /** ConcatMembers for every row of the whole dictionary. */
  lemma ConcatAllMembers(d: Dict<Table>)
    requires d.Valid()
    ensures forall row :: row in ConcatRows(d, |d.keys|) <==>
      exists i :: 0 <= i < |d.keys| && row in d.entries[d.keys[i]].rows
  {
    forall row ensures row in ConcatRows(d, |d.keys|) <==>
      exists i :: 0 <= i < |d.keys| && row in d.entries[d.keys[i]].rows
    {
      ConcatMembers(d, |d.keys|, row);
    }
  }

  /** The concatenation has no rows exactly when none of the tables has any. */
  lemma {:induction false} ConcatEmpty(d: Dict<Table>, n: nat)
    requires d.Valid() && n <= |d.keys|
    ensures ConcatRows(d, n) == [] <==> forall i :: 0 <= i < n ==> d.entries[d.keys[i]].rows == []
  {
    if n > 0 {
      ConcatEmpty(d, n - 1);
      assert d.keys[n - 1] in d.entries;
    }
  }

  // ---------------------------------------------------------------------------
  // The pipeline

  /** Processing every seller's table yields tables with the message columns. */
  lemma ByTypeUniform(d: Dict<Table>, day: string, message: string)
    requires d.Valid() && EntriesValid(d) && ProcessByType(d, day, message).Ok?
    ensures ProcessByType(d, day, message).value.Valid()
    ensures Uniform(ProcessByType(d, day, message).value, MessageColumns)
  {
    ByTypeEntries(d, day, message);
  }

  /** The cleaned customer rows partitioned by the sellers' SIGLAS, one key per distinct SIGLAS in the sellers' order. */
  function SellerTables(cleaned: Table, sellers: Table): (r: Result<Dict<Table>, Error>)
    requires cleaned.Valid() && TextIn(cleaned, GroupColumns) && sellers.Valid()
    ensures r.Ok? <==> "VENDEDOR" in cleaned.columns && "SIGLAS" in sellers.columns
    ensures r.Ok? ==> r.value.Valid() && EntriesValid(r.value) && r.value.keys == Dedup(Siglas(sellers.rows))
  {
    var r := FilterByUserType(cleaned, sellers, "seller");
    if r.Ok? then UserTypeKeys(cleaned, sellers, "seller"); r else r
  }

  /** Every seller's table processed; it succeeds exactly when each of them does. */
  function SellerResults(owners: Dict<Table>, day: string, message: string): (r: Result<Dict<Table>, Error>)
    requires owners.Valid() && EntriesValid(owners)
    ensures r.Ok? <==> forall k :: k in owners.entries ==> ProcessOne(owners.entries[k], day, message).Ok?
    ensures r.Ok? ==> r.value.Valid() && r.value.keys == owners.keys && Uniform(r.value, MessageColumns)
    ensures r.Ok? ==> forall k :: k in r.value.entries ==>
      k in owners.entries && r.value.entries[k] == ProcessOne(owners.entries[k], day, message).value
  {
    var r := ProcessByType(owners, day, message);
    ByTypeOk(owners, day, message);
    if r.Ok? then ByTypeEntries(owners, day, message); ByTypeUniform(owners, day, message); r else r
  }

  /**
   * Lines 147-170 (and 349-372 of data.py) on the cleaned customer table: the
   * rows partitioned by the sellers' SIGLAS, processed per seller and
   * concatenated; each failure is re-raised with the stage it happened in.
   */
  function Distribute(cleaned: Table, sellers: Table, day: string, message: string): (r: Result<Table, Error>)
    requires cleaned.Valid() && TextIn(cleaned, GroupColumns) && sellers.Valid()
    ensures r.Err? ==> r.error.Kind() == ValueErrorType
    ensures r.Ok? ==> r.value.Valid() && r.value.columns == MessageColumns && r.value.rows != []
  {
    match SellerTables(cleaned, sellers)
    case Err(e) => Err(Outer(Wrapped(ValueErrorType, CustomerFiltering, e)))
    case Ok(owners) =>
      match SellerResults(owners, day, message)
      case Err(e) => Err(Outer(Wrapped(ValueErrorType, CustomerProcessing, e)))
      case Ok(processed) =>
        match Concat(processed, MessageColumns)
        case Err(e) => Err(Outer(Wrapped(ValueErrorType, Combining, e)))
        case Ok(t) =>
          if t.Empty() then Err(Outer(Wrapped(ValueErrorType, Combining, Raised(ValueErrorType, NoValidData))))
          else Ok(t)
  }

  /** The customer table of the sheet: the third row as header over the rows after it. */
  function SheetTable(data: seq<seq<string>>): (t: Table)
    requires |data| > 2 && SheetShaped(data[2], data[3..])
    ensures t.Valid() && t.columns == data[2] && |t.rows| == |data| - 3
  {
    FromSheet(data[2], data[3..])
  }

  /**
   * Lines 137-170 (and 339-372 of data.py): the customer table must have rows,
   * is cleaned to the desired columns, then distributed.
   */
  function Pipeline(data: seq<seq<string>>, sellers: Table, day: string, message: string): (r: Result<Table, Error>)
    requires |data| > 2 && SheetShaped(data[2], data[3..]) && sellers.Valid()
    ensures r.Err? ==> r.error.Kind() == ValueErrorType
    ensures r.Ok? ==> |data| > 3 && r.value.Valid() && r.value.columns == MessageColumns && r.value.rows != []
  {
    var df := SheetTable(data);
    if df.Empty() then Err(Outer(Raised(ValueErrorType, NoCustomerData)))
    else
      DesiredNames(DesiredColumns);
      match Clean(df, DesiredColumns)
      case Err(e) => Err(Outer(Wrapped(ValueErrorType, CustomerCleaning, e)))
      case Ok(cleaned) =>
        CleanedSheetText(data);
        Distribute(cleaned, sellers, day, message)
  }

  /**
   * Every cell of the sheet is text, and the cleaner only carries cells over or
   * composes TELEFONO from text, so the grouping cells of the cleaned table are text.
   */
  lemma CleanedSheetText(data: seq<seq<string>>)
    requires |data| > 2 && SheetShaped(data[2], data[3..])
    requires Distinct(DesiredColumns) && RenameSafe(DesiredColumns) && Clean(SheetTable(data), DesiredColumns).Ok?
    ensures TextIn(Clean(SheetTable(data), DesiredColumns).value, GroupColumns)
  {
    var t := SheetTable(data);
    var rows: seq<Row>, raw: seq<Row> := Clean(t, DesiredColumns).value.rows, Filter(t.rows, KeepRaw);
    FromSheetText(data[2], data[3..]);
    CleanRows(t, DesiredColumns);
    FilterElements(t.rows, KeepRaw);
    forall row: Row, c | row in rows && c in GroupColumns && c in row ensures row[c].Text? {
      var k :| 0 <= k < |rows| && rows[k] == row;
      assert raw[k] in t.rows && rows[k] == CleanedRow(raw[k], DesiredColumns);
      CleanedCellText(t, raw[k], c);
    }
  }

  /** A grouping cell of a cleaned row of a text table is text. */
  lemma CleanedCellText(t: Table, row: Row, c: string)
    requires t.Valid() && TextIn(t, t.columns) && row in t.rows && Covers(row, DesiredColumns)
    requires c in GroupColumns
    ensures c in CleanedRow(row, DesiredColumns) ==> CleanedRow(row, DesiredColumns)[c].Text?
  {
    TextRow(t, row);
    CleanedRowKeepsText(row, DesiredColumns);
  }

  /**
   * `get_info_of_customers` of modules/data_processing.py: an empty sheet
   * fails first, then the sellers range (row 1 as header, its four columns
   * required); a sheet without a third row fails on `data[2]` only after
   * that; the header is the third row and the body every row after it.
   */
  function GetInfoOfCustomers(data: seq<seq<string>>, sellersRange: seq<seq<string>>, day: string, message: string): (r: Result<Table, Error>)
    requires SheetFits(data) && RangeShaped(sellersRange, 1)
    ensures r.Err? ==> r.error.Kind() == ValueErrorType
    ensures r.Ok? ==> |data| > 3 && r.value.Valid() && r.value.columns == MessageColumns && r.value.rows != []
    ensures data == [] ==> r == Err(Outer(Raised(ValueErrorType, InsufficientRows)))
    ensures data != [] && RangeTable(sellersRange, SellerColumns, 1).Err? ==>
      r == Err(Outer(Wrapped(ValueErrorType, Sellers, RangeTable(sellersRange, SellerColumns, 1).error)))
    ensures 0 < |data| < 3 && RangeTable(sellersRange, SellerColumns, 1).Ok? ==>
      r == Err(Outer(Raised(IndexErrorType, IndexOutOfRange)))
    ensures |data| == 3 && RangeTable(sellersRange, SellerColumns, 1).Ok? ==>
      r == Err(Outer(Raised(ValueErrorType, NoCustomerData)))
  {
    if data == [] then Err(Outer(Raised(ValueErrorType, InsufficientRows)))
    else
      match RangeTable(sellersRange, SellerColumns, 1)
      case Err(e) => Err(Outer(Wrapped(ValueErrorType, Sellers, e)))
      case Ok(sellers) =>
        if |data| < 3 then Err(Outer(Raised(IndexErrorType, IndexOutOfRange)))
        else Pipeline(data, sellers, day, message)
  }

  /**
   * `get_info_of_customers` of data.py: fewer than four sheet rows fail before
   * anything else, and the sellers range is read by the older reader (header
   * row 1, no stripping, no required columns).
   */
  function LegacyGetInfoOfCustomers(data: seq<seq<string>>, sellersRange: seq<seq<string>>, day: string, message: string): (r: Result<Table, Error>)
    requires SheetFits(data) && LegacyShaped(sellersRange)
    ensures r.Err? ==> r.error.Kind() == ValueErrorType
    ensures r.Ok? ==> r.value.Valid() && r.value.columns == MessageColumns && r.value.rows != []
    ensures |data| < 4 ==> r == Err(Outer(Raised(ValueErrorType, InsufficientRows)))
    ensures |data| >= 4 && LegacyRangeTable(sellersRange).Err? ==>
      r == Err(Outer(Wrapped(ValueErrorType, Sellers, LegacyRangeTable(sellersRange).error)))
  {
    if |data| < 4 then Err(Outer(Raised(ValueErrorType, InsufficientRows)))
    else
      match LegacyRangeTable(sellersRange)
      case Err(e) => Err(Outer(Wrapped(ValueErrorType, Sellers, e)))
      case Ok(sellers) => Pipeline(data, sellers, day, message)
  }

  /**
   * A successful distribution: the cleaned rows partitioned by the sellers'
   * SIGLAS (one key per distinct SIGLAS, in the sellers' order), each seller's
   * rows processed, and those tables concatenated in key order; every result
   * row comes from one seller's processed table.
   */
  lemma DistributeConcat(cleaned: Table, sellers: Table, day: string, message: string)
    requires cleaned.Valid() && TextIn(cleaned, GroupColumns) && sellers.Valid()
    requires Distribute(cleaned, sellers, day, message).Ok?
    ensures SellerTables(cleaned, sellers).Ok?
    ensures SellerResults(SellerTables(cleaned, sellers).value, day, message).Ok?
    ensures var processed := SellerResults(SellerTables(cleaned, sellers).value, day, message).value;
      Distribute(cleaned, sellers, day, message) == Concat(processed, MessageColumns)
  {
  }

  /** The rows of a successful distribution are the per-seller results, concatenated in SIGLAS order. */
  lemma DistributeRows(cleaned: Table, sellers: Table, day: string, message: string, processed: Dict<Table>)
    requires cleaned.Valid() && TextIn(cleaned, GroupColumns) && sellers.Valid()
    requires SellerTables(cleaned, sellers).Ok?
    requires SellerResults(SellerTables(cleaned, sellers).value, day, message) == Ok(processed)
    requires Distribute(cleaned, sellers, day, message).Ok?
    ensures processed.keys == Dedup(Siglas(sellers.rows))
    ensures Distribute(cleaned, sellers, day, message).value.rows == ConcatRows(processed, |processed.keys|)
    ensures forall row :: row in Distribute(cleaned, sellers, day, message).value.rows <==>
      exists i :: 0 <= i < |processed.keys| && row in processed.entries[processed.keys[i]].rows
  {
    DistributeConcat(cleaned, sellers, day, message);
    ConcatAllMembers(processed);
  }

  /** A successful run is the distribution of the cleaned customer table. */
  lemma PipelineStages(data: seq<seq<string>>, sellers: Table, day: string, message: string)
    requires |data| > 2 && SheetShaped(data[2], data[3..]) && sellers.Valid()
    requires Pipeline(data, sellers, day, message).Ok?
    ensures Distinct(DesiredColumns) && RenameSafe(DesiredColumns)
    ensures Clean(SheetTable(data), DesiredColumns).Ok?
    ensures TextIn(Clean(SheetTable(data), DesiredColumns).value, GroupColumns)
    ensures Pipeline(data, sellers, day, message) == Distribute(Clean(SheetTable(data), DesiredColumns).value, sellers, day, message)
  {
    DesiredNames(DesiredColumns);
    CleanedSheetText(data);
  }

  /**
   * When every seller's table of the day comes out empty, the concatenation is
   * empty and the distribution fails with "No valid data after processing".
   */
  lemma DistributeNoValidData(cleaned: Table, sellers: Table, day: string, message: string)
    requires cleaned.Valid() && TextIn(cleaned, GroupColumns) && sellers.Valid() && SellerTables(cleaned, sellers).Ok?
    requires var owners := SellerTables(cleaned, sellers).value;
      owners.keys != [] &&
      forall k :: k in owners.entries ==> ProcessOne(owners.entries[k], day, message) == Ok(Table(MessageColumns, []))
    ensures Distribute(cleaned, sellers, day, message) ==
      Err(Outer(Wrapped(ValueErrorType, Combining, Raised(ValueErrorType, NoValidData))))
  {
    ProcessedEmpty(SellerTables(cleaned, sellers).value, day, message);
  }

  /** When every seller's table processes to no rows, the concatenation has none either. */
  lemma ProcessedEmpty(owners: Dict<Table>, day: string, message: string)
    requires owners.Valid() && EntriesValid(owners)
    requires forall k :: k in owners.entries ==> ProcessOne(owners.entries[k], day, message) == Ok(Table(MessageColumns, []))
    ensures SellerResults(owners, day, message).Ok?
    ensures var processed := SellerResults(owners, day, message).value;
      ConcatRows(processed, |processed.keys|) == [] && processed.keys == owners.keys
  {
    var processed := SellerResults(owners, day, message).value;
    forall i | 0 <= i < |processed.keys| ensures processed.entries[processed.keys[i]].rows == [] {
      assert processed.keys[i] in processed.entries;
    }
    ConcatEmpty(processed, |processed.keys|);
  }

  /**
   * A sheet with fewer than four rows never yields a table: data.py refuses it
   * up front, while the modules version fails on the empty sheet, the sellers
   * range, the missing header row or the empty body, in that order.
   */
  lemma ShortSheetFails(data: seq<seq<string>>, sellersRange: seq<seq<string>>, day: string, message: string)
    requires SheetFits(data) && RangeShaped(sellersRange, 1) && LegacyShaped(sellersRange) && |data| < 4
    ensures GetInfoOfCustomers(data, sellersRange, day, message).Err?
    ensures LegacyGetInfoOfCustomers(data, sellersRange, day, message) == Err(Outer(Raised(ValueErrorType, InsufficientRows)))
  {
  }

  /**
   * The sellers table of the two readers: with a header that needs no
   * stripping and holds the four seller columns, both fail together or
   * build the same table.
   */
  lemma SellersAgree(sellersRange: seq<seq<string>>)
    requires LegacyShaped(sellersRange) && sellersRange != [] && Unpadded(sellersRange[0])
    requires forall c :: c in SellerColumns ==> c in sellersRange[0]
    ensures RangeShaped(sellersRange, 1)
    ensures LegacyRangeTable(sellersRange).Ok? <==> RangeTable(sellersRange, SellerColumns, 1).Ok?
    ensures LegacyRangeTable(sellersRange).Ok? ==> LegacyRangeTable(sellersRange) == RangeTable(sellersRange, SellerColumns, 1)
  {
    LegacyRangeAgrees(sellersRange);
    var header := sellersRange[0];
    assert HeaderOf(sellersRange, 1) == header;
    StripAllUnpadded(header);
    assert MissingSet(SellerColumns, StripAll(header)) == {};
    RequiredMet(sellersRange, SellerColumns, 1);
  }

  /**
   * On a sheet of at least four rows, with a sellers range whose header needs
   * no stripping and holds the four seller columns, the two versions agree.
   */
  lemma LegacyAgrees(data: seq<seq<string>>, sellersRange: seq<seq<string>>, day: string, message: string)
    requires SheetFits(data) && LegacyShaped(sellersRange) && |data| >= 4
    requires sellersRange != [] && Unpadded(sellersRange[0])
    requires forall c :: c in SellerColumns ==> c in sellersRange[0]
    ensures RangeShaped(sellersRange, 1)
    ensures LegacyGetInfoOfCustomers(data, sellersRange, day, message).Ok? <==>
      GetInfoOfCustomers(data, sellersRange, day, message).Ok?
    ensures LegacyGetInfoOfCustomers(data, sellersRange, day, message).Ok? ==>
      LegacyGetInfoOfCustomers(data, sellersRange, day, message) == GetInfoOfCustomers(data, sellersRange, day, message)
  {
    SellersAgree(sellersRange);
  }
}
