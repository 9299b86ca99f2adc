/**
 * The partitioners of modules/data_filtering.py: the per-owner dictionary built
 * from a reference table, and the selections by day and by seller initials.
 */
module Filtering {
  import opened Wrappers
  import opened Seqs
  import opened Tables

  /** The two accepted values of `user_type`. */
  predicate ValidMode(mode: string)
  {
    mode == "seller" || mode == "reseller"
  }

  /** The data column matched: VENDEDOR for sellers, TELEFONO for resellers. */
  function DataColumn(mode: string): string
  {
    if mode == "seller" then "VENDEDOR" else "TELEFONO"
  }

  /** The reference column matched: SIGLAS for sellers, TELEFONO for resellers. */
  function RefColumn(mode: string): string
  {
    if mode == "seller" then "SIGLAS" else "TELEFONO"
  }

  /** Every reference row has a SIGLAS cell and a cell in the match column. */
  predicate Keyed(rows: seq<Row>, col: string)
  {
    forall i :: 0 <= i < |rows| ==> "SIGLAS" in rows[i] && col in rows[i]
  }

  /** The SIGLAS cell of every reference row, top to bottom. */
  function Siglas(rows: seq<Row>): (r: seq<Cell>)
    requires forall i :: 0 <= i < |rows| ==> "SIGLAS" in rows[i]
    ensures |r| == |rows|
    ensures forall i :: 0 <= i < |rows| ==> r[i] == rows[i]["SIGLAS"]
  {
    seq(|rows|, i requires 0 <= i < |rows| => rows[i]["SIGLAS"])
  }

  /**
   * The dict comprehension over the reference rows: each row stores, under its
   * SIGLAS, the data rows whose `dcol` equals that row's `rcol`. A repeated
   * SIGLAS keeps its first place among the keys and takes the later value.
   */
  function Partition(data: Table, rows: seq<Row>, dcol: string, rcol: string): (d: Dict<Table>)
    requires Keyed(rows, rcol)
    ensures d.Valid()
    decreases |rows|
  {
    if rows == [] then EmptyDict()
    else
      var init, last := rows[..|rows| - 1], rows[|rows| - 1];
      Partition(data, init, dcol, rcol).Put(last["SIGLAS"], Select(data, dcol, last[rcol]))
  }

  /** The dict's keys are the reference SIGLAS values, deduplicated, in order of first appearance. */
  lemma {:induction false} PartitionKeys(data: Table, rows: seq<Row>, dcol: string, rcol: string)
    requires Keyed(rows, rcol)
    ensures Partition(data, rows, dcol, rcol).keys == Dedup(Siglas(rows))
  {
    if rows != [] {
      var init := rows[..|rows| - 1];
      assert Siglas(rows)[..|rows| - 1] == Siglas(init);
      PartitionKeys(data, init, dcol, rcol);
    }
  }

  /**
   * The entry stored under a reference row's SIGLAS is that row's selection
   * whenever no later reference row repeats the SIGLAS: the last one wins.
   */
  lemma {:induction false} PartitionLastWins(data: Table, rows: seq<Row>, dcol: string, rcol: string, j: nat)
    requires Keyed(rows, rcol) && j < |rows|
    requires forall k :: j < k < |rows| ==> rows[k]["SIGLAS"] != rows[j]["SIGLAS"]
    ensures rows[j]["SIGLAS"] in Partition(data, rows, dcol, rcol).entries
    ensures Partition(data, rows, dcol, rcol).entries[rows[j]["SIGLAS"]] == Select(data, dcol, rows[j][rcol])
  {
    var init, last := rows[..|rows| - 1], rows[|rows| - 1];
    var d := Partition(data, init, dcol, rcol);
    assert Partition(data, rows, dcol, rcol).entries == d.entries[last["SIGLAS"] := Select(data, dcol, last[rcol])];
    if j < |rows| - 1 {
      assert init[j] == rows[j];
      assert forall k :: j < k < |init| ==> init[k] == rows[k];
      PartitionLastWins(data, init, dcol, rcol, j);
    }
  }

  /** Every entry is a table with the data's columns, holding only rows of the data. */
  lemma {:induction false} PartitionEntriesValid(data: Table, rows: seq<Row>, dcol: string, rcol: string)
    requires data.Valid() && Keyed(rows, rcol)
    ensures forall k :: k in Partition(data, rows, dcol, rcol).entries ==>
      Partition(data, rows, dcol, rcol).entries[k].Valid() &&
      Partition(data, rows, dcol, rcol).entries[k].columns == data.columns
    ensures forall k, row :: k in Partition(data, rows, dcol, rcol).entries && row in Partition(data, rows, dcol, rcol).entries[k].rows ==>
      row in data.rows
  {
    if rows != [] {
      var last := rows[|rows| - 1];
      PartitionEntriesValid(data, rows[..|rows| - 1], dcol, rcol);
      forall row | row in Select(data, dcol, last[rcol]).rows ensures row in data.rows {
        FilterMember(data.rows, Matches(dcol, last[rcol]), row);
      }
    }
  }

  /**
   * `filter_data_by_user_type`: the invalid mode is a ValueError raised before
   * anything else; then a missing match column raises a KeyError, the data's
   * first; a reseller table without SIGLAS fails inside the comprehension, as
   * soon as it has a row, and that failure is re-raised as a ValueError.
   */
  function FilterByUserType(data: Table, ref: Table, mode: string): (r: Result<Dict<Table>, Error>)
    requires data.Valid() && ref.Valid()
    ensures !ValidMode(mode) ==> r == Err(Raised(ValueErrorType, InvalidMode(mode)))
    ensures ValidMode(mode) && DataColumn(mode) !in data.columns ==> r == Err(MissingColumns([DataColumn(mode)]))
    ensures ValidMode(mode) && DataColumn(mode) in data.columns && RefColumn(mode) !in ref.columns ==>
      r == Err(MissingColumns([RefColumn(mode)]))
    ensures r.Ok? <==>
      (ValidMode(mode) && DataColumn(mode) in data.columns && RefColumn(mode) in ref.columns &&
       ("SIGLAS" in ref.columns || |ref.rows| == 0))
    ensures r.Err? && r.error.Wrapped? ==>
      mode == "reseller" && "SIGLAS" !in ref.columns && r.error == Wrapped(ValueErrorType, ByUserType, MissingColumns(["SIGLAS"]))
    ensures r.Ok? ==> Keyed(ref.rows, RefColumn(mode)) && r.value.Valid()
  {
    if !ValidMode(mode) then Err(Raised(ValueErrorType, InvalidMode(mode)))
    else
      var dcol, rcol := DataColumn(mode), RefColumn(mode);
      if dcol !in data.columns then Err(MissingColumns([dcol]))
      else if rcol !in ref.columns then Err(MissingColumns([rcol]))
      else if "SIGLAS" !in ref.columns && |ref.rows| > 0 then
        Err(Wrapped(ValueErrorType, ByUserType, MissingColumns(["SIGLAS"])))
      else
        Ok(Partition(data, ref.rows, dcol, rcol))
  }

  /**
   * The keys are the reference SIGLAS values in order of first appearance, one
   * per reference row when those are distinct; every entry has the data's
   * columns and holds only rows of the data.
   */
  lemma UserTypeKeys(data: Table, ref: Table, mode: string)
    requires data.Valid() && ref.Valid() && FilterByUserType(data, ref, mode).Ok?
    ensures var d := FilterByUserType(data, ref, mode).value;
      && d.keys == Dedup(Siglas(ref.rows))
      && (forall k :: k in d.entries <==> k in Siglas(ref.rows))
      && (Distinct(Siglas(ref.rows)) ==> d.keys == Siglas(ref.rows))
      && (forall k :: k in d.entries ==> d.entries[k].Valid() && d.entries[k].columns == data.columns)
      && forall k, row :: k in d.entries && row in d.entries[k].rows ==> row in data.rows
  {
    var s := Siglas(ref.rows);
    PartitionKeys(data, ref.rows, DataColumn(mode), RefColumn(mode));
    PartitionEntriesValid(data, ref.rows, DataColumn(mode), RefColumn(mode));
    if Distinct(s) {
      DedupOfDistinct(s);
    }
  }

  /**
   * The entry of the last reference row carrying a SIGLAS holds exactly the
   * data rows whose match column equals that row's value, in their order.
   */
  lemma UserTypeEntry(data: Table, ref: Table, mode: string, j: nat)
    requires data.Valid() && ref.Valid() && FilterByUserType(data, ref, mode).Ok?
    requires j < |ref.rows|
    requires forall k :: j < k < |ref.rows| ==> ref.rows[k]["SIGLAS"] != ref.rows[j]["SIGLAS"]
    ensures var d := FilterByUserType(data, ref, mode).value;
      && ref.rows[j]["SIGLAS"] in d.entries
      && d.entries[ref.rows[j]["SIGLAS"]].rows == Filter(data.rows, Matches(DataColumn(mode), ref.rows[j][RefColumn(mode)]))
      && forall row :: row in d.entries[ref.rows[j]["SIGLAS"]].rows <==>
           row in data.rows && ref.rows[j][RefColumn(mode)] != Missing && row[DataColumn(mode)] == ref.rows[j][RefColumn(mode)]
  {
    var dcol, rcol := DataColumn(mode), RefColumn(mode);
    PartitionLastWins(data, ref.rows, dcol, rcol, j);
    SelectMembers(data, dcol, ref.rows[j][rcol]);
  }

  /** A reference row that no data row matches still gets an entry, with no rows. */
  lemma UserTypeUnmatched(data: Table, ref: Table, mode: string, j: nat)
    requires data.Valid() && ref.Valid() && FilterByUserType(data, ref, mode).Ok?
    requires j < |ref.rows|
    requires forall k :: j < k < |ref.rows| ==> ref.rows[k]["SIGLAS"] != ref.rows[j]["SIGLAS"]
    requires forall i :: 0 <= i < |data.rows| ==> data.rows[i][DataColumn(mode)] != ref.rows[j][RefColumn(mode)]
    ensures var d := FilterByUserType(data, ref, mode).value;
      ref.rows[j]["SIGLAS"] in d.entries && d.entries[ref.rows[j]["SIGLAS"]].rows == []
  {
    var dcol, rcol := DataColumn(mode), RefColumn(mode);
    PartitionLastWins(data, ref.rows, dcol, rcol, j);
    FilterNone(data.rows, Matches(dcol, ref.rows[j][rcol]));
  }

  /**
   * A row is selected by `df[df[col] == v]` exactly when it is a row of the
   * table holding `v` there and `v` is not missing.
   */
  lemma SelectMembers(t: Table, col: string, v: Cell)
    requires t.Valid() && col in t.columns
    ensures forall row :: row in Select(t, col, v).rows <==> row in t.rows && v != Missing && row[col] == v
  {
    forall row ensures row in Select(t, col, v).rows <==> row in t.rows && v != Missing && row[col] == v {
      FilterMember(t.rows, Matches(col, v), row);
    }
  }

  /** `filter_data_by_day`: the rows whose DIAS is exactly `day`, or a KeyError without DIAS. */
  function FilterByDay(data: Table, day: string): (r: Result<Table, Error>)
    requires data.Valid()
    ensures r.Err? <==> "DIAS" !in data.columns
    ensures r.Err? ==> r.error == MissingColumns(["DIAS"])
    ensures r.Ok? ==> r.value.Valid() && r.value.columns == data.columns && |r.value.rows| <= |data.rows|
  {
    if "DIAS" !in data.columns then Err(MissingColumns(["DIAS"]))
    else Ok(Select(data, "DIAS", Text(day)))
  }

  /** The result holds exactly the input rows of that day. */
  lemma DayMembers(data: Table, day: string)
    requires data.Valid() && "DIAS" in data.columns
    ensures forall row :: row in FilterByDay(data, day).value.rows <==> row in data.rows && row["DIAS"] == Text(day)
  {
    SelectMembers(data, "DIAS", Text(day));
  }

  /** Filtering by the same day twice gives the same table as filtering once. */
  lemma DayIdempotent(data: Table, day: string)
    requires data.Valid() && "DIAS" in data.columns
    ensures FilterByDay(FilterByDay(data, day).value, day) == FilterByDay(data, day)
  {
    FilterIdempotent(data.rows, Matches("DIAS", Text(day)));
  }

  /** The selection keeps row order: filtering the rows of two tables one after the other is filtering each. */
  lemma DayKeepsOrder(cols: seq<string>, a: seq<Row>, b: seq<Row>, day: string)
    requires Table(cols, a + b).Valid() && "DIAS" in cols
    ensures Table(cols, a).Valid() && Table(cols, b).Valid()
    ensures FilterByDay(Table(cols, a + b), day).value.rows ==
      FilterByDay(Table(cols, a), day).value.rows + FilterByDay(Table(cols, b), day).value.rows
  {
    assert forall i :: 0 <= i < |a| ==> a[i] == (a + b)[i];
    assert forall i :: 0 <= i < |b| ==> b[i] == (a + b)[|a| + i];
    FilterAppend(a, b, Matches("DIAS", Text(day)));
  }

  /** `filter_data_by_vendor`: the records whose VENDEDOR equals the initials, or a KeyError without VENDEDOR. */
  function FilterByVendor(initials: string, data: Table): (r: Result<seq<Row>, Error>)
    requires data.Valid()
    ensures r.Err? <==> "VENDEDOR" !in data.columns
    ensures r.Err? ==> r.error == MissingColumns(["VENDEDOR"])
    ensures r.Ok? ==> |r.value| <= |data.rows|
  {
    if "VENDEDOR" !in data.columns then Err(MissingColumns(["VENDEDOR"]))
    else Ok(Select(data, "VENDEDOR", Text(initials)).rows)
  }

  /** The records are exactly the data rows of that seller. */
  lemma VendorMembers(initials: string, data: Table)
    requires data.Valid() && "VENDEDOR" in data.columns
    ensures forall row :: row in FilterByVendor(initials, data).value <==>
      row in data.rows && row["VENDEDOR"] == Text(initials)
  {
    SelectMembers(data, "VENDEDOR", Text(initials));
  }

  /**
   * In seller mode a seller's dictionary entry holds the same rows, in the same
   * order, as the records selected by that seller's initials.
   */
  lemma VendorAgreesWithUserType(data: Table, ref: Table, j: nat, initials: string)
    requires data.Valid() && ref.Valid() && FilterByUserType(data, ref, "seller").Ok?
    requires j < |ref.rows| && ref.rows[j]["SIGLAS"] == Text(initials)
    requires forall k :: j < k < |ref.rows| ==> ref.rows[k]["SIGLAS"] != ref.rows[j]["SIGLAS"]
    ensures FilterByVendor(initials, data).Ok?
    ensures Text(initials) in FilterByUserType(data, ref, "seller").value.entries
    ensures FilterByUserType(data, ref, "seller").value.entries[Text(initials)].rows == FilterByVendor(initials, data).value
  {
    PartitionLastWins(data, ref.rows, "VENDEDOR", "SIGLAS", j);
  }
}
