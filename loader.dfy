/**
 * The range reader of modules/data_loader.py (`get_data_by_range_name`) and its
 * older copy in data.py (`get_dataframe_by_range_name`). The worksheet call
 * `worksheet.get(range_name)` is replaced by the values it returned, given as
 * a parameter.
 */
module Loader {
  import opened Wrappers
  import opened Seqs
  import opened Text
  import opened Tables
  import opened Phone

  /** Python's `s[k:]` for any integer `k`: a negative `k` counts from the end. */
  function SliceFrom<T>(s: seq<T>, k: int): (r: seq<T>)
    ensures 0 <= k <= |s| ==> r == s[k..]
    ensures k > |s| ==> r == []
    ensures k < 0 ==> r == s[(if -k <= |s| then |s| + k else 0)..]
  {
    if k >= 0 then (if k <= |s| then s[k..] else [])
    else if -k <= |s| then s[|s| + k..] else s
  }

  /** `data[header_row - 1] if 0 < header_row <= len(data) else data[0]`. */
  function HeaderOf(data: seq<seq<string>>, headerRow: int): seq<string>
    requires data != []
  {
    if 0 < headerRow <= |data| then data[headerRow - 1] else data[0]
  }

  /** `data[header_row:]`. */
  function BodyOf(data: seq<seq<string>>, headerRow: int): seq<seq<string>>
  {
    SliceFrom(data, headerRow)
  }

  /** `df.columns.str.strip()`. */
  function StripAll(names: seq<string>): (r: seq<string>)
    ensures |r| == |names| && forall j :: 0 <= j < |names| ==> r[j] == Strip(names[j])
  {
    seq(|names|, j requires 0 <= j < |names| => Strip(names[j]))
  }

  /**
   * A non-empty range whose chosen header keeps its names apart once stripped
   * and whose body rows have the header's width.
   */
  predicate RangeShaped(data: seq<seq<string>>, headerRow: int)
  {
    data != [] ==>
      SheetShaped(HeaderOf(data, headerRow), BodyOf(data, headerRow)) && Distinct(StripAll(HeaderOf(data, headerRow)))
  }

  /** The names of `required` that `columns` lacks, as the set difference `set(required) - set(columns)`. */
  function MissingSet(required: seq<string>, columns: seq<string>): (m: set<string>)
    ensures forall c :: c in m <==> c in required && c !in columns
  {
    set c | c in required && c !in columns
  }

  /** A GoogleSheetsError raised inside the `try`, caught by `except Exception` and raised again. */
  function SheetsFailure(p: Problem): Error
  {
    Wrapped(SheetsErrorType, RangeUnexpected, Raised(SheetsErrorType, p))
  }

  /**
   * `get_data_by_range_name(worksheet, range_name, required_columns, header_row)`
   * given the fetched values `data`: an empty range, an empty table and absent
   * required columns raise GoogleSheetsError, which the last handler re-raises
   * as such; the KeyError of the phone step is re-raised as GoogleSheetsError
   * by the first handler.
   */
  function RangeTable(data: seq<seq<string>>, required: seq<string>, headerRow: int): (r: Result<Table, Error>)
    requires RangeShaped(data, headerRow)
    ensures r.Err? ==> r.error.Kind() == SheetsErrorType
    ensures data == [] ==> r == Err(SheetsFailure(NoDataInRange))
    ensures data != [] && BodyOf(data, headerRow) == [] ==> r == Err(SheetsFailure(EmptyRangeFrame))
    ensures r.Ok? ==> r.value.Valid() && data != [] && |r.value.rows| == |BodyOf(data, headerRow)| > 0
    ensures r.Ok? ==> forall c :: c in required ==> c in StripAll(HeaderOf(data, headerRow))
  {
    if data == [] then Err(SheetsFailure(NoDataInRange))
    else
      var header, body := HeaderOf(data, headerRow), BodyOf(data, headerRow);
      var df := FromSheet(header, body);
      if df.Empty() then Err(SheetsFailure(EmptyRangeFrame))
      else
        var named := Relabel(df, StripAll(header));
        var missing := MissingSet(required, named.columns);
        if required != [] && missing != {} then Err(SheetsFailure(MissingRequired(missing)))
        else
          match ComposePhone(named)
          case Err(e) => Err(Wrapped(SheetsErrorType, RangeProcessing, e))
          case Ok(t) => Ok(t)
  }

  /**
   * The header is row `header_row` (counted from 1) when the range has that
   * row and the first row otherwise; the body is everything after position
   * `header_row`; a required name that stays absent once the header is
   * stripped is reported with every other absent one.
   */
  lemma RangeFailures(data: seq<seq<string>>, required: seq<string>, headerRow: int)
    requires RangeShaped(data, headerRow) && data != []
    requires BodyOf(data, headerRow) != [] && HeaderOf(data, headerRow) != []
    ensures var missing := MissingSet(required, StripAll(HeaderOf(data, headerRow)));
      required != [] && missing != {} ==> RangeTable(data, required, headerRow) == Err(SheetsFailure(MissingRequired(missing)))
    ensures var names := StripAll(HeaderOf(data, headerRow));
      (required == [] || MissingSet(required, names) == {}) ==>
        RangeTable(data, required, headerRow) ==
          match ComposePhone(FromSheet(names, BodyOf(data, headerRow)))
          case Err(e) => Err(Wrapped(SheetsErrorType, RangeProcessing, e))
          case Ok(t) => Ok(t)
  {
    var header, body := HeaderOf(data, headerRow), BodyOf(data, headerRow);
    RelabelSheet(header, StripAll(header), body);
  }

  /**
   * On success each body row becomes one row, in order: every stripped header
   * name other than the phone sources holds that row's cell under it, and
   * TELEFONO is the row's INDICATIVO, a space and its CONTACTO.
   */
  lemma RangeRows(data: seq<seq<string>>, required: seq<string>, headerRow: int)
    requires RangeShaped(data, headerRow) && RangeTable(data, required, headerRow).Ok?
    ensures data != []
    ensures var names, body := StripAll(HeaderOf(data, headerRow)), BodyOf(data, headerRow);
      var t := RangeTable(data, required, headerRow).value;
      && "INDICATIVO" in names && "CONTACTO" in names
      && "INDICATIVO" !in t.columns && "CONTACTO" !in t.columns && "TELEFONO" in t.columns
      && |t.rows| == |body|
      && forall i :: 0 <= i < |body| ==>
           && t.rows[i]["TELEFONO"] ==
                Text(body[i][FirstIndex(names, "INDICATIVO")] + " " + body[i][FirstIndex(names, "CONTACTO")])
           && forall j :: 0 <= j < |names| && names[j] !in ["INDICATIVO", "CONTACTO", "TELEFONO"] ==>
                names[j] in t.rows[i] && t.rows[i][names[j]] == Text(body[i][j])
  {
    var names, body := StripAll(HeaderOf(data, headerRow)), BodyOf(data, headerRow);
    RangeFailures(data, required, headerRow);
    assert RangeTable(data, required, headerRow) == ComposePhone(FromSheet(names, body));
    SheetPhoneRows(names, body);
  }

  /** The phone step on a table read from a sheet, cell by cell. */
  lemma SheetPhoneRows(names: seq<string>, body: seq<seq<string>>)
    requires SheetShaped(names, body) && "INDICATIVO" in names && "CONTACTO" in names
    ensures ComposePhone(FromSheet(names, body)).Ok?
    ensures var t := ComposePhone(FromSheet(names, body)).value;
      && "INDICATIVO" !in t.columns && "CONTACTO" !in t.columns && "TELEFONO" in t.columns
      && |t.rows| == |body|
      && (forall i :: 0 <= i < |body| ==> "TELEFONO" in t.rows[i])
      && forall i :: 0 <= i < |body| ==>
           && t.rows[i]["TELEFONO"] ==
                Text(body[i][FirstIndex(names, "INDICATIVO")] + " " + body[i][FirstIndex(names, "CONTACTO")])
           && forall j :: 0 <= j < |names| && names[j] !in ["INDICATIVO", "CONTACTO", "TELEFONO"] ==>
                names[j] in t.rows[i] && t.rows[i][names[j]] == Text(body[i][j])
  {
    PhoneRows(FromSheet(names, body));
    forall i | 0 <= i < |body|
      ensures var t := ComposePhone(FromSheet(names, body)).value;
        && "TELEFONO" in t.rows[i]
        && t.rows[i]["TELEFONO"] ==
             Text(body[i][FirstIndex(names, "INDICATIVO")] + " " + body[i][FirstIndex(names, "CONTACTO")])
        && forall j :: 0 <= j < |names| && names[j] !in ["INDICATIVO", "CONTACTO", "TELEFONO"] ==>
             names[j] in t.rows[i] && t.rows[i][names[j]] == Text(body[i][j])
    {
      SheetPhoneRow(names, body, i);
    }
  }

  /** One row of SheetPhoneRows. */
  lemma SheetPhoneRow(names: seq<string>, body: seq<seq<string>>, i: int)
    requires SheetShaped(names, body) && "INDICATIVO" in names && "CONTACTO" in names && 0 <= i < |body|
    ensures ComposePhone(FromSheet(names, body)).Ok?
    ensures var t := ComposePhone(FromSheet(names, body)).value;
      |t.rows| == |body| && "TELEFONO" in t.rows[i]
    ensures var t := ComposePhone(FromSheet(names, body)).value;
      && t.rows[i]["TELEFONO"] ==
           Text(body[i][FirstIndex(names, "INDICATIVO")] + " " + body[i][FirstIndex(names, "CONTACTO")])
      && forall j :: 0 <= j < |names| && names[j] !in ["INDICATIVO", "CONTACTO", "TELEFONO"] ==>
           names[j] in t.rows[i] && t.rows[i][names[j]] == Text(body[i][j])
  {
    var s := FromSheet(names, body);
    PhoneRows(s);
    var a, b := FirstIndex(names, "INDICATIVO"), FirstIndex(names, "CONTACTO");
    assert s.rows[i]["INDICATIVO"] == Text(body[i][a]);
    assert s.rows[i]["CONTACTO"] == Text(body[i][b]);
    forall j | 0 <= j < |names| ensures names[j] in s.rows[i] && s.rows[i][names[j]] == Text(body[i][j]) {
    }
  }

  /**
   * `get_data_by_range_name` as written: the frame is built from the chosen
   * header and body, its column names are stripped in place, and the phone
   * column is added to it.
   */
  method GetDataByRangeName(data: seq<seq<string>>, required: seq<string>, headerRow: int) returns (r: Result<Table, Error>)
    requires RangeShaped(data, headerRow)
    ensures r == RangeTable(data, required, headerRow)
  {
    if data == [] {
      return Err(SheetsFailure(NoDataInRange));
    }
    var header, body := HeaderOf(data, headerRow), BodyOf(data, headerRow);
    var df := new Frame(FromSheet(header, body));
    if df.View().Empty() {
      return Err(SheetsFailure(EmptyRangeFrame));
    }
    df.Rename(StripAll(df.columns));
    var missing := MissingSet(required, df.columns);
    if required != [] && missing != {} {
      return Err(SheetsFailure(MissingRequired(missing)));
    }
    var phoned := AddPhoneColumn(df);
    if phoned.Err? {
      return Err(Wrapped(SheetsErrorType, RangeProcessing, phoned.error));
    }
    return phoned;
  }

  // ---------------------------------------------------------------------------
  // The copy in data.py

  /** The first row is the header and the rest the body, as `DataFrame(data[1:], columns=data[0])` takes them. */
  predicate LegacyShaped(data: seq<seq<string>>)
  {
    data != [] ==> SheetShaped(data[0], data[1..])
  }

  /**
   * `get_dataframe_by_range_name(worksheet, range_name)` of data.py given the
   * fetched values: header `data[0]`, body `data[1:]`, no stripping and no
   * required columns; every failure is re-raised as ValueError.
   */
  function LegacyRangeTable(data: seq<seq<string>>): (r: Result<Table, Error>)
    requires LegacyShaped(data)
    ensures r.Err? ==> r.error.Kind() == ValueErrorType && r.error.Wrapped? && r.error.stage == LegacyRange
    ensures data == [] ==> r.Err? && r.error.cause == Raised(ValueErrorType, NoDataInRange)
    ensures data != [] && |data| == 1 ==> r.Err? && r.error.cause == Raised(ValueErrorType, EmptyRangeFrame)
  {
    if data == [] then Err(Wrapped(ValueErrorType, LegacyRange, Raised(ValueErrorType, NoDataInRange)))
    else
      var df := FromSheet(data[0], data[1..]);
      if df.Empty() then Err(Wrapped(ValueErrorType, LegacyRange, Raised(ValueErrorType, EmptyRangeFrame)))
      else
        match ComposePhone(df)
        case Err(e) => Err(Wrapped(ValueErrorType, LegacyRange, e))
        case Ok(t) => Ok(t)
  }

  /** Header names with no surrounding whitespace. */
  predicate Unpadded(names: seq<string>)
  {
    forall j :: 0 <= j < |names| ==> names[j] == [] || (!IsSpace(names[j][0]) && !IsSpace(names[j][|names[j]| - 1]))
  }

  /**
   * The two readers differ only in the class of the error when the header is
   * the first row, needs no stripping and no column is required: both fail on
   * the same ranges, with a GoogleSheetsError and a ValueError respectively
   * over the same cause, and otherwise build the same table.
   */
  lemma LegacyRangeAgrees(data: seq<seq<string>>)
    requires LegacyShaped(data) && (data != [] ==> Unpadded(data[0]))
    ensures RangeShaped(data, 1)
    ensures LegacyRangeTable(data).Ok? <==> RangeTable(data, [], 1).Ok?
    ensures LegacyRangeTable(data).Ok? ==> LegacyRangeTable(data) == RangeTable(data, [], 1)
    ensures LegacyRangeTable(data).Err? ==>
      RangeTable(data, [], 1).error.Wrapped? && LegacyRangeTable(data).error.cause.Kind() != SheetsErrorType &&
      (LegacyRangeTable(data).error.cause.MissingColumns? <==> RangeTable(data, [], 1).error.cause.MissingColumns?)
  {
    if data != [] {
      var header := data[0];
      assert HeaderOf(data, 1) == header && BodyOf(data, 1) == data[1..];
      StripAllUnpadded(header);
      if data[1..] != [] && header != [] {
        RangeFailures(data, [], 1);
      }
    }
  }

  /** Stripping a header that needs none leaves it as it is. */
  lemma StripAllUnpadded(names: seq<string>)
    requires Unpadded(names)
    ensures StripAll(names) == names
  {
    forall j | 0 <= j < |names| ensures StripAll(names)[j] == names[j] {
      StripUnpadded(names[j]);
    }
  }

  /** Required columns that are all present change nothing: the range reads as if none were required. */
  lemma RequiredMet(data: seq<seq<string>>, required: seq<string>, headerRow: int)
    requires RangeShaped(data, headerRow)
    requires data != [] ==> MissingSet(required, StripAll(HeaderOf(data, headerRow))) == {}
    ensures RangeTable(data, required, headerRow) == RangeTable(data, [], headerRow)
  {
  }
}
