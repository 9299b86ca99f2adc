/**
 * The table model: a pandas DataFrame as an ordered list of column names and a
 * list of rows, each row a map from column name to cell; the exceptions the
 * pipeline raises; Python's insertion-ordered dict; and a mutable frame for the
 * operations that assign columns in place.
 */
module Tables {
  import opened Wrappers
  import opened Seqs

  /**
   * A cell: text as read from the spreadsheet, a boolean produced by parsing, or
   * pandas' missing value (NaN).
   */
  datatype Cell = Text(s: string) | Flag(b: bool) | Missing

  /** Python's `str()` of a cell, as `astype(str)` converts it. */
  function TextOf(c: Cell): string
  {
    match c
    case Text(s) => s
    case Flag(b) => if b then "True" else "False"
    case Missing => "nan"
  }

  type Row = map<string, Cell>

  function ColumnSet(cols: seq<string>): set<string>
  {
    set c | c in cols
  }

  datatype Table = Table(columns: seq<string>, rows: seq<Row>) {
    /** Column names are unique and every row has exactly the table's columns. */
    predicate Valid()
    {
      Distinct(columns) && forall i :: 0 <= i < |rows| ==> rows[i].Keys == ColumnSet(columns)
    }

    /** pandas' `DataFrame.empty`: no rows or no columns. */
    predicate Empty()
    {
      |rows| == 0 || |columns| == 0
    }
  }

  /** The cells of one column, top to bottom. */
  function Column(t: Table, name: string): (r: seq<Cell>)
    requires t.Valid() && name in t.columns
    ensures |r| == |t.rows|
    ensures forall i :: 0 <= i < |r| ==> r[i] == t.rows[i][name]
  {
    seq(|t.rows|, i requires 0 <= i < |t.rows| => t.rows[i][name])
  }

  /** The names of `required` that `columns` lacks, in the order of `required`. */
  function MissingOf(required: seq<string>, columns: seq<string>): (r: seq<string>)
    ensures forall c :: c in r <==> c in required && c !in columns
    ensures r == [] <==> forall c :: c in required ==> c in columns
  {
    var r := Filter(required, NotIn(columns));
    forall c ensures c in r <==> c in required && c !in columns {
      FilterMember(required, NotIn(columns), c);
    }
    assert r != [] ==> r[0] in r;
    r
  }

  /** The mask "name not among `names`". */
  function NotIn(names: seq<string>): string -> bool
  {
    (c: string) => c !in names
  }

  /**
   * pandas' `df[name] = values`: an existing column is overwritten where it
   * stands, a new one is appended after the others.
   */
  function SetColumn(t: Table, name: string, values: seq<Cell>): (r: Table)
    requires |values| == |t.rows|
    ensures t.Valid() ==> r.Valid()
    ensures r.columns == if name in t.columns then t.columns else t.columns + [name]
    ensures |r.rows| == |t.rows|
    ensures forall i :: 0 <= i < |r.rows| ==> r.rows[i] == t.rows[i][name := values[i]]
  {
    var cols := if name in t.columns then t.columns else t.columns + [name];
    assert ColumnSet(cols) == ColumnSet(t.columns) + {name};
    Table(cols, seq(|t.rows|, i requires 0 <= i < |t.rows| => t.rows[i][name := values[i]]))
  }

  /** pandas' `df.drop(columns=names)` (every name assumed present). */
  function DropColumns(t: Table, names: seq<string>): (r: Table)
    ensures t.Valid() ==> r.Valid()
    ensures r.columns == Filter(t.columns, NotIn(names))
    ensures |r.rows| == |t.rows|
    ensures forall i :: 0 <= i < |r.rows| ==> r.rows[i] == t.rows[i] - ColumnSet(names)
  {
    var cols := Filter(t.columns, NotIn(names));
    forall c ensures c in cols <==> c in t.columns && c !in names {
      FilterMember(t.columns, NotIn(names), c);
    }
    assert ColumnSet(cols) == ColumnSet(t.columns) - ColumnSet(names);
    assert Distinct(t.columns) ==> Distinct(cols) by {
      if Distinct(t.columns) { FilterDistinct(t.columns, NotIn(names)); }
    }
    Table(cols, seq(|t.rows|, i requires 0 <= i < |t.rows| => t.rows[i] - ColumnSet(names)))
  }

  /** pandas' `df[cols]`: the listed columns, in the listed order. */
  function Project(t: Table, cols: seq<string>): (r: Table)
    requires t.Valid() && Distinct(cols)
    requires forall c :: c in cols ==> c in t.columns
    ensures r.Valid() && r.columns == cols && |r.rows| == |t.rows|
    ensures forall i, c :: 0 <= i < |r.rows| && c in cols ==> r.rows[i][c] == t.rows[i][c]
  {
    Table(cols, seq(|t.rows|, i requires 0 <= i < |t.rows| => map c | c in cols :: t.rows[i][c]))
  }

  /**
   * The mask "column `col` equals `v`". pandas compares a missing value (NaN)
   * unequal to everything, itself included, so a missing `v` matches no row.
   */
  function Matches(col: string, v: Cell): Row -> bool
  {
    (r: Row) => v != Missing && col in r && r[col] == v
  }

  /** pandas' `df[df[col] == v]`: the rows whose `col` equals `v`, in order; none for a missing `v`. */
  function Select(t: Table, col: string, v: Cell): (r: Table)
    ensures t.Valid() ==> r.Valid()
    ensures r.columns == t.columns
    ensures r.rows == Filter(t.rows, Matches(col, v))
  {
    var rows := Filter(t.rows, Matches(col, v));
    FilterElements(t.rows, Matches(col, v));
    Table(t.columns, rows)
  }

  /** The rows satisfying a boolean mask, in order (`df[mask]`). */
  function Where(t: Table, keep: Row -> bool): (r: Table)
    ensures t.Valid() ==> r.Valid()
    ensures r.columns == t.columns && r.rows == Filter(t.rows, keep)
  {
    var rows := Filter(t.rows, keep);
    FilterElements(t.rows, keep);
    Table(t.columns, rows)
  }

  /** A column name after renaming `from` to `to`. */
  function Renamed(c: string, from: string, to: string): string
  {
    if c == from then to else c
  }

  /** One row with its `from` cell moved under `to`. */
  function RenameKey(r: Row, from: string, to: string): (r': Row)
    ensures from in r ==> r'.Keys == r.Keys - {from} + {to} && r'[to] == r[from]
    ensures from !in r ==> r' == r
  {
    if from in r then (r - {from})[to := r[from]] else r
  }

  /** Renaming the most recently added key puts its cell under the new name instead. */
  lemma RenameLast(m: Row, from: string, to: string, x: Cell)
    requires from !in m
    ensures RenameKey(m[from := x], from, to) == m[to := x]
  {
    assert m[from := x] - {from} == m;
  }

  /** Updates of two different keys commute. */
  lemma SwapLast(m: Row, a: string, x: Cell, b: string, y: Cell)
    requires a != b
    ensures m[a := x][b := y] == m[b := y][a := x]
  {
  }

  /** An update of `k` can be made before four updates of other keys instead of after them. */
  lemma Sink(m: Row, a: string, x: Cell, b: string, y: Cell, c: string, z: Cell, d: string, u: Cell, k: string, v: Cell)
    requires k != a && k != b && k != c && k != d
    ensures m[a := x][b := y][c := z][d := u][k := v] == m[k := v][a := x][b := y][c := z][d := u]
  {
  }

  /** A later update of `k` hides an earlier one made before two other updates. */
  lemma Overwrite(m: Row, k: string, x: Cell, a: string, y: Cell, b: string, z: Cell, f: Cell)
    requires k != a && k != b
    ensures m[k := x][a := y][b := z][k := f] == m[a := y][b := z][k := f]
  {
  }

  /** Removing a key added before three others, and absent before, undoes that addition. */
  lemma RemoveAdded(m: Row, k: string, x: Cell, a: string, y: Cell, b: string, z: Cell, c: string, u: Cell)
    requires k !in m && k != a && k != b && k != c
    ensures m[k := x][a := y][b := z][c := u] - {k} == m[a := y][b := z][c := u]
  {
  }

  /**
   * pandas' `df.rename(columns={from: to})`: the column keeps its place and its
   * cells under the new name; a table without `from` is unchanged.
   */
  function RenameColumn(t: Table, from: string, to: string): (r: Table)
    requires t.Valid() && (from in t.columns ==> to !in t.columns)
    ensures r.Valid()
    ensures |r.columns| == |t.columns|
    ensures forall j :: 0 <= j < |r.columns| ==> r.columns[j] == Renamed(t.columns[j], from, to)
    ensures forall c :: c in r.columns <==> (c in t.columns && c != from) || (c == to && from in t.columns)
    ensures |r.rows| == |t.rows|
    ensures forall i :: 0 <= i < |r.rows| ==> r.rows[i] == RenameKey(t.rows[i], from, to)
  {
    var cols := seq(|t.columns|, j requires 0 <= j < |t.columns| => Renamed(t.columns[j], from, to));
    assert forall c :: c in cols <==> (c in t.columns && c != from) || (c == to && from in t.columns) by {
      forall c ensures c in cols <==> (c in t.columns && c != from) || (c == to && from in t.columns) {
        if c in t.columns && c != from {
          var j :| 0 <= j < |t.columns| && t.columns[j] == c;
          assert cols[j] == c;
        }
        if c == to && from in t.columns {
          var j :| 0 <= j < |t.columns| && t.columns[j] == from;
          assert cols[j] == c;
        }
      }
    }
    assert ColumnSet(cols) == if from in t.columns then ColumnSet(t.columns) - {from} + {to} else ColumnSet(t.columns);
    Table(cols, seq(|t.rows|, i requires 0 <= i < |t.rows| => RenameKey(t.rows[i], from, to)))
  }

  /** One spreadsheet row under the given header, every value as text. */
  function RowOf(header: seq<string>, values: seq<string>): (r: Row)
    requires Distinct(header) && |values| == |header|
    ensures r.Keys == ColumnSet(header)
    ensures forall j :: 0 <= j < |header| ==> r[header[j]] == Text(values[j])
  {
    var r := map j | 0 <= j < |header| :: header[j] := Text(values[j]);
    assert forall c :: c in header ==> exists j :: 0 <= j < |header| && header[j] == c;
    r
  }

  /** pandas' `DataFrame(body, columns=header)` over spreadsheet text. */
  function FromSheet(header: seq<string>, body: seq<seq<string>>): (t: Table)
    requires Distinct(header)
    requires forall i :: 0 <= i < |body| ==> |body[i]| == |header|
    ensures t.Valid() && t.columns == header && |t.rows| == |body|
    ensures forall i, j :: 0 <= i < |body| && 0 <= j < |header| ==> t.rows[i][header[j]] == Text(body[i][j])
  {
    Table(header, seq(|body|, i requires 0 <= i < |body| => RowOf(header, body[i])))
  }

  /** Every cell read from the sheet is text. */
  lemma FromSheetText(header: seq<string>, body: seq<seq<string>>)
    requires Distinct(header)
    requires forall i :: 0 <= i < |body| ==> |body[i]| == |header|
    ensures TextIn(FromSheet(header, body), header)
  {
    var t := FromSheet(header, body);
    forall row: Row, c | row in t.rows && c in header && c in row ensures row[c].Text? {
      var i :| 0 <= i < |t.rows| && t.rows[i] == row;
      var j :| 0 <= j < |header| && header[j] == c;
    }
  }

  /** A header with unique names over body rows of the header's width: what `DataFrame(body, columns=header)` accepts. */
  predicate SheetShaped(header: seq<string>, body: seq<seq<string>>)
  {
    Distinct(header) && forall i :: 0 <= i < |body| ==> |body[i]| == |header|
  }

  /** One row with the cell of `from[j]` moved under `to[j]`, for every position j. */
  function RelabelRow(r: Row, from: seq<string>, to: seq<string>): (r': Row)
    requires |from| == |to| && Distinct(to)
    requires forall j :: 0 <= j < |from| ==> from[j] in r
    ensures r'.Keys == ColumnSet(to)
    ensures forall j :: 0 <= j < |to| ==> r'[to[j]] == r[from[j]]
  {
    var r' := map j | 0 <= j < |to| :: to[j] := r[from[j]];
    assert forall c :: c in to ==> exists j :: 0 <= j < |to| && to[j] == c;
    r'
  }

  /** pandas' `df.columns = names`: the j-th column takes the j-th name, every cell stays where it is. */
  function Relabel(t: Table, names: seq<string>): (r: Table)
    requires t.Valid() && |names| == |t.columns| && Distinct(names)
    ensures r.Valid() && r.columns == names && |r.rows| == |t.rows|
    ensures forall i, j :: 0 <= i < |t.rows| && 0 <= j < |names| ==> r.rows[i][names[j]] == t.rows[i][t.columns[j]]
  {
    assert forall i, j :: 0 <= i < |t.rows| && 0 <= j < |t.columns| ==> t.columns[j] in t.rows[i].Keys;
    Table(names, seq(|t.rows|, i requires 0 <= i < |t.rows| => RelabelRow(t.rows[i], t.columns, names)))
  }

  /** Renaming the columns of a sheet-built table is building it under the new names. */
  lemma RelabelSheet(header: seq<string>, names: seq<string>, body: seq<seq<string>>)
    requires SheetShaped(header, body) && |names| == |header| && Distinct(names)
    ensures Relabel(FromSheet(header, body), names) == FromSheet(names, body)
  {
    var a, b := Relabel(FromSheet(header, body), names), FromSheet(names, body);
    forall i | 0 <= i < |body| ensures a.rows[i] == b.rows[i] {
      forall c | c in a.rows[i] ensures c in b.rows[i] && a.rows[i][c] == b.rows[i][c] {
        var j :| 0 <= j < |names| && names[j] == c;
      }
    }
  }

  /** Every cell of the named columns holds text. */
  predicate TextIn(t: Table, cols: seq<string>)
  {
    forall row: Row, c :: row in t.rows && c in cols && c in row ==> row[c].Text?
  }

  /** A row of a table whose every column is text holds only text. */
  lemma TextRow(t: Table, row: Row)
    requires t.Valid() && TextIn(t, t.columns) && row in t.rows
    ensures forall c :: c in row ==> row[c].Text?
  {
    var i :| 0 <= i < |t.rows| && t.rows[i] == row;
  }

  /** A selection keeps only rows of its input, so text columns stay text. */
  lemma SelectText(t: Table, col: string, v: Cell, cols: seq<string>)
    requires TextIn(t, cols)
    ensures TextIn(Select(t, col, v), cols)
  {
    forall row | row in Select(t, col, v).rows ensures row in t.rows {
      FilterMember(t.rows, Matches(col, v), row);
    }
  }

  // ---------------------------------------------------------------------------
  // Exceptions

  /** The Python exception class that reaches the caller. */
  datatype ExcType = KeyErrorType | ValueErrorType | TypeErrorType | IndexErrorType | SheetsErrorType

  /** Conditions raised directly (the message of the exception). */
  datatype Problem =
    | EmptyInput                        // "Input DataFrame is empty"
    | InvalidNumeric(value: string)     // float() refused a VALOR cell
    | MissingNumeric                    // float() was given the NA of an empty VALOR cell
    | InvalidMode(mode: string)         // user_type neither 'seller' nor 'reseller'
    | NoDataInRange                     // the named range returned nothing
    | EmptyRangeFrame                   // the named range has no body rows
    | MissingRequired(names: set<string>) // required range columns absent
    | InsufficientRows                  // the worksheet has too few rows
    | IndexOutOfRange                   // the worksheet has no header row to index
    | NoCustomerData                    // the customer table has no rows
    | NothingToConcatenate              // pd.concat of no tables
    | NoValidData                       // the concatenated result is empty

  /** The `try` block whose `except` re-raised an error with its own message. */
  datatype Stage =
    | PhoneNumbers          // add_phone_column: "Error processing phone numbers"
    | ValorColumn           // clean_data: "Error processing 'VALOR' column"
    | Filtering             // clean_data: "Error filtering data"
    | Cleaning              // clean_data: "Error cleaning data"
    | ByUserType            // filter_data_by_user_type
    | ByDay                 // filter_data_by_day
    | Processing            // process_data
    | AddingMessage         // add_message_column
    | ByType                // process_data_by_type
    | Sellers               // get_info_of_customers: sellers data
    | CustomerCleaning      // get_info_of_customers: cleaning
    | CustomerFiltering     // get_info_of_customers: filtering by user type
    | CustomerProcessing    // get_info_of_customers: processing by type
    | Combining             // get_info_of_customers: concatenation
    | Unexpected            // get_info_of_customers: outermost handler
    | RangeProcessing       // get_data_by_range_name: ValueError or KeyError
    | RangeUnexpected       // get_data_by_range_name: any other exception
    | LegacyRange           // data.py get_dataframe_by_range_name

  datatype Error =
    | MissingColumns(columns: seq<string>)            // KeyError naming columns
    | Raised(kind: ExcType, problem: Problem)
    | Wrapped(kind: ExcType, stage: Stage, cause: Error)
  {
    /** The class of the exception the caller catches. */
    function Kind(): ExcType
    {
      match this
      case MissingColumns(_) => KeyErrorType
      case Raised(k, _) => k
      case Wrapped(k, _, _) => k
    }
  }

  // ---------------------------------------------------------------------------
  // Python dict

  /** A Python dict: its keys in insertion order and the entry of each. */
  datatype Dict<V> = Dict(keys: seq<Cell>, entries: map<Cell, V>) {
    predicate Valid()
    {
      Distinct(keys) && entries.Keys == set k | k in keys
    }

    /** `d[k] = v`: a new key goes last, an existing key keeps its place. */
    function Put(k: Cell, v: V): (d: Dict<V>)
      ensures Valid() ==> d.Valid()
      ensures d.entries == entries[k := v]
      ensures d.keys == if k in entries then keys else keys + [k]
    {
      Dict(if k in entries then keys else keys + [k], entries[k := v])
    }
  }

  /** Storing twice under one key leaves the dict as storing the second value once. */
  lemma PutTwice<V>(d: Dict<V>, k: Cell, v: V, w: V)
    ensures d.Put(k, v).Put(k, w) == d.Put(k, w)
  {
    assert d.entries[k := v][k := w] == d.entries[k := w];
  }

  function EmptyDict<V>(): (d: Dict<V>)
    ensures d.Valid() && d.keys == []
  {
    Dict([], map[])
  }

  /**
   * A loop over the first `n` keys of `d` that stores `f` of each entry under
   * its key in a fresh dict and stops at the first failure `f` raises.
   */
  function MapPrefix<V, W, E>(d: Dict<V>, n: nat, f: V --> Result<W, E>): (r: Result<Dict<W>, E>)
    requires d.Valid() && n <= |d.keys|
    requires forall k :: k in d.entries ==> f.requires(d.entries[k])
    ensures r.Ok? ==> r.value.Valid() && r.value.keys == d.keys[..n]
  {
    if n == 0 then Ok(EmptyDict())
    else
      match MapPrefix(d, n - 1, f)
      case Err(e) => Err(e)
      case Ok(acc) =>
        var k := d.keys[n - 1];
        assert d.keys[..n] == d.keys[..n - 1] + [k];
        match f(d.entries[k])
        case Err(e) => Err(e)
        case Ok(v) => Ok(acc.Put(k, v))
  }

  /** The `j`-th key is the first whose entry `f` fails on, and it fails with `e`. */
  ghost predicate FailsFirstAt<V, W, E>(d: Dict<V>, f: V --> Result<W, E>, j: nat, e: E)
    requires d.Valid()
    requires forall k :: k in d.entries ==> f.requires(d.entries[k])
  {
    && j < |d.keys|
    && (forall i :: 0 <= i < j ==> f(d.entries[d.keys[i]]).Ok?)
    && f(d.entries[d.keys[j]]).Err? && f(d.entries[d.keys[j]]).error == e
  }

  /** The first `n` keys succeed exactly when each of their entries does. */
  lemma {:induction false} MapPrefixOk<V, W, E>(d: Dict<V>, n: nat, f: V --> Result<W, E>)
    requires d.Valid() && n <= |d.keys|
    requires forall k :: k in d.entries ==> f.requires(d.entries[k])
    ensures MapPrefix(d, n, f).Ok? <==> forall i :: 0 <= i < n ==> f(d.entries[d.keys[i]]).Ok?
  {
    if n > 0 {
      MapPrefixOk(d, n - 1, f);
      assert d.keys[n - 1] in d.entries;
    }
  }

  /** The whole dict maps successfully exactly when `f` succeeds on every entry. */
  lemma MapPrefixAllOk<V, W, E>(d: Dict<V>, f: V --> Result<W, E>)
    requires d.Valid()
    requires forall k :: k in d.entries ==> f.requires(d.entries[k])
    ensures MapPrefix(d, |d.keys|, f).Ok? <==> forall k :: k in d.entries ==> f(d.entries[k]).Ok?
  {
    MapPrefixOk(d, |d.keys|, f);
    forall k | k in d.entries ensures exists i :: 0 <= i < |d.keys| && d.keys[i] == k {
      assert k in d.keys;
    }
  }

  /** On success each of the first `n` keys is mapped to `f` of its entry. */
  lemma {:induction false} MapPrefixEntries<V, W, E>(d: Dict<V>, n: nat, f: V --> Result<W, E>)
    requires d.Valid() && n <= |d.keys|
    requires forall k :: k in d.entries ==> f.requires(d.entries[k])
    requires MapPrefix(d, n, f).Ok?
    ensures forall k :: k in MapPrefix(d, n, f).value.entries ==>
      k in d.entries && f(d.entries[k]).Ok? && MapPrefix(d, n, f).value.entries[k] == f(d.entries[k]).value
  {
    if n > 0 {
      MapPrefixEntries(d, n - 1, f);
      assert d.keys[n - 1] in d.entries;
    }
  }

  /** On failure the error is that of the first key whose entry fails. */
  lemma {:induction false} MapPrefixFirstFailure<V, W, E>(d: Dict<V>, n: nat, f: V --> Result<W, E>)
    requires d.Valid() && n <= |d.keys|
    requires forall k :: k in d.entries ==> f.requires(d.entries[k])
    requires MapPrefix(d, n, f).Err?
    ensures exists j: nat :: j < n && FailsFirstAt(d, f, j, MapPrefix(d, n, f).error)
  {
    var k := d.keys[n - 1];
    assert k in d.entries;
    var prev := MapPrefix(d, n - 1, f);
    if prev.Err? {
      MapPrefixFirstFailure(d, n - 1, f);
      var j: nat :| j < n - 1 && FailsFirstAt(d, f, j, prev.error);
      assert MapPrefix(d, n, f) == prev;
    } else {
      MapPrefixOk(d, n - 1, f);
      assert FailsFirstAt(d, f, n - 1, MapPrefix(d, n, f).error);
    }
  }

  /** Once a prefix fails, every longer prefix fails with the same error. */
  lemma {:induction false} MapPrefixErrPropagates<V, W, E>(d: Dict<V>, n: nat, m: nat, f: V --> Result<W, E>)
    requires d.Valid() && n <= m <= |d.keys|
    requires forall k :: k in d.entries ==> f.requires(d.entries[k])
    requires MapPrefix(d, n, f).Err?
    ensures MapPrefix(d, m, f) == MapPrefix(d, n, f)
    decreases m
  {
    if m > n {
      MapPrefixErrPropagates(d, n, m - 1, f);
    }
  }

  /**
   * One more key of the loop of a dict comprehension that raises: a failing
   * step fails the whole loop with its error, a successful one stores its
   * result under the key.
   */
  lemma MapPrefixStep<V, W, E>(d: Dict<V>, i: nat, f: V --> Result<W, E>, acc: Dict<W>, v: Result<W, E>)
    requires d.Valid() && i < |d.keys|
    requires forall k :: k in d.entries ==> f.requires(d.entries[k])
    requires MapPrefix(d, i, f) == Ok(acc) && d.keys[i] in d.entries && v == f(d.entries[d.keys[i]])
    ensures v.Err? ==> MapPrefix(d, |d.keys|, f) == Err(v.error)
    ensures v.Ok? ==> MapPrefix(d, i + 1, f) == Ok(acc.Put(d.keys[i], v.value))
  {
    if v.Err? {
      MapPrefixErrPropagates(d, i + 1, |d.keys|, f);
    }
  }

  // ---------------------------------------------------------------------------
  // A DataFrame object whose columns are assigned in place

  class Frame {
    var columns: seq<string>
    var rows: seq<Row>

    /** The table this frame currently holds. */
    function View(): Table
      reads this
    {
      Table(columns, rows)
    }

    constructor (t: Table)
      ensures View() == t
    {
      columns := t.columns;
      rows := t.rows;
    }

    /** `df[name] = values`. */
    method Assign(name: string, values: seq<Cell>)
      requires |values| == |rows|
      modifies this
      ensures View() == SetColumn(old(View()), name, values)
    {
      var t := SetColumn(View(), name, values);
      columns, rows := t.columns, t.rows;
    }

    /** `df.columns = names`. */
    method Rename(names: seq<string>)
      requires View().Valid() && |names| == |columns| && Distinct(names)
      modifies this
      ensures View() == Relabel(old(View()), names)
    {
      var t := Relabel(View(), names);
      columns, rows := t.columns, t.rows;
    }
  }
}
