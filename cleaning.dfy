/**
 * The cleaner of modules/data_cleaning.py: checks, projection onto the desired
 * columns, phone composition, renaming, the VALOR and CORTE conversions and the
 * keep-filter "VALOR > 0 and not CORTE".
 */
module Cleaning {
  import opened Wrappers
  import opened Seqs
  import opened Text
  import opened Tables
  import opened Phone

  /** The columns the customer sheet is cleaned to (config/settings.py). */
  const DesiredColumns: seq<string> :=
    ["WSP", "PLAT.", "CORTE", "CLIENTE", "PANTALLA", "INDICATIVO", "CONTACTO", "VALOR", "DIAS"]

  /** The renames WSP -> VENDEDOR and PLAT. -> PLATAFORMA never collide with a kept column. */
  predicate RenameSafe(desired: seq<string>)
  {
    !("WSP" in desired && "VENDEDOR" in desired) && !("PLAT." in desired && "PLATAFORMA" in desired)
  }

  // ---------------------------------------------------------------------------
  // Cell conversions

  /**
   * A VALOR cell as the conversion of lines 43-46 means to read it: None for
   * the empty cell (NA, later dropped by the filter), the number once every '$'
   * is removed, or the text that `float` refuses (Python's `float` ignores
   * surrounding whitespace). How the code as written treats the empty cell is
   * `AmountAsWritten` below.
   */
  function AmountOf(c: Cell): Result<Option<Decimal>, string>
  {
    if c == Text("") then Ok(None)
    else
      var s := RemoveAll(TextOf(c), '$');
      match ParseDecimal(Strip(s))
      case None => Err(s)
      case Some(d) => Ok(Some(d))
  }

  /** `VALOR > 0`; NA compares false. */
  predicate PositiveAmount(c: Cell)
  {
    var a := AmountOf(c);
    a.Ok? && a.value.Some? && a.value.value.Positive()
  }

  /**
   * The position of the first VALOR cell `float` refuses; the length of the
   * column when every cell converts.
   */
  function FirstBadAmount(cells: seq<Cell>): (k: nat)
    ensures k <= |cells|
    ensures forall j :: 0 <= j < k ==> AmountOf(cells[j]).Ok?
    ensures k < |cells| ==> AmountOf(cells[k]).Err?
  {
    if cells == [] then 0
    else if AmountOf(cells[0]).Err? then 0
    else 1 + FirstBadAmount(cells[1..])
  }

  /**
   * CORTE after the empty cell becomes NA, the mapping {TRUE: True, FALSE: False,
   * NA: False} and `astype(bool)`: a value the mapping does not know becomes NaN,
   * which is truthy, so only FALSE and the empty cell mean "not cut".
   */
  predicate CutOf(c: Cell)
  {
    !(c == Text("FALSE") || c == Text(""))
  }

  // ---------------------------------------------------------------------------
  // The stages

  /** Projection onto the desired columns and the phone step. */
  function Phoned(t: Table, desired: seq<string>): (r: Result<Table, Error>)
    requires t.Valid() && Distinct(desired)
    requires forall c :: c in desired ==> c in t.columns
    ensures r.Ok? <==> "INDICATIVO" in desired && "CONTACTO" in desired
    ensures r.Ok? ==> r.value.Valid() && |r.value.rows| == |t.rows|
    ensures r.Ok? ==> forall c :: c in r.value.columns <==> (c in desired || c == "TELEFONO") && c !in Sources
  {
    var p := Project(t, desired);
    match ComposePhone(p)
    case Err(e) => Err(e)
    case Ok(q) =>
      PhonedColumns(p);
      Ok(q)
  }

  /** After the phone step a column is present exactly when it was desired (or is TELEFONO) and is not a phone source. */
  lemma PhonedColumns(p: Table)
    requires p.Valid() && HasSources(p)
    ensures forall c :: c in ComposePhone(p).value.columns <==> (c in p.columns || c == "TELEFONO") && c !in Sources
  {
    PhoneColumns(p);
    forall c ensures c in ComposePhone(p).value.columns <==> (c in p.columns || c == "TELEFONO") && c !in Sources {
      FilterMember(p.columns, NotIn(Sources), c);
    }
  }

  /** `rename(columns={'WSP': 'VENDEDOR', 'PLAT.': 'PLATAFORMA'})`, when neither new name is taken. */
  function ApplyColumnMapping(q: Table): (r: Table)
    requires q.Valid()
    requires !("WSP" in q.columns && "VENDEDOR" in q.columns) && !("PLAT." in q.columns && "PLATAFORMA" in q.columns)
    ensures r.Valid() && |r.rows| == |q.rows|
    ensures forall c :: c !in ["WSP", "PLAT.", "VENDEDOR", "PLATAFORMA"] ==> (c in r.columns <==> c in q.columns)
  {
    var v := RenameColumn(q, "WSP", "VENDEDOR");
    RenameColumn(v, "PLAT.", "PLATAFORMA")
  }

  /** Projection onto the desired columns, the phone column and the renames. */
  function Shape(t: Table, desired: seq<string>): (r: Result<Table, Error>)
    requires t.Valid() && Distinct(desired) && RenameSafe(desired)
    requires forall c :: c in desired ==> c in t.columns
    ensures r.Ok? <==> "INDICATIVO" in desired && "CONTACTO" in desired
    ensures r.Err? ==> r.error.Kind() == KeyErrorType
    ensures r.Ok? ==> r.value.Valid() && |r.value.rows| == |t.rows|
    ensures r.Ok? ==> ("VALOR" in r.value.columns <==> "VALOR" in desired) && ("CORTE" in r.value.columns <==> "CORTE" in desired)
  {
    match Phoned(t, desired)
    case Err(e) => Err(e)
    case Ok(q) =>
      MappingKeeps(q, desired);
      Ok(ApplyColumnMapping(q))
  }

  /** The renames leave VALOR and CORTE alone, and are safe after the phone step. */
  lemma MappingKeeps(q: Table, desired: seq<string>)
    requires q.Valid() && RenameSafe(desired)
    requires forall c :: c in q.columns <==> (c in desired || c == "TELEFONO") && c !in Sources
    ensures !("WSP" in q.columns && "VENDEDOR" in q.columns) && !("PLAT." in q.columns && "PLATAFORMA" in q.columns)
    ensures var r := ApplyColumnMapping(q);
      ("VALOR" in r.columns <==> "VALOR" in desired) && ("CORTE" in r.columns <==> "CORTE" in desired)
  {
    NamesApart();
  }

  /** The literal facts the renames need. */
  lemma NamesApart()
    ensures "VENDEDOR" != "TELEFONO" && "PLATAFORMA" != "TELEFONO"
    ensures "VALOR" !in ["WSP", "PLAT.", "VENDEDOR", "PLATAFORMA"] && "CORTE" !in ["WSP", "PLAT.", "VENDEDOR", "PLATAFORMA"]
    ensures "VALOR" != "TELEFONO" && "CORTE" != "TELEFONO" && "VALOR" !in Sources && "CORTE" !in Sources
  {
  }

  /** The CORTE conversion, when the column exists. */
  function WithCut(n: Table): (r: Table)
    requires n.Valid()
    ensures r.Valid() && r.columns == n.columns && |r.rows| == |n.rows|
  {
    if "CORTE" in n.columns then
      SetColumn(n, "CORTE", seq(|n.rows|, i requires 0 <= i < |n.rows| => Flag(CutOf(n.rows[i]["CORTE"]))))
    else n
  }

  /** The keep-mask on a converted row: a positive amount and CORTE false. */
  predicate Keep(r: Row)
  {
    "VALOR" in r && "CORTE" in r && PositiveAmount(r["VALOR"]) && r["CORTE"] == Flag(false)
  }

  /** `df[(df['VALOR'] > 0) & (~df['CORTE'])].drop(columns=['VALOR'])`. */
  function KeepFilter(c: Table): (r: Result<Table, Error>)
    requires c.Valid()
    ensures r.Ok? <==> "VALOR" in c.columns && "CORTE" in c.columns
    ensures r.Ok? ==> r.value.Valid() && "VALOR" !in r.value.columns && "CORTE" in r.value.columns
    ensures r.Ok? ==> forall i :: 0 <= i < |r.value.rows| ==> r.value.rows[i]["CORTE"] == Flag(false)
    ensures r.Err? ==> r.error.Kind() == KeyErrorType
  {
    if "VALOR" !in c.columns then Err(MissingColumns(["VALOR"]))
    else if "CORTE" !in c.columns then Err(MissingColumns(["CORTE"]))
    else
      var w := Where(c, Keep);
      FilterElements(c.rows, Keep);
      var r := DropColumns(w, ["VALOR"]);
      FilterMember(c.columns, NotIn(["VALOR"]), "CORTE");
      FilterMember(c.columns, NotIn(["VALOR"]), "VALOR");
      Ok(r)
  }

  /**
   * Lines 41-64 on the shaped table: the VALOR conversion (a refused value is a
   * ValueError naming it), the CORTE conversion and the keep-filter (a missing
   * VALOR or CORTE column is a KeyError, re-raised as ValueError).
   */
  function ConvertAndFilter(n: Table): (r: Result<Table, Error>)
    requires n.Valid()
    ensures r.Ok? <==>
      "VALOR" in n.columns && "CORTE" in n.columns && forall i :: 0 <= i < |n.rows| ==> AmountOf(n.rows[i]["VALOR"]).Ok?
    ensures r.Err? ==> r.error.Wrapped?
    ensures r.Err? ==> (r.error.stage == ValorColumn <==>
      "VALOR" in n.columns && exists i :: 0 <= i < |n.rows| && AmountOf(n.rows[i]["VALOR"]).Err?)
    ensures r.Ok? ==> r.value.Valid() && "VALOR" !in r.value.columns && "CORTE" in r.value.columns
    ensures r.Ok? ==> forall i :: 0 <= i < |r.value.rows| ==> r.value.rows[i]["CORTE"] == Flag(false)
    ensures r.Err? ==> r.error.Kind() == ValueErrorType
  {
    var amounts := if "VALOR" in n.columns then Column(n, "VALOR") else [];
    var bad := FirstBadAmount(amounts);
    if bad < |amounts| then
      Err(Wrapped(ValueErrorType, ValorColumn, Raised(ValueErrorType, InvalidNumeric(AmountOf(amounts[bad]).error))))
    else match KeepFilter(WithCut(n))
      case Err(e) => Err(Wrapped(ValueErrorType, Filtering, e))
      case Ok(k) => Ok(k)
  }

  /**
   * `clean_data(df, desired)`. An empty table is refused first, then missing
   * desired columns (KeyError); every later failure is re-raised as ValueError.
   */
  function Clean(t: Table, desired: seq<string>): (r: Result<Table, Error>)
    requires t.Valid() && Distinct(desired) && RenameSafe(desired)
    ensures t.Empty() ==> r == Err(Raised(ValueErrorType, EmptyInput))
    ensures !t.Empty() && MissingOf(desired, t.columns) != [] ==> r == Err(MissingColumns(MissingOf(desired, t.columns)))
    ensures r.Ok? ==> r.value.Valid() && "VALOR" !in r.value.columns && "CORTE" in r.value.columns
    ensures r.Ok? ==> forall i :: 0 <= i < |r.value.rows| ==> r.value.rows[i]["CORTE"] == Flag(false)
    ensures r.Err? ==> (r.error.Kind() == KeyErrorType <==> !t.Empty() && MissingOf(desired, t.columns) != [])
    ensures r.Err? ==> r.error.Kind() != SheetsErrorType
  {
    if t.Empty() then Err(Raised(ValueErrorType, EmptyInput))
    else
      var missing := MissingOf(desired, t.columns);
      if missing != [] then Err(MissingColumns(missing))
      else ShapeAndConvert(t, desired)
  }

  /** The steps of `clean_data` inside its `try`, every failure re-raised as a ValueError. */
  function ShapeAndConvert(t: Table, desired: seq<string>): (r: Result<Table, Error>)
    requires t.Valid() && Distinct(desired) && RenameSafe(desired) && MissingOf(desired, t.columns) == []
    ensures r.Ok? ==> r.value.Valid() && "VALOR" !in r.value.columns && "CORTE" in r.value.columns
    ensures r.Ok? ==> forall i :: 0 <= i < |r.value.rows| ==> r.value.rows[i]["CORTE"] == Flag(false)
    ensures r.Err? ==> r.error.Wrapped? && r.error.kind == ValueErrorType && r.error.stage == Cleaning
  {
    match Shape(t, desired)
    case Err(e) => Err(Wrapped(ValueErrorType, Cleaning, e))
    case Ok(n) =>
      match ConvertAndFilter(n)
      case Err(e) => Err(Wrapped(ValueErrorType, Cleaning, e))
      case Ok(k) => Ok(k)
  }

  // ---------------------------------------------------------------------------
  // A row-wise reference for the cleaner

  /** The raw row holds every desired column and the desired list holds both phone sources. */
  predicate Covers(row: Row, desired: seq<string>)
  {
    (forall c :: c in desired ==> c in row) && "INDICATIVO" in desired && "CONTACTO" in desired
  }

  /** One row projected onto `cols`. */
  function ProjectRow(row: Row, cols: seq<string>): (r: Row)
    requires forall c :: c in cols ==> c in row
    ensures r.Keys == ColumnSet(cols) && forall c :: c in cols ==> r[c] == row[c]
  {
    map c | c in cols :: row[c]
  }

  /** One row given its TELEFONO and stripped of the phone sources. */
  function PhoneRow(p: Row): (r: Row)
    requires "INDICATIVO" in p && "CONTACTO" in p
    ensures r.Keys == p.Keys + {"TELEFONO"} - ColumnSet(Sources)
    ensures r["TELEFONO"] == Text(PhoneOf(p))
  {
    p["TELEFONO" := Text(PhoneOf(p))] - ColumnSet(Sources)
  }

  /** One row with its CORTE cell converted. */
  function CutRow(n: Row): (r: Row)
    ensures r.Keys == n.Keys
    ensures "CORTE" in n ==> r["CORTE"] == Flag(CutOf(n["CORTE"]))
  {
    if "CORTE" in n then n["CORTE" := Flag(CutOf(n["CORTE"]))] else n
  }

  /** One raw row through projection, phone, renames and the CORTE conversion. */
  function ShapedRow(row: Row, desired: seq<string>): Row
    requires Covers(row, desired)
  {
    var q := PhoneRow(ProjectRow(row, desired));
    CutRow(RenameKey(RenameKey(q, "WSP", "VENDEDOR"), "PLAT.", "PLATAFORMA"))
  }

  /** What a surviving raw row becomes in the output. */
  function CleanedRow(row: Row, desired: seq<string>): Row
    requires Covers(row, desired)
  {
    ShapedRow(row, desired) - ColumnSet(["VALOR"])
  }

  /** The cleaner writes text wherever the raw row holds text, except in the converted CORTE flag. */
  lemma CleanedRowKeepsText(row: Row, desired: seq<string>)
    requires Covers(row, desired) && forall c :: c in row ==> row[c].Text?
    ensures forall c :: c in CleanedRow(row, desired) && c != "CORTE" ==> CleanedRow(row, desired)[c].Text?
  {
    var p := ProjectRow(row, desired);
    assert forall c :: c in p ==> p[c].Text?;
    var q := PhoneRow(p);
    assert forall c :: c in q ==> q[c].Text?;
    var named := RenameKey(RenameKey(q, "WSP", "VENDEDOR"), "PLAT.", "PLATAFORMA");
    assert forall c :: c in named ==> named[c].Text?;
  }

  /** The keep decision taken on the raw row: its VALOR is positive and its CORTE is FALSE or empty. */
  predicate KeepRaw(row: Row)
  {
    "VALOR" in row && "CORTE" in row && PositiveAmount(row["VALOR"]) && !CutOf(row["CORTE"])
  }

  /** The shaped table's rows are the raw rows shaped one by one. */
  lemma ShapeRows(t: Table, desired: seq<string>)
    requires t.Valid() && Distinct(desired) && RenameSafe(desired)
    requires forall c :: c in desired ==> c in t.columns
    requires Shape(t, desired).Ok?
    ensures var c := WithCut(Shape(t, desired).value);
      forall i :: 0 <= i < |t.rows| ==> Covers(t.rows[i], desired) && c.rows[i] == ShapedRow(t.rows[i], desired)
  {
    var p := Project(t, desired);
    var q := ComposePhone(p).value;
    var w := WithPhone(p);
    var v := RenameColumn(q, "WSP", "VENDEDOR");
    var n := Shape(t, desired).value;
    var c := WithCut(n);
    forall i | 0 <= i < |t.rows|
      ensures Covers(t.rows[i], desired) && c.rows[i] == ShapedRow(t.rows[i], desired)
    {
      var row := t.rows[i];
      var pr := ProjectRow(row, desired);
      assert p.rows[i] == pr;
      assert w.rows[i] == pr["TELEFONO" := Text(PhoneOf(pr))];
      var qr := PhoneRow(pr);
      assert q.rows[i] == qr;
      var nr := RenameKey(RenameKey(qr, "WSP", "VENDEDOR"), "PLAT.", "PLATAFORMA");
      assert n.rows[i] == nr;
      assert "CORTE" in n.columns <==> "CORTE" in nr;
    }
  }

  /**
   * The cleaner is a row-wise, order-preserving selection: the output rows are
   * exactly the raw rows whose VALOR is positive and whose CORTE is not cut, in
   * input order, each reshaped by `CleanedRow`.
   */
  lemma CleanRows(t: Table, desired: seq<string>)
    requires t.Valid() && Distinct(desired) && RenameSafe(desired) && Clean(t, desired).Ok?
    ensures forall i :: 0 <= i < |t.rows| ==> Covers(t.rows[i], desired)
    ensures var rows := Clean(t, desired).value.rows;
      && |rows| == |Filter(t.rows, KeepRaw)|
      && forall k :: 0 <= k < |rows| ==>
           Covers(Filter(t.rows, KeepRaw)[k], desired) && rows[k] == CleanedRow(Filter(t.rows, KeepRaw)[k], desired)
  {
    var n := Shape(t, desired).value;
    var c := WithCut(n);
    var rows, raw, kept := Clean(t, desired).value.rows, Filter(t.rows, KeepRaw), Filter(c.rows, Keep);
    assert "VALOR" in desired && "CORTE" in desired && ConvertAndFilter(n).Ok?;
    assert |rows| == |kept| && forall k :: 0 <= k < |rows| ==> rows[k] == kept[k] - ColumnSet(["VALOR"]) by {
      CleanStages(t, desired);
      ConvertRows(n);
    }
    assert forall i :: 0 <= i < |t.rows| ==> Covers(t.rows[i], desired) && c.rows[i] == ShapedRow(t.rows[i], desired) by {
      ShapeRows(t, desired);
    }
    var rel := (raw: Row, shaped: Row) => Covers(raw, desired) && shaped == ShapedRow(raw, desired);
    var s, u := t.rows, c.rows;
    assert |s| == |u|;
    forall i | 0 <= i < |s| ensures rel(s[i], u[i]) && Keep(u[i]) == KeepRaw(s[i]) {
      KeepShaped(s[i], desired);
    }
    FilterAligned(s, u, KeepRaw, Keep, rel);
    forall k | 0 <= k < |rows|
      ensures Covers(raw[k], desired) && rows[k] == CleanedRow(raw[k], desired)
    {
      assert rel(raw[k], kept[k]);
    }
  }

  /** A successful clean went through every stage. */
  lemma CleanStages(t: Table, desired: seq<string>)
    requires t.Valid() && Distinct(desired) && RenameSafe(desired) && Clean(t, desired).Ok?
    ensures !t.Empty() && forall c :: c in desired ==> c in t.columns
    ensures Shape(t, desired).Ok? && ConvertAndFilter(Shape(t, desired).value).Ok?
    ensures Clean(t, desired) == ConvertAndFilter(Shape(t, desired).value)
  {
  }

  /** The rows that leave the conversion stage are the kept converted rows without VALOR. */
  lemma ConvertRows(n: Table)
    requires n.Valid() && ConvertAndFilter(n).Ok?
    ensures var rows := ConvertAndFilter(n).value.rows;
      var kept := Filter(WithCut(n).rows, Keep);
      |rows| == |kept| && forall k :: 0 <= k < |rows| ==> rows[k] == kept[k] - ColumnSet(["VALOR"])
  {
    assert KeepFilter(WithCut(n)).Ok?;
  }

  /** The conversion stage keeps the column order and drops VALOR. */
  lemma ConvertColumns(n: Table)
    requires n.Valid() && ConvertAndFilter(n).Ok?
    ensures ConvertAndFilter(n).value.columns == Filter(n.columns, NotIn(["VALOR"]))
  {
    assert KeepFilter(WithCut(n)).Ok?;
  }

  /** The keep-mask on a shaped row is the keep decision on the raw row. */
  lemma KeepShaped(row: Row, desired: seq<string>)
    requires Covers(row, desired) && "VALOR" in desired && "CORTE" in desired
    ensures Keep(ShapedRow(row, desired)) == KeepRaw(row)
  {
    var q := PhoneRow(ProjectRow(row, desired));
    assert q["VALOR"] == row["VALOR"] && q["CORTE"] == row["CORTE"];
    var n := RenameKey(RenameKey(q, "WSP", "VENDEDOR"), "PLAT.", "PLATAFORMA");
    assert n["VALOR"] == row["VALOR"] && n["CORTE"] == row["CORTE"];
  }

  /** Survival in terms of the raw text, when every amount converts. */
  lemma KeepRawText(row: Row)
    requires "VALOR" in row && "CORTE" in row && AmountOf(row["VALOR"]).Ok?
    ensures var s := Strip(RemoveAll(TextOf(row["VALOR"]), '$'));
      KeepRaw(row) <==>
        && row["VALOR"] != Text("") && s != [] && s[0] != '-' && HasNonZeroDigit(s)
        && (row["CORTE"] == Text("FALSE") || row["CORTE"] == Text(""))
  {
    if row["VALOR"] != Text("") {
      ParsedPositive(Strip(RemoveAll(TextOf(row["VALOR"]), '$')));
    }
  }

  // ---------------------------------------------------------------------------
  // The customer sheet's columns

  /** The cleaned customer table has exactly these columns, in this order. */
  const CleanedColumns: seq<string> := ["VENDEDOR", "PLATAFORMA", "CORTE", "CLIENTE", "PANTALLA", "DIAS", "TELEFONO"]

  /** The desired customer columns without the phone sources. */
  lemma DesiredWithoutSources(desired: seq<string>)
    requires desired == DesiredColumns
    ensures Filter(desired, NotIn(Sources)) == ["WSP", "PLAT.", "CORTE", "CLIENTE", "PANTALLA", "VALOR", "DIAS"]
  {
    var front, back := ["WSP", "PLAT.", "CORTE", "CLIENTE", "PANTALLA"], ["VALOR", "DIAS"];
    DesiredAroundSources(desired, front, back);
    FilterDropsMiddle(front, Sources, back, NotIn(Sources));
  }

  /** The phone sources sit in the middle of the desired columns, and nowhere else. */
  lemma DesiredAroundSources(desired: seq<string>, front: seq<string>, back: seq<string>)
    requires desired == DesiredColumns
    requires front == ["WSP", "PLAT.", "CORTE", "CLIENTE", "PANTALLA"] && back == ["VALOR", "DIAS"]
    ensures desired == front + Sources + back
    ensures front + back == ["WSP", "PLAT.", "CORTE", "CLIENTE", "PANTALLA", "VALOR", "DIAS"]
    ensures forall i :: 0 <= i < |front| ==> NotIn(Sources)(front[i])
    ensures forall i :: 0 <= i < |Sources| ==> !NotIn(Sources)(Sources[i])
    ensures forall i :: 0 <= i < |back| ==> NotIn(Sources)(back[i])
  {
  }

  /** Facts about the desired customer column names. */
  lemma DesiredNames(desired: seq<string>)
    requires desired == DesiredColumns
    ensures Distinct(desired) && RenameSafe(desired)
    ensures "INDICATIVO" in desired && "CONTACTO" in desired && "VALOR" in desired && "CORTE" in desired
    ensures "TELEFONO" !in desired
  {
  }

  /** The customer columns after the phone step. */
  lemma PhoneColumnsDesired(p: Table, desired: seq<string>)
    requires desired == DesiredColumns
    requires p.Valid() && p.columns == desired
    ensures HasSources(p)
    ensures ComposePhone(p).value.columns == ["WSP", "PLAT.", "CORTE", "CLIENTE", "PANTALLA", "VALOR", "DIAS", "TELEFONO"]
  {
    DesiredNames(desired);
    PhoneColumns(p);
    DesiredWithoutSources(desired);
    TelefonoLast();
  }

  lemma TelefonoLast()
    ensures ["WSP", "PLAT.", "CORTE", "CLIENTE", "PANTALLA", "VALOR", "DIAS"] + ["TELEFONO"]
      == ["WSP", "PLAT.", "CORTE", "CLIENTE", "PANTALLA", "VALOR", "DIAS", "TELEFONO"]
  {
  }

  /** WSP -> VENDEDOR on the customer columns. */
  lemma RenameSellerColumns(q: Table)
    requires q.Valid() && q.columns == ["WSP", "PLAT.", "CORTE", "CLIENTE", "PANTALLA", "VALOR", "DIAS", "TELEFONO"]
    ensures RenameColumn(q, "WSP", "VENDEDOR").columns ==
      ["VENDEDOR", "PLAT.", "CORTE", "CLIENTE", "PANTALLA", "VALOR", "DIAS", "TELEFONO"]
  {
  }

  /** PLAT. -> PLATAFORMA on the customer columns. */
  lemma RenamePlatformColumns(v: Table)
    requires v.Valid() && v.columns == ["VENDEDOR", "PLAT.", "CORTE", "CLIENTE", "PANTALLA", "VALOR", "DIAS", "TELEFONO"]
    ensures RenameColumn(v, "PLAT.", "PLATAFORMA").columns ==
      ["VENDEDOR", "PLATAFORMA", "CORTE", "CLIENTE", "PANTALLA", "VALOR", "DIAS", "TELEFONO"]
  {
  }

  /** The column mapping on the customer columns. */
  lemma MappingColumnsDesired(q: Table)
    requires q.Valid() && q.columns == ["WSP", "PLAT.", "CORTE", "CLIENTE", "PANTALLA", "VALOR", "DIAS", "TELEFONO"]
    ensures ApplyColumnMapping(q).columns ==
      ["VENDEDOR", "PLATAFORMA", "CORTE", "CLIENTE", "PANTALLA", "VALOR", "DIAS", "TELEFONO"]
  {
    RenameSellerColumns(q);
    RenamePlatformColumns(RenameColumn(q, "WSP", "VENDEDOR"));
  }

  /** The shaped customer columns, before VALOR is dropped. */
  lemma ShapeColumnsDesired(t: Table, desired: seq<string>)
    requires desired == DesiredColumns
    requires t.Valid() && forall c :: c in desired ==> c in t.columns
    ensures Distinct(desired) && RenameSafe(desired)
    ensures Shape(t, desired).Ok?
    ensures Shape(t, desired).value.columns ==
      ["VENDEDOR", "PLATAFORMA", "CORTE", "CLIENTE", "PANTALLA", "VALOR", "DIAS", "TELEFONO"]
  {
    DesiredNames(desired);
    PhoneColumnsDesired(Project(t, desired), desired);
    MappingColumnsDesired(Phoned(t, desired).value);
  }

  /** The cleaned customer columns: those shaped, without VALOR. */
  lemma ShapedWithoutValor(cols: seq<string>)
    requires cols == ["VENDEDOR", "PLATAFORMA", "CORTE", "CLIENTE", "PANTALLA", "VALOR", "DIAS", "TELEFONO"]
    ensures Filter(cols, NotIn(["VALOR"])) == CleanedColumns
  {
    var front, back := ["VENDEDOR", "PLATAFORMA", "CORTE", "CLIENTE", "PANTALLA"], ["DIAS", "TELEFONO"];
    assert cols == front + ["VALOR"] + back;
    FilterDropsMiddle(front, ["VALOR"], back, NotIn(["VALOR"]));
  }

  /**
   * Cleaning to the customer columns keeps them in their listed order, without
   * INDICATIVO, CONTACTO and VALOR, with WSP and PLAT. renamed and TELEFONO last.
   */
  lemma CleanColumnsDesired(t: Table, desired: seq<string>)
    requires desired == DesiredColumns
    requires t.Valid() && Clean(t, desired).Ok?
    ensures Clean(t, desired).value.columns == CleanedColumns
  {
    DesiredNames(desired);
    CleanStages(t, desired);
    var n := Shape(t, desired).value;
    ShapeColumnsDesired(t, desired);
    ShapedWithoutValor(n.columns);
    ConvertColumns(n);
  }

  /** The projection of a raw customer row, cell by cell. */
  lemma ProjectDesiredRow(row: Row)
    requires CustomerRow(row)
    ensures Covers(row, DesiredColumns)
    ensures ProjectRow(row, DesiredColumns) == map[
      "CLIENTE" := row["CLIENTE"], "PANTALLA" := row["PANTALLA"], "DIAS" := row["DIAS"], "VALOR" := row["VALOR"],
      "CORTE" := row["CORTE"], "PLAT." := row["PLAT."], "WSP" := row["WSP"],
      "INDICATIVO" := row["INDICATIVO"], "CONTACTO" := row["CONTACTO"]]
  {
  }

  /** The phone step on a row whose phone sources were added last. */
  lemma PhoneAdded(m: Row, i: Cell, co: Cell)
    requires "INDICATIVO" !in m && "CONTACTO" !in m
    ensures PhoneRow(m["INDICATIVO" := i]["CONTACTO" := co]) == m["TELEFONO" := Text(TextOf(i) + " " + TextOf(co))]
  {
    assert ColumnSet(Sources) == {"INDICATIVO", "CONTACTO"};
  }

  /** The column mapping on a row whose WSP and PLAT. cells were added last. */
  lemma MappingRow(b: Row, va: Cell, c: Cell, p: Cell, w: Cell)
    requires "WSP" !in b && "PLAT." !in b
    ensures RenameKey(RenameKey(b["VALOR" := va]["CORTE" := c]["PLAT." := p]["WSP" := w], "WSP", "VENDEDOR"), "PLAT.", "PLATAFORMA")
      == b["VALOR" := va]["CORTE" := c]["VENDEDOR" := w]["PLATAFORMA" := p]
  {
    var m := b["VALOR" := va]["CORTE" := c];
    RenameLast(m["PLAT." := p], "WSP", "VENDEDOR", w);
    SwapLast(m, "PLAT.", p, "VENDEDOR", w);
    RenameLast(m["VENDEDOR" := w], "PLAT.", "PLATAFORMA", p);
  }

  /** The CORTE conversion on a renamed row. */
  lemma CutRenamedRow(b: Row, va: Cell, c: Cell, w: Cell, p: Cell)
    ensures CutRow(b["VALOR" := va]["CORTE" := c]["VENDEDOR" := w]["PLATAFORMA" := p])
      == b["VALOR" := va]["VENDEDOR" := w]["PLATAFORMA" := p]["CORTE" := Flag(CutOf(c))]
  {
    var n := b["VALOR" := va]["CORTE" := c]["VENDEDOR" := w]["PLATAFORMA" := p];
    assert n["CORTE"] == c;
    Overwrite(b["VALOR" := va], "CORTE", c, "VENDEDOR", w, "PLATAFORMA", p, Flag(CutOf(c)));
  }

  /** Dropping VALOR from a converted customer row. */
  lemma DropValorRow(cl: Cell, pa: Cell, di: Cell, te: Cell, va: Cell, w: Cell, p: Cell, f: Cell)
    ensures map["CLIENTE" := cl, "PANTALLA" := pa, "DIAS" := di, "TELEFONO" := te,
                "VALOR" := va, "VENDEDOR" := w, "PLATAFORMA" := p, "CORTE" := f] - ColumnSet(["VALOR"])
      == map["CLIENTE" := cl, "PANTALLA" := pa, "DIAS" := di, "TELEFONO" := te,
             "VENDEDOR" := w, "PLATAFORMA" := p, "CORTE" := f]
  {
    var b := map["CLIENTE" := cl, "PANTALLA" := pa, "DIAS" := di, "TELEFONO" := te];
    RemoveAdded(b, "VALOR", va, "VENDEDOR", w, "PLATAFORMA", p, "CORTE", f);
    assert ColumnSet(["VALOR"]) == {"VALOR"};
  }

  /** A raw row holding each customer column. */
  predicate CustomerRow(row: Row)
  {
    && "WSP" in row && "PLAT." in row && "CORTE" in row && "CLIENTE" in row && "PANTALLA" in row
    && "INDICATIVO" in row && "CONTACTO" in row && "VALOR" in row && "DIAS" in row
  }

  /** A raw row covering the desired customer columns holds each of them. */
  lemma CoversDesired(row: Row, desired: seq<string>)
    requires desired == DesiredColumns && Covers(row, desired)
    ensures CustomerRow(row)
  {
  }

  /**
   * A raw customer row after shaping and the CORTE conversion, before VALOR is
   * dropped: CLIENTE, PANTALLA, DIAS and VALOR carried over, TELEFONO composed
   * from INDICATIVO and CONTACTO, the seller from WSP, the platform from PLAT.
   * and CORTE converted.
   */
  lemma ShapedRowDesired(row: Row)
    requires CustomerRow(row)
    ensures Covers(row, DesiredColumns)
    ensures ShapedRow(row, DesiredColumns) == map[
      "CLIENTE" := row["CLIENTE"], "PANTALLA" := row["PANTALLA"], "DIAS" := row["DIAS"],
      "TELEFONO" := Text(TextOf(row["INDICATIVO"]) + " " + TextOf(row["CONTACTO"])),
      "VALOR" := row["VALOR"], "VENDEDOR" := row["WSP"], "PLATAFORMA" := row["PLAT."],
      "CORTE" := Flag(CutOf(row["CORTE"]))]
  {
    var b := map["CLIENTE" := row["CLIENTE"], "PANTALLA" := row["PANTALLA"], "DIAS" := row["DIAS"],
                 "TELEFONO" := Text(TextOf(row["INDICATIVO"]) + " " + TextOf(row["CONTACTO"]))];
    var va, c, p, w := row["VALOR"], row["CORTE"], row["PLAT."], row["WSP"];
    PhonedRowDesired(row);
    MappingRow(b, va, c, p, w);
    CutRenamedRow(b, va, c, w, p);
  }

  /** A raw customer row after projection and the phone step. */
  lemma PhonedRowDesired(row: Row)
    requires CustomerRow(row)
    ensures Covers(row, DesiredColumns)
    ensures PhoneRow(ProjectRow(row, DesiredColumns)) == map[
      "CLIENTE" := row["CLIENTE"], "PANTALLA" := row["PANTALLA"], "DIAS" := row["DIAS"],
      "TELEFONO" := Text(TextOf(row["INDICATIVO"]) + " " + TextOf(row["CONTACTO"])),
      "VALOR" := row["VALOR"], "CORTE" := row["CORTE"], "PLAT." := row["PLAT."], "WSP" := row["WSP"]]
  {
    var t := Text(TextOf(row["INDICATIVO"]) + " " + TextOf(row["CONTACTO"]));
    var b3 := map["CLIENTE" := row["CLIENTE"], "PANTALLA" := row["PANTALLA"], "DIAS" := row["DIAS"]];
    var va, c, p, w := row["VALOR"], row["CORTE"], row["PLAT."], row["WSP"];
    ProjectDesiredRow(row);
    PhoneAdded(b3["VALOR" := va]["CORTE" := c]["PLAT." := p]["WSP" := w], row["INDICATIVO"], row["CONTACTO"]);
    Sink(b3, "VALOR", va, "CORTE", c, "PLAT.", p, "WSP", w, "TELEFONO", t);
  }

  /**
   * A surviving customer row is exactly: CLIENTE, PANTALLA and DIAS carried
   * over, TELEFONO composed from INDICATIVO and CONTACTO, the seller from WSP,
   * the platform from PLAT. and CORTE converted.
   */
  lemma CleanedRowDesired(row: Row)
    requires CustomerRow(row)
    ensures Covers(row, DesiredColumns)
    ensures CleanedRow(row, DesiredColumns) == map[
      "CLIENTE" := row["CLIENTE"], "PANTALLA" := row["PANTALLA"], "DIAS" := row["DIAS"],
      "TELEFONO" := Text(TextOf(row["INDICATIVO"]) + " " + TextOf(row["CONTACTO"])),
      "VENDEDOR" := row["WSP"], "PLATAFORMA" := row["PLAT."], "CORTE" := Flag(CutOf(row["CORTE"]))]
  {
    ShapedRowDesired(row);
    DropValorRow(row["CLIENTE"], row["PANTALLA"], row["DIAS"], Text(TextOf(row["INDICATIVO"]) + " " + TextOf(row["CONTACTO"])),
      row["VALOR"], row["WSP"], row["PLAT."], Flag(CutOf(row["CORTE"])));
  }

  // ---------------------------------------------------------------------------
  // The amounts and the outcome of the clean

  /** Shaping carries every raw VALOR cell over unchanged. */
  lemma ShapedValor(t: Table, desired: seq<string>)
    requires t.Valid() && Distinct(desired) && RenameSafe(desired)
    requires forall c :: c in desired ==> c in t.columns
    requires Shape(t, desired).Ok? && "VALOR" in desired && "CORTE" in desired
    ensures "VALOR" in Shape(t, desired).value.columns && "CORTE" in Shape(t, desired).value.columns
    ensures forall i :: 0 <= i < |t.rows| ==> Shape(t, desired).value.rows[i]["VALOR"] == t.rows[i]["VALOR"]
  {
    var n := Shape(t, desired).value;
    ShapeRows(t, desired);
    forall i | 0 <= i < |t.rows| ensures n.rows[i]["VALOR"] == t.rows[i]["VALOR"] {
      ShapedRowValor(t.rows[i], desired);
      assert WithCut(n).rows[i] == n.rows[i]["CORTE" := Flag(CutOf(n.rows[i]["CORTE"]))];
    }
  }

  /** The VALOR cell of a shaped row is the raw one. */
  lemma ShapedRowValor(row: Row, desired: seq<string>)
    requires Covers(row, desired) && "VALOR" in desired
    ensures "VALOR" in ShapedRow(row, desired) && ShapedRow(row, desired)["VALOR"] == row["VALOR"]
  {
    var q := PhoneRow(ProjectRow(row, desired));
    assert q["VALOR"] == row["VALOR"];
    var n := RenameKey(RenameKey(q, "WSP", "VENDEDOR"), "PLAT.", "PLATAFORMA");
    assert n["VALOR"] == row["VALOR"];
  }

  /**
   * A non-empty table holding every desired column, among them the phone
   * sources, VALOR and CORTE, cleans exactly when `float` reads every VALOR
   * cell (an empty cell counts as NA and its row is dropped); otherwise the
   * failure is the VALOR stage's, re-raised by the outer handler.
   */
  lemma CleanAmounts(t: Table, desired: seq<string>)
    requires t.Valid() && Distinct(desired) && RenameSafe(desired) && !t.Empty() && MissingOf(desired, t.columns) == []
    requires "INDICATIVO" in desired && "CONTACTO" in desired && "VALOR" in desired && "CORTE" in desired
    ensures "VALOR" in t.columns
    ensures Clean(t, desired).Ok? <==> forall i :: 0 <= i < |t.rows| ==> AmountOf(t.rows[i]["VALOR"]).Ok?
    ensures Clean(t, desired).Err? ==>
      && Clean(t, desired).error.Wrapped? && Clean(t, desired).error.stage == Cleaning
      && Clean(t, desired).error.cause.Wrapped? && Clean(t, desired).error.cause.stage == ValorColumn
  {
    CleanThroughConvert(t, desired);
    ConvertOnRaw(Shape(t, desired).value, t);
  }

  /** The conversion of a table carrying another's VALOR cells succeeds exactly when those all convert. */
  lemma ConvertOnRaw(n: Table, t: Table)
    requires n.Valid() && t.Valid() && "VALOR" in n.columns && "CORTE" in n.columns && "VALOR" in t.columns
    requires |n.rows| == |t.rows| && forall i :: 0 <= i < |t.rows| ==> n.rows[i]["VALOR"] == t.rows[i]["VALOR"]
    ensures ConvertAndFilter(n).Ok? <==> forall i :: 0 <= i < |t.rows| ==> AmountOf(t.rows[i]["VALOR"]).Ok?
    ensures ConvertAndFilter(n).Err? ==> ConvertAndFilter(n).error.Wrapped? && ConvertAndFilter(n).error.stage == ValorColumn
  {
  }

  /**
   * Past the checks and the shaping, which carries the VALOR cells over, the
   * clean is the conversion stage, its failure re-raised.
   */
  lemma CleanThroughConvert(t: Table, desired: seq<string>)
    requires t.Valid() && Distinct(desired) && RenameSafe(desired) && !t.Empty() && MissingOf(desired, t.columns) == []
    requires "INDICATIVO" in desired && "CONTACTO" in desired && "VALOR" in desired && "CORTE" in desired
    ensures Shape(t, desired).Ok? && "VALOR" in t.columns
    ensures var n := Shape(t, desired).value;
      && "VALOR" in n.columns && "CORTE" in n.columns && |n.rows| == |t.rows|
      && forall i :: 0 <= i < |t.rows| ==> n.rows[i]["VALOR"] == t.rows[i]["VALOR"]
    ensures var c := ConvertAndFilter(Shape(t, desired).value);
      Clean(t, desired) == if c.Ok? then c else Err(Wrapped(ValueErrorType, Cleaning, c.error))
    ensures var c := ConvertAsWritten(Shape(t, desired).value);
      CleanAsWritten(t, desired) == if c.Ok? then c else Err(Wrapped(ValueErrorType, Cleaning, c.error))
  {
    ShapedValor(t, desired);
  }

  // ---------------------------------------------------------------------------
  // The VALOR conversion as written

  /**
   * Line 46 as it behaves on the NA that line 44 put in an empty cell:
   * `.str.replace` leaves NA in place and `astype(float)` raises a TypeError on
   * it, so the empty cell is refused instead of becoming a dropped NaN.
   */
  function AmountAsWritten(c: Cell): (r: Result<Decimal, Error>)
    ensures r.Ok? <==> c != Text("") && AmountOf(c).Ok?
    ensures r.Ok? ==> AmountOf(c) == Ok(Some(r.value))
    ensures c == Text("") ==> r == Err(Raised(TypeErrorType, MissingNumeric))
  {
    if c == Text("") then Err(Raised(TypeErrorType, MissingNumeric))
    else
      match AmountOf(c)
      case Err(s) => Err(Raised(ValueErrorType, InvalidNumeric(s)))
      case Ok(a) => if a.Some? then Ok(a.value) else Err(Raised(TypeErrorType, MissingNumeric))
  }

  /** The position of the first VALOR cell the code as written refuses; the length of the column when none is. */
  function FirstRefusedAsWritten(cells: seq<Cell>): (k: nat)
    ensures k <= |cells|
    ensures forall j :: 0 <= j < k ==> AmountAsWritten(cells[j]).Ok?
    ensures k < |cells| ==> AmountAsWritten(cells[k]).Err?
  {
    FirstRejected(cells, AcceptedAsWritten)
  }

  /** The code as written converts the cell. */
  predicate AcceptedAsWritten(c: Cell)
  {
    AmountAsWritten(c).Ok?
  }

  /**
   * Lines 41-64 as written: the first refused VALOR cell, the empty one
   * included, fails the conversion; past that the stage is `ConvertAndFilter`.
   */
  function ConvertAsWritten(n: Table): (r: Result<Table, Error>)
    requires n.Valid()
    ensures r.Ok? ==> r == ConvertAndFilter(n)
    ensures ConvertAndFilter(n).Err? ==> r.Err?
    ensures "VALOR" in n.columns && (exists i :: 0 <= i < |n.rows| && n.rows[i]["VALOR"] == Text("")) ==>
      r.Err? && r.error.Wrapped? && r.error.stage == ValorColumn
  {
    var amounts := if "VALOR" in n.columns then Column(n, "VALOR") else [];
    var bad := FirstRefusedAsWritten(amounts);
    if bad < |amounts| then
      Err(Wrapped(ValueErrorType, ValorColumn, AmountAsWritten(amounts[bad]).error))
    else ConvertAndFilter(n)
  }

  /** `clean_data` as written: `Clean` with the conversion stage of `ConvertAsWritten`. */
  function CleanAsWritten(t: Table, desired: seq<string>): (r: Result<Table, Error>)
    requires t.Valid() && Distinct(desired) && RenameSafe(desired)
    ensures r.Ok? ==> r == Clean(t, desired)
    ensures Clean(t, desired).Err? ==> r.Err?
  {
    if t.Empty() || MissingOf(desired, t.columns) != [] then Clean(t, desired)
    else match Shape(t, desired)
      case Err(e) => Err(Wrapped(ValueErrorType, Cleaning, e))
      case Ok(n) =>
        match ConvertAsWritten(n)
        case Err(e) => Err(Wrapped(ValueErrorType, Cleaning, e))
        case Ok(k) => Ok(k)
  }

  /**
   * As written, one empty VALOR cell fails the whole clean with the VALOR
   * stage's error, where `CleanAmounts` drops its row.
   */
  lemma CleanBlankValorAsWritten(t: Table, desired: seq<string>)
    requires t.Valid() && Distinct(desired) && RenameSafe(desired) && !t.Empty() && MissingOf(desired, t.columns) == []
    requires "INDICATIVO" in desired && "CONTACTO" in desired && "VALOR" in desired && "CORTE" in desired
    requires exists i :: 0 <= i < |t.rows| && "VALOR" in t.rows[i] && t.rows[i]["VALOR"] == Text("")
    ensures CleanAsWritten(t, desired).Err?
    ensures CleanAsWritten(t, desired).error.Wrapped? && CleanAsWritten(t, desired).error.stage == Cleaning
    ensures CleanAsWritten(t, desired).error.cause.Wrapped? && CleanAsWritten(t, desired).error.cause.stage == ValorColumn
  {
    CleanThroughConvert(t, desired);
    BlankOnRaw(Shape(t, desired).value, t);
  }

  /** As written, the conversion of a table carrying another's VALOR cells fails on an empty one. */
  lemma BlankOnRaw(n: Table, t: Table)
    requires n.Valid() && t.Valid() && "VALOR" in n.columns && "VALOR" in t.columns
    requires |n.rows| == |t.rows| && forall i :: 0 <= i < |t.rows| ==> n.rows[i]["VALOR"] == t.rows[i]["VALOR"]
    requires exists i :: 0 <= i < |t.rows| && t.rows[i]["VALOR"] == Text("")
    ensures ConvertAsWritten(n).Err? && ConvertAsWritten(n).error.Wrapped? && ConvertAsWritten(n).error.stage == ValorColumn
  {
    var i :| 0 <= i < |t.rows| && t.rows[i]["VALOR"] == Text("");
    assert n.rows[i]["VALOR"] == Text("");
  }

  /**
   * The smallest witness: an empty amount beside "10", neither row cut. As
   * written the conversion fails; as intended it keeps the second row alone.
   */
  lemma ValorCounterexample()
    ensures ConvertAsWritten(ValorWitness()).Err?
    ensures ConvertAndFilter(ValorWitness()).Ok? && |ConvertAndFilter(ValorWitness()).value.rows| == 1
  {
    var n := ValorWitness();
    BlankOnRaw(n, n);
    WitnessAmounts();
    ConvertOnRaw(n, n);
    ConvertRows(n);
    WitnessKept();
  }

  /** Both amounts of the witness are read: the empty one as NA. */
  lemma WitnessAmounts()
    ensures forall i :: 0 <= i < |ValorWitness().rows| ==> AmountOf(ValorWitness().rows[i]["VALOR"]).Ok?
  {
    var n := ValorWitness();
    forall i | 0 <= i < |n.rows| ensures AmountOf(n.rows[i]["VALOR"]).Ok? {
      if i == 0 {
        assert n.rows[i]["VALOR"] == Text("");
      } else {
        AmountIsTen(n.rows[i]["VALOR"]);
      }
    }
  }

  /** A cell holding "10" reads as a positive amount. */
  lemma AmountIsTen(c: Cell)
    requires c == Text("10")
    ensures AmountOf(c).Ok? && PositiveAmount(c)
  {
    AmountTen();
  }

  /** Of the witness' rows only the second passes the keep-mask. */
  lemma WitnessKept()
    ensures Filter(WithCut(ValorWitness()).rows, Keep) == [WithCut(ValorWitness()).rows[1]]
  {
    var n := ValorWitness();
    var c := WithCut(n);
    ColumnsApart();
    assert c.rows[0]["VALOR"] == Text("") && c.rows[1]["VALOR"] == Text("10");
    assert c.rows[0]["CORTE"] == Flag(false) && c.rows[1]["CORTE"] == Flag(false);
    AmountIsTen(c.rows[1]["VALOR"]);
    SecondOfTwo(c.rows, Keep);
  }

  /** Selecting from two elements of which only the second passes. */
  lemma SecondOfTwo<T>(s: seq<T>, p: T -> bool)
    requires |s| == 2 && !p(s[0]) && p(s[1])
    ensures Filter(s, p) == [s[1]]
  {
    assert s[1..][1..] == [];
  }

  /** The two column names of the witness differ. */
  lemma ColumnsApart()
    ensures "VALOR" != "CORTE"
  {
    assert "VALOR"[0] != "CORTE"[0];
  }

  /** The two-row table of the witness: amounts "" and "10", neither row cut. */
  function ValorWitness(): (n: Table)
    ensures n.Valid() && n.columns == ["VALOR", "CORTE"] && |n.rows| == 2
    ensures n.rows[0]["VALOR"] == Text("") && n.rows[1]["VALOR"] == Text("10")
    ensures n.rows[0]["CORTE"] == Text("FALSE") && n.rows[1]["CORTE"] == Text("FALSE")
  {
    var n := Table(["VALOR", "CORTE"], [
        map["VALOR" := Text(""), "CORTE" := Text("FALSE")],
        map["VALOR" := Text("10"), "CORTE" := Text("FALSE")]]);
    ColumnsApart();
    assert ColumnSet(n.columns) == {"VALOR", "CORTE"};
    n
  }

  /** "10" is read as the positive number 10. */
  lemma AmountTen()
    ensures AmountOf(Text("10")) == Ok(Some(Decimal(false, 10, 0)))
    ensures PositiveAmount(Text("10"))
  {
    NoDollarInTen();
    StripUnpadded("10");
    ParseTen();
  }

  /** "10" has no '$' to remove. */
  lemma NoDollarInTen()
    ensures RemoveAll("10", '$') == "10"
  {
    var s: string := "10";
    assert s[1..] == "0" && s[1..][1..] == [];
    assert Filter(s[1..][1..], (x: char) => x != '$') == [];
  }

  /** "10" parses as ten units. */
  lemma ParseTen()
    ensures ParseDecimal("10") == Some(Decimal(false, 10, 0))
  {
    var s: string := "10";
    assert s[1..] == "0" && s[1..][1..] == [];
    assert DigitSpan(s[1..][1..]) == 0;
    assert DigitSpan(s) == 2;
    assert s[..2] == s && s[2..] == [];
    assert s[..1] == "1" && s[..1][..0] == [];
    assert DigitsValue(s) == 10;
    assert ParseUnsigned(s) == Some((10, 0));
  }

}
