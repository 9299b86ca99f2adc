/**
 * The phone composer of utils/functions.py: TELEFONO is the country code, one
 * space and the local number; the two source columns are dropped.
 */
module Phone {
  import opened Wrappers
  import opened Seqs
  import opened Tables

  /** The two source columns, in the order they are checked. */
  const Sources: seq<string> := ["INDICATIVO", "CONTACTO"]

  predicate HasSources(t: Table)
  {
    "INDICATIVO" in t.columns && "CONTACTO" in t.columns
  }

  /** TELEFONO for one row. */
  function PhoneOf(r: Row): string
    requires "INDICATIVO" in r && "CONTACTO" in r
  {
    TextOf(r["INDICATIVO"]) + " " + TextOf(r["CONTACTO"])
  }

  /** The argument table after `df['TELEFONO'] = ...`. */
  function WithPhone(t: Table): (r: Table)
    requires t.Valid() && HasSources(t)
    ensures r.Valid()
  {
    SetColumn(t, "TELEFONO", seq(|t.rows|, i requires 0 <= i < |t.rows| => Text(PhoneOf(t.rows[i]))))
  }

  /** The table `add_phone_column` returns, or the KeyError it raises. */
  function ComposePhone(t: Table): (r: Result<Table, Error>)
    requires t.Valid()
    ensures r.Ok? <==> HasSources(t)
    ensures r.Ok? ==> r.value.Valid()
  {
    var missing := MissingOf(Sources, t.columns);
    if missing != [] then Err(MissingColumns(missing))
    else Ok(DropColumns(WithPhone(t), Sources))
  }

  /**
   * A missing source column raises a KeyError naming exactly the absent ones,
   * INDICATIVO before CONTACTO, and nothing else is produced.
   */
  lemma PhoneMissingColumns(t: Table)
    requires t.Valid() && !HasSources(t)
    ensures ComposePhone(t) == Err(MissingColumns(
      (if "INDICATIVO" in t.columns then [] else ["INDICATIVO"]) +
      (if "CONTACTO" in t.columns then [] else ["CONTACTO"])))
  {
    var p := NotIn(t.columns);
    assert Sources == ["INDICATIVO"] + ["CONTACTO"];
    FilterAppend(["INDICATIVO"], ["CONTACTO"], p);
    FilterSingleton("INDICATIVO", p);
    FilterSingleton("CONTACTO", p);
  }

  /**
   * On success every row's TELEFONO is that same row's country code, a space and
   * its number; the source columns are gone; every other cell, the row count and
   * the row order are unchanged.
   */
  lemma PhoneRows(t: Table)
    requires t.Valid() && HasSources(t)
    ensures var r := ComposePhone(t).value;
      && |r.rows| == |t.rows|
      && "INDICATIVO" !in r.columns && "CONTACTO" !in r.columns && "TELEFONO" in r.columns
      && forall i :: 0 <= i < |r.rows| ==>
           && r.rows[i]["TELEFONO"] == Text(TextOf(t.rows[i]["INDICATIVO"]) + " " + TextOf(t.rows[i]["CONTACTO"]))
           && "INDICATIVO" !in r.rows[i] && "CONTACTO" !in r.rows[i]
           && forall c :: c in t.rows[i] && c !in ["INDICATIVO", "CONTACTO", "TELEFONO"] ==>
                c in r.rows[i] && r.rows[i][c] == t.rows[i][c]
  {
    var w := WithPhone(t);
    var r := ComposePhone(t).value;
    assert "TELEFONO" in w.columns;
    FilterMember(w.columns, NotIn(Sources), "TELEFONO");
    FilterMember(w.columns, NotIn(Sources), "INDICATIVO");
    FilterMember(w.columns, NotIn(Sources), "CONTACTO");
    forall i | 0 <= i < |r.rows|
      ensures && r.rows[i]["TELEFONO"] == Text(TextOf(t.rows[i]["INDICATIVO"]) + " " + TextOf(t.rows[i]["CONTACTO"]))
              && "INDICATIVO" !in r.rows[i] && "CONTACTO" !in r.rows[i]
              && forall c :: c in t.rows[i] && c !in ["INDICATIVO", "CONTACTO", "TELEFONO"] ==>
                   c in r.rows[i] && r.rows[i][c] == t.rows[i][c]
    {
      assert r.rows[i] == t.rows[i]["TELEFONO" := Text(PhoneOf(t.rows[i]))] - ColumnSet(Sources);
      PhoneRowCells(t.rows[i], Text(PhoneOf(t.rows[i])));
    }
  }

  /** One row given its TELEFONO cell and stripped of the phone sources. */
  lemma PhoneRowCells(m: Row, x: Cell)
    ensures var r := m["TELEFONO" := x] - ColumnSet(Sources);
      && "TELEFONO" in r && r["TELEFONO"] == x && "INDICATIVO" !in r && "CONTACTO" !in r
      && forall c :: c in m && c !in ["INDICATIVO", "CONTACTO", "TELEFONO"] ==> c in r && r[c] == m[c]
  {
    assert ColumnSet(Sources) == {"INDICATIVO", "CONTACTO"};
  }

  /**
   * The column order: the other columns keep their order, an existing TELEFONO
   * is overwritten where it stands (never duplicated), a new one comes last.
   */
  lemma PhoneColumns(t: Table)
    requires t.Valid() && HasSources(t)
    ensures ComposePhone(t).value.columns ==
      Filter(t.columns, NotIn(Sources)) + (if "TELEFONO" in t.columns then [] else ["TELEFONO"])
  {
    if "TELEFONO" !in t.columns {
      FilterAppend(t.columns, ["TELEFONO"], NotIn(Sources));
      FilterSingleton("TELEFONO", NotIn(Sources));
    }
  }

  /**
   * `add_phone_column` on a DataFrame object: it assigns TELEFONO into the
   * caller's frame, then returns a new table without the source columns.
   */
  method AddPhoneColumn(df: Frame) returns (r: Result<Table, Error>)
    requires df.View().Valid()
    modifies df
    ensures r == ComposePhone(old(df.View()))
    ensures df.View() == if r.Ok? then WithPhone(old(df.View())) else old(df.View())
  {
    var missing := MissingOf(Sources, df.columns);
    if missing != [] {
      return Err(MissingColumns(missing));
    }
    var t := df.View();
    var phones := seq(|t.rows|, i requires 0 <= i < |t.rows| => Text(PhoneOf(t.rows[i])));
    df.Assign("TELEFONO", phones);
    r := Ok(DropColumns(df.View(), Sources));
  }
}
