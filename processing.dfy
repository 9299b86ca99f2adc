/**
 * The aggregation and message stages of modules/data_processing.py: the
 * two-level group-by of `process_data`, the message template of
 * `add_message_column` and the per-owner loop of `process_data_by_type`.
 */
module Processing {
  import opened Wrappers
  import opened Seqs
  import opened Text
  import opened Sorting
  import opened Tables
  import opened Filtering

  /** The columns `process_data` requires, in the order it reports them. */
  const GroupColumns: seq<string> := ["VENDEDOR", "CLIENTE", "PLATAFORMA", "TELEFONO", "PANTALLA"]

  /** The columns of the aggregated table. */
  const ProcessedColumns: seq<string> := ["VENDEDOR", "CLIENTE", "TELEFONO", "SERVICIO"]

  /** The columns after the message step. */
  const MessageColumns: seq<string> := ["VENDEDOR", "CLIENTE", "TELEFONO", "SERVICIO", "NOMBRE", "MENSAJE"]

  /** The separator between the screens of one service. */
  const ScreenSeparator: string := " & "

  /** The separator between the services of one customer: a space, U+25AA U+FE0F, a space. */
  const ServiceSeparator: string := " \U{25AA}\U{FE0F} "

  // ---------------------------------------------------------------------------
  // Group keys and their order

  /** Python's `<` on tuples of strings: lexicographic, a proper prefix first. */
  predicate LexLt(xs: seq<string>, ys: seq<string>)
  {
    if xs == [] then ys != []
    else if ys == [] then false
    else if xs[0] != ys[0] then StrLt(xs[0], ys[0])
    else LexLt(xs[1..], ys[1..])
  }

  lemma {:induction false} LexLtIrreflexive(xs: seq<string>)
    ensures !LexLt(xs, xs)
  {
    if xs != [] { LexLtIrreflexive(xs[1..]); }
  }

  lemma {:induction false} LexLtTransitive(xs: seq<string>, ys: seq<string>, zs: seq<string>)
    requires LexLt(xs, ys) && LexLt(ys, zs)
    ensures LexLt(xs, zs)
  {
    if xs != [] {
      assert ys != [] && zs != [];
      if xs[0] != ys[0] && ys[0] != zs[0] {
        StrLtTransitive(xs[0], ys[0], zs[0]);
        if xs[0] == zs[0] { StrLtIrreflexive(xs[0]); }
      } else if xs[0] == ys[0] && ys[0] == zs[0] {
        LexLtTransitive(xs[1..], ys[1..], zs[1..]);
      }
    }
  }

  lemma {:induction false} LexLtTotal(xs: seq<string>, ys: seq<string>)
    requires xs != ys
    ensures LexLt(xs, ys) || LexLt(ys, xs)
  {
    if xs != [] && ys != [] {
      if xs[0] != ys[0] {
        StrLtTotal(xs[0], ys[0]);
      } else {
        assert xs == [xs[0]] + xs[1..] && ys == [ys[0]] + ys[1..];
        LexLtTotal(xs[1..], ys[1..]);
      }
    }
  }

  /** Tuples that agree on their first element compare as their rests do. */
  lemma LexLtCons(x: string, xs: seq<string>, ys: seq<string>)
    ensures LexLt([x] + xs, [x] + ys) == LexLt(xs, ys)
  {
    assert ([x] + xs)[1..] == xs && ([x] + ys)[1..] == ys;
  }

  /** A first-level group: (VENDEDOR, CLIENTE, PLATAFORMA, TELEFONO). */
  datatype Service = Service(seller: string, client: string, platform: string, phone: string) {
    function Fields(): seq<string> { [seller, client, platform, phone] }

    /** The second-level group it falls in. */
    function Owner(): Customer { Customer(seller, client, phone) }
  }

  /** A second-level group: (VENDEDOR, CLIENTE, TELEFONO). */
  datatype Customer = Customer(seller: string, client: string, phone: string) {
    function Fields(): seq<string> { [seller, client, phone] }
  }

  /** The order pandas sorts first-level groups in. */
  predicate ServiceLt(a: Service, b: Service)
  {
    LexLt(a.Fields(), b.Fields())
  }

  /** The order pandas sorts second-level groups in. */
  predicate CustomerLt(a: Customer, b: Customer)
  {
    LexLt(a.Fields(), b.Fields())
  }

  lemma ServiceOrder()
    ensures StrictTotalOrder(ServiceLt)
  {
    forall a: Service ensures !ServiceLt(a, a) { LexLtIrreflexive(a.Fields()); }
    forall a: Service, b: Service, c: Service | ServiceLt(a, b) && ServiceLt(b, c) ensures ServiceLt(a, c) {
      LexLtTransitive(a.Fields(), b.Fields(), c.Fields());
    }
    forall a: Service, b: Service | a != b ensures ServiceLt(a, b) || ServiceLt(b, a) {
      LexLtTotal(a.Fields(), b.Fields());
    }
  }

  lemma CustomerOrder()
    ensures StrictTotalOrder(CustomerLt)
  {
    forall a: Customer ensures !CustomerLt(a, a) { LexLtIrreflexive(a.Fields()); }
    forall a: Customer, b: Customer, c: Customer | CustomerLt(a, b) && CustomerLt(b, c) ensures CustomerLt(a, c) {
      LexLtTransitive(a.Fields(), b.Fields(), c.Fields());
    }
    forall a: Customer, b: Customer | a != b ensures CustomerLt(a, b) || CustomerLt(b, a) {
      LexLtTotal(a.Fields(), b.Fields());
    }
  }

  /** Two services of one customer are ordered by their platforms. */
  lemma SameOwnerByPlatform(a: Service, b: Service)
    requires ServiceLt(a, b) && a.Owner() == b.Owner()
    ensures StrLt(a.platform, b.platform)
  {
    assert a.Fields() == [a.seller] + ([a.client] + ([a.platform] + [a.phone]));
    assert b.Fields() == [a.seller] + ([a.client] + ([b.platform] + [a.phone]));
    LexLtCons(a.seller, [a.client] + ([a.platform] + [a.phone]), [a.client] + ([b.platform] + [a.phone]));
    LexLtCons(a.client, [a.platform] + [a.phone], [b.platform] + [a.phone]);
    if a.platform == b.platform {
      LexLtCons(a.platform, [a.phone], [a.phone]);
      LexLtIrreflexive([a.phone]);
    } else {
      assert ([a.platform] + [a.phone])[0] == a.platform;
    }
  }

  // ---------------------------------------------------------------------------
  // process_data

  /** A row holding every grouping column. */
  predicate HasGroupCells(r: Row)
  {
    "VENDEDOR" in r && "CLIENTE" in r && "PLATAFORMA" in r && "TELEFONO" in r && "PANTALLA" in r
  }

  predicate Groupable(rows: seq<Row>)
  {
    forall i :: 0 <= i < |rows| ==> HasGroupCells(rows[i])
  }

  /** The first-level group of a row. */
  function ServiceOf(r: Row): Service
    requires HasGroupCells(r)
  {
    Service(TextOf(r["VENDEDOR"]), TextOf(r["CLIENTE"]), TextOf(r["PLATAFORMA"]), TextOf(r["TELEFONO"]))
  }

  function ServiceKeys(rows: seq<Row>): (r: seq<Service>)
    requires Groupable(rows)
    ensures |r| == |rows| && forall i :: 0 <= i < |rows| ==> r[i] == ServiceOf(rows[i])
  {
    seq(|rows|, i requires 0 <= i < |rows| => ServiceOf(rows[i]))
  }

  /** The first-level groups, once each, in sorted order. */
  function Services(rows: seq<Row>): seq<Service>
    requires Groupable(rows)
  {
    Sort(Dedup(ServiceKeys(rows)), ServiceLt)
  }

  /** The PANTALLA values of the rows of one group, top to bottom. */
  function ScreensIn(rows: seq<Row>, k: Service): seq<string>
    requires Groupable(rows)
  {
    if rows == [] then []
    else (if ServiceOf(rows[0]) == k then [TextOf(rows[0]["PANTALLA"])] else []) + ScreensIn(rows[1..], k)
  }

  /** `['PANTALLA'].unique()` of one group: its screens once each, in order of first appearance. */
  function Screens(rows: seq<Row>, k: Service): seq<string>
    requires Groupable(rows)
  {
    Dedup(ScreensIn(rows, k))
  }

  /** SERVICIO of a first-level group: `*platform*: _screens_`. */
  function Label(k: Service, screens: seq<string>): string
  {
    "*" + k.platform + "*: _" + Join(ScreenSeparator, screens) + "_"
  }

  /** The labels of the listed groups, in the listed order. */
  function Labels(rows: seq<Row>, ks: seq<Service>): (r: seq<string>)
    requires Groupable(rows)
    ensures |r| == |ks|
    ensures forall j :: 0 <= j < |ks| ==> r[j] == Label(ks[j], Screens(rows, ks[j]))
  {
    if ks == [] then [] else [Label(ks[0], Screens(rows, ks[0]))] + Labels(rows, ks[1..])
  }

  /** The mask "first-level group belongs to customer `c`". */
  function OwnedBy(c: Customer): Service -> bool
  {
    (s: Service) => s.Owner() == c
  }

  /** The first-level groups of one customer, in sorted order. */
  function ServicesOf(rows: seq<Row>, c: Customer): seq<Service>
    requires Groupable(rows)
  {
    Filter(Services(rows), OwnedBy(c))
  }

  function Owners(ss: seq<Service>): (r: seq<Customer>)
    ensures |r| == |ss| && forall i :: 0 <= i < |ss| ==> r[i] == ss[i].Owner()
  {
    seq(|ss|, i requires 0 <= i < |ss| => ss[i].Owner())
  }

  /** The second-level groups, once each, in sorted order. */
  function Customers(rows: seq<Row>): seq<Customer>
    requires Groupable(rows)
  {
    Sort(Dedup(Owners(Services(rows))), CustomerLt)
  }

  /** One output row: the customer's key and its labels joined. */
  function OutRow(rows: seq<Row>, c: Customer): (r: Row)
    requires Groupable(rows)
    ensures r.Keys == ColumnSet(ProcessedColumns)
  {
    assert ColumnSet(ProcessedColumns) == {"VENDEDOR", "CLIENTE", "TELEFONO", "SERVICIO"};
    map["VENDEDOR" := Text(c.seller), "CLIENTE" := Text(c.client), "TELEFONO" := Text(c.phone),
        "SERVICIO" := Text(Join(ServiceSeparator, Labels(rows, ServicesOf(rows, c))))]
  }

  function Aggregate(rows: seq<Row>): (r: Table)
    requires Groupable(rows)
    ensures r.Valid() && r.columns == ProcessedColumns
    ensures |r.rows| == |Customers(rows)|
    ensures forall j :: 0 <= j < |r.rows| ==> r.rows[j] == OutRow(rows, Customers(rows)[j])
  {
    ProcessedNames();
    Table(ProcessedColumns, OutRows(rows, Customers(rows)))
  }

  /** The output rows of the given customers, in their order. */
  function OutRows(rows: seq<Row>, cs: seq<Customer>): (r: seq<Row>)
    requires Groupable(rows)
    ensures |r| == |cs|
    ensures forall j :: 0 <= j < |cs| ==> r[j] == OutRow(rows, cs[j]) && r[j].Keys == ColumnSet(ProcessedColumns)
  {
    seq(|cs|, j requires 0 <= j < |cs| => OutRow(rows, cs[j]))
  }

  /** The grouped columns are four different names. */
  lemma ProcessedNames()
    ensures Distinct(ProcessedColumns)
    ensures ColumnSet(ProcessedColumns) == {"VENDEDOR", "CLIENTE", "TELEFONO", "SERVICIO"}
  {
  }

  /** The cells of one output row. */
  lemma OutRowCells(rows: seq<Row>, c: Customer)
    requires Groupable(rows)
    ensures var r := OutRow(rows, c);
      && r["VENDEDOR"] == Text(c.seller) && r["CLIENTE"] == Text(c.client) && r["TELEFONO"] == Text(c.phone)
      && r["SERVICIO"] == Text(Join(ServiceSeparator, Labels(rows, ServicesOf(rows, c))))
  {
    ProcessedNames();
  }

  /** A table holding every grouping column has rows holding them. */
  lemma GroupableRows(t: Table)
    requires t.Valid() && MissingOf(GroupColumns, t.columns) == []
    ensures Groupable(t.rows)
  {
    assert forall c :: c in GroupColumns ==> c in ColumnSet(t.columns);
    assert "VENDEDOR" in GroupColumns && "CLIENTE" in GroupColumns && "PLATAFORMA" in GroupColumns;
    assert "TELEFONO" in GroupColumns && "PANTALLA" in GroupColumns;
  }

  /**
   * `process_data`: a KeyError naming the absent grouping columns in order, or
   * one row per customer with the labels of its services joined. The grouping
   * cells are text, as every cell of a cleaned customer table is.
   */
  function ProcessData(t: Table): (r: Result<Table, Error>)
    requires t.Valid() && TextIn(t, GroupColumns)
    ensures r.Err? <==> MissingOf(GroupColumns, t.columns) != []
    ensures r.Err? ==> r.error == MissingColumns(MissingOf(GroupColumns, t.columns))
    ensures r.Ok? ==> Groupable(t.rows) && r.value.Valid() && r.value.columns == ProcessedColumns
  {
    var missing := MissingOf(GroupColumns, t.columns);
    if missing != [] then Err(MissingColumns(missing))
    else
      GroupableRows(t);
      Ok(Aggregate(t.rows))
  }

  /** The first-level groups are strictly increasing and are exactly the rows' groups. */
  lemma ServicesSorted(rows: seq<Row>)
    requires Groupable(rows)
    ensures StrictlySorted(Services(rows), ServiceLt)
    ensures forall s :: s in Services(rows) <==> exists i :: 0 <= i < |rows| && ServiceOf(rows[i]) == s
  {
    var d := Dedup(ServiceKeys(rows));
    ServiceOrder();
    SortCorrect(d, ServiceLt);
    forall s ensures s in Services(rows) <==> exists i :: 0 <= i < |rows| && ServiceOf(rows[i]) == s {
      assert s in Services(rows) <==> s in multiset(d);
      if s in d {
        var j :| 0 <= j < |d| && d[j] == s;
        var i :| 0 <= i < |rows| && ServiceKeys(rows)[i] == s;
      }
      if exists i :: 0 <= i < |rows| && ServiceOf(rows[i]) == s {
        var i :| 0 <= i < |rows| && ServiceOf(rows[i]) == s;
        assert ServiceKeys(rows)[i] == s;
      }
    }
  }

  /**
   * The output has one row per distinct (VENDEDOR, CLIENTE, TELEFONO) of the
   * input, in strictly increasing order of that triple.
   */
  lemma CustomersSorted(rows: seq<Row>)
    requires Groupable(rows)
    ensures StrictlySorted(Customers(rows), CustomerLt)
    ensures forall c :: c in Customers(rows) <==> exists i :: 0 <= i < |rows| && ServiceOf(rows[i]).Owner() == c
  {
    var ss := Services(rows);
    var d := Dedup(Owners(ss));
    ServicesSorted(rows);
    CustomerOrder();
    SortCorrect(d, CustomerLt);
    forall c ensures c in Customers(rows) <==> exists i :: 0 <= i < |rows| && ServiceOf(rows[i]).Owner() == c {
      assert c in Customers(rows) <==> c in multiset(d);
      if c in d {
        var k :| 0 <= k < |ss| && Owners(ss)[k] == c;
        assert ss[k] in ss;
      }
      if exists i :: 0 <= i < |rows| && ServiceOf(rows[i]).Owner() == c {
        var i :| 0 <= i < |rows| && ServiceOf(rows[i]).Owner() == c;
        var s := ServiceOf(rows[i]);
        assert s in ss;
        var k :| 0 <= k < |ss| && ss[k] == s;
        assert Owners(ss)[k] == c;
      }
    }
  }

  /**
   * A customer's services are exactly its first-level groups in the input, in
   * strictly increasing PLATAFORMA order.
   */
  lemma ServicesOfSorted(rows: seq<Row>, c: Customer)
    requires Groupable(rows)
    ensures forall s :: s in ServicesOf(rows, c) <==> s.Owner() == c && exists i :: 0 <= i < |rows| && ServiceOf(rows[i]) == s
    ensures forall i, j :: 0 <= i < j < |ServicesOf(rows, c)| ==>
      StrLt(ServicesOf(rows, c)[i].platform, ServicesOf(rows, c)[j].platform)
  {
    var ss := ServicesOf(rows, c);
    ServicesSorted(rows);
    FilterSorted(Services(rows), OwnedBy(c), ServiceLt);
    FilterElements(Services(rows), OwnedBy(c));
    forall s ensures s in ss <==> s.Owner() == c && exists i :: 0 <= i < |rows| && ServiceOf(rows[i]) == s {
      FilterMember(Services(rows), OwnedBy(c), s);
    }
    forall i, j | 0 <= i < j < |ss| ensures StrLt(ss[i].platform, ss[j].platform) {
      assert ss[i].Owner() == c && ss[j].Owner() == c;
      SameOwnerByPlatform(ss[i], ss[j]);
    }
  }

  /** The screens of one group are distinct, and are exactly those of its rows. */
  lemma {:induction false} ScreensInMembers(rows: seq<Row>, k: Service, x: string)
    requires Groupable(rows)
    ensures x in ScreensIn(rows, k) <==> exists i :: 0 <= i < |rows| && ServiceOf(rows[i]) == k && TextOf(rows[i]["PANTALLA"]) == x
  {
    if rows != [] {
      var tail := rows[1..];
      ScreensInMembers(tail, k, x);
      if exists i :: 0 <= i < |tail| && ServiceOf(tail[i]) == k && TextOf(tail[i]["PANTALLA"]) == x {
        var i :| 0 <= i < |tail| && ServiceOf(tail[i]) == k && TextOf(tail[i]["PANTALLA"]) == x;
        assert rows[i + 1] == tail[i];
      }
      if exists i :: 0 <= i < |rows| && ServiceOf(rows[i]) == k && TextOf(rows[i]["PANTALLA"]) == x {
        var i :| 0 <= i < |rows| && ServiceOf(rows[i]) == k && TextOf(rows[i]["PANTALLA"]) == x;
        if i > 0 { assert tail[i - 1] == rows[i]; }
      }
    }
  }

  /**
   * A group's screens: each of its rows' PANTALLA once, nothing else, in the
   * order the values first appear among its rows.
   */
  lemma ScreensUnique(rows: seq<Row>, k: Service)
    requires Groupable(rows)
    ensures Distinct(Screens(rows, k))
    ensures forall x :: x in Screens(rows, k) <==>
      exists i :: 0 <= i < |rows| && ServiceOf(rows[i]) == k && TextOf(rows[i]["PANTALLA"]) == x
    ensures forall i, j :: 0 <= i < j < |Screens(rows, k)| ==>
      FirstIndex(ScreensIn(rows, k), Screens(rows, k)[i]) < FirstIndex(ScreensIn(rows, k), Screens(rows, k)[j])
  {
    var s := ScreensIn(rows, k);
    forall x ensures x in Screens(rows, k) <==>
      exists i :: 0 <= i < |rows| && ServiceOf(rows[i]) == k && TextOf(rows[i]["PANTALLA"]) == x
    {
      ScreensInMembers(rows, k, x);
      if x in s {
        var i :| 0 <= i < |s| && s[i] == x;
      }
      if x in Dedup(s) {
        var i :| 0 <= i < |Dedup(s)| && Dedup(s)[i] == x;
      }
    }
    DedupFirstAppearance(s);
  }

  /**
   * On success the j-th output row is the j-th customer: its key cells and, as
   * SERVICIO, the labels of its services joined in platform order.
   */
  lemma ProcessRows(t: Table)
    requires t.Valid() && TextIn(t, GroupColumns) && ProcessData(t).Ok?
    ensures var r := ProcessData(t).value;
      && |r.rows| == |Customers(t.rows)|
      && forall j :: 0 <= j < |r.rows| ==>
           && r.rows[j]["VENDEDOR"] == Text(Customers(t.rows)[j].seller)
           && r.rows[j]["CLIENTE"] == Text(Customers(t.rows)[j].client)
           && r.rows[j]["TELEFONO"] == Text(Customers(t.rows)[j].phone)
           && r.rows[j]["SERVICIO"] == Text(Join(ServiceSeparator, Labels(t.rows, ServicesOf(t.rows, Customers(t.rows)[j]))))
  {
    var r, cs := ProcessData(t).value, Customers(t.rows);
    assert r == Aggregate(t.rows);
    forall j | 0 <= j < |r.rows|
      ensures && r.rows[j]["VENDEDOR"] == Text(cs[j].seller) && r.rows[j]["CLIENTE"] == Text(cs[j].client)
              && r.rows[j]["TELEFONO"] == Text(cs[j].phone)
              && r.rows[j]["SERVICIO"] == Text(Join(ServiceSeparator, Labels(t.rows, ServicesOf(t.rows, cs[j]))))
    {
      OutRowCells(t.rows, cs[j]);
    }
  }

  // ---------------------------------------------------------------------------
  // add_message_column

  /** NOMBRE: the first whitespace-delimited word of CLIENTE, missing when it has none or is not text. */
  function FirstName(c: Cell): Cell
  {
    match c
    case Text(s) => if HasToken(s) then Text(FirstToken(s)) else Missing
    case _ => Missing
  }

  /** MENSAJE for one row, missing when NOMBRE or SERVICIO is. */
  function Message(name: Cell, day: string, service: Cell): Cell
  {
    if name.Text? && service.Text? then
      Text("Hola, " + name.s + ". Buen d\U{ED}a. " + day + " otro mes de " + service.s + ". \U{BF}Desea continuar?")
    else Missing
  }

  /** The table after `df['NOMBRE'] = ...`. */
  function Named(t: Table): (r: Table)
    requires t.Valid() && "CLIENTE" in t.columns
    ensures r.Valid()
  {
    SetColumn(t, "NOMBRE", seq(|t.rows|, i requires 0 <= i < |t.rows| => FirstName(t.rows[i]["CLIENTE"])))
  }

  /** The table after both assignments of `add_message_column`. */
  function WithMessage(t: Table, day: string): (r: Table)
    requires t.Valid() && "CLIENTE" in t.columns && "SERVICIO" in t.columns
    ensures r.Valid()
  {
    var n := Named(t);
    SetColumn(n, "MENSAJE", seq(|n.rows|, i requires 0 <= i < |n.rows| =>
      Message(n.rows[i]["NOMBRE"], day, n.rows[i]["SERVICIO"])))
  }

  /**
   * What `add_message_column` returns: a KeyError without CLIENTE; without
   * SERVICIO the failure inside its `try`, re-raised as a ValueError.
   */
  function MessageAdded(t: Table, day: string): (r: Result<Table, Error>)
    requires t.Valid()
    ensures r.Err? <==> "CLIENTE" !in t.columns || "SERVICIO" !in t.columns
    ensures "CLIENTE" !in t.columns ==> r == Err(MissingColumns(["CLIENTE"]))
    ensures "CLIENTE" in t.columns && "SERVICIO" !in t.columns ==>
      r == Err(Wrapped(ValueErrorType, AddingMessage, MissingColumns(["SERVICIO"])))
    ensures r.Ok? ==> r.value.Valid() && |r.value.rows| == |t.rows|
    ensures r.Ok? ==> (r.value.columns ==
      t.columns + (if "NOMBRE" in t.columns then [] else ["NOMBRE"]) + (if "MENSAJE" in t.columns then [] else ["MENSAJE"]))
  {
    if "CLIENTE" !in t.columns then Err(MissingColumns(["CLIENTE"]))
    else if "SERVICIO" !in t.columns then Err(Wrapped(ValueErrorType, AddingMessage, MissingColumns(["SERVICIO"])))
    else Ok(WithMessage(t, day))
  }

  /**
   * Each message follows the template with the client's first name, the day
   * text and the services; NOMBRE and MENSAJE are added after the existing
   * columns (or overwritten in place) and every other cell is unchanged.
   */
  lemma MessageRows(t: Table, day: string)
    requires t.Valid() && "CLIENTE" in t.columns && "SERVICIO" in t.columns
    ensures var r := MessageAdded(t, day).value;
      && r.columns == t.columns + (if "NOMBRE" in t.columns then [] else ["NOMBRE"]) +
           (if "MENSAJE" in t.columns then [] else ["MENSAJE"])
      && |r.rows| == |t.rows|
      && forall i :: 0 <= i < |r.rows| ==>
           && r.rows[i]["NOMBRE"] == FirstName(t.rows[i]["CLIENTE"])
           && (t.rows[i]["CLIENTE"].Text? && HasToken(t.rows[i]["CLIENTE"].s) && t.rows[i]["SERVICIO"].Text? ==>
                r.rows[i]["MENSAJE"] == Text("Hola, " + FirstToken(t.rows[i]["CLIENTE"].s) + ". Buen d\U{ED}a. " + day +
                  " otro mes de " + t.rows[i]["SERVICIO"].s + ". \U{BF}Desea continuar?"))
           && (!(t.rows[i]["CLIENTE"].Text? && HasToken(t.rows[i]["CLIENTE"].s) && t.rows[i]["SERVICIO"].Text?) ==>
                r.rows[i]["MENSAJE"] == Missing)
           && forall c :: c in t.rows[i] && c != "NOMBRE" && c != "MENSAJE" ==> c in r.rows[i] && r.rows[i][c] == t.rows[i][c]
  {
  }

  /**
   * `add_message_column` on a frame it updates in place: without CLIENTE
   * nothing changes; without SERVICIO the NOMBRE column has already been
   * written when the failure is raised.
   */
  method AddMessageColumn(df: Frame, day: string) returns (r: Result<Frame, Error>)
    requires df.View().Valid()
    modifies df
    ensures r.Ok? <==> MessageAdded(old(df.View()), day).Ok?
    ensures r.Ok? ==> r.value == df && df.View() == MessageAdded(old(df.View()), day).value
    ensures r.Err? ==> r.error == MessageAdded(old(df.View()), day).error
    ensures "CLIENTE" !in old(df.columns) ==> df.View() == old(df.View())
    ensures "CLIENTE" in old(df.columns) && "SERVICIO" !in old(df.columns) ==> df.View() == Named(old(df.View()))
  {
    var t := df.View();
    if "CLIENTE" !in t.columns {
      return Err(MissingColumns(["CLIENTE"]));
    }
    var names := seq(|t.rows|, i requires 0 <= i < |t.rows| => FirstName(t.rows[i]["CLIENTE"]));
    df.Assign("NOMBRE", names);
    var n := df.View();
    assert n == Named(t);
    if "SERVICIO" !in n.columns {
      return Err(Wrapped(ValueErrorType, AddingMessage, MissingColumns(["SERVICIO"])));
    }
    var messages := seq(|n.rows|, i requires 0 <= i < |n.rows| => Message(n.rows[i]["NOMBRE"], day, n.rows[i]["SERVICIO"]));
    df.Assign("MENSAJE", messages);
    return Ok(df);
  }

  // ---------------------------------------------------------------------------
  // process_data_by_type

  /** A grouped table always takes the message column, which adds NOMBRE and MENSAJE last. */
  lemma MessageOnGrouped(p: Table, message: string)
    requires p.Valid() && p.columns == ProcessedColumns
    ensures MessageAdded(p, message).Ok?
    ensures MessageAdded(p, message).value.Valid() && MessageAdded(p, message).value.columns == MessageColumns
  {
    assert ProcessedColumns + ["NOMBRE"] + ["MENSAJE"] == MessageColumns;
  }

  /** One user's table: its rows of the day, grouped, with the message column. */
  function ProcessOne(data: Table, day: string, message: string): (r: Result<Table, Error>)
    requires data.Valid() && TextIn(data, GroupColumns)
    ensures r.Ok? <==> "DIAS" in data.columns && MissingOf(GroupColumns, data.columns) == []
    ensures "DIAS" !in data.columns ==> r == Err(MissingColumns(["DIAS"]))
    ensures "DIAS" in data.columns && r.Err? ==> r.error == MissingColumns(MissingOf(GroupColumns, data.columns))
    ensures r.Ok? ==> r.value.Valid() && r.value.columns == MessageColumns
  {
    match FilterByDay(data, day)
    case Err(e) => Err(e)
    case Ok(f) =>
      SelectText(data, "DIAS", Text(day), GroupColumns);
      match ProcessData(f)
      case Err(e) => Err(e)
      case Ok(p) =>
        MessageOnGrouped(p, message);
        MessageAdded(p, message)
  }

  /**
   * On a grouped table the message column keeps each row's four cells and adds
   * the first name of the client and the message built from it and the services.
   */
  lemma MessageOnGroupedRows(p: Table, message: string)
    requires p.Valid() && p.columns == ProcessedColumns
    ensures var r := MessageAdded(p, message).value;
      && |r.rows| == |p.rows|
      && forall j :: 0 <= j < |r.rows| ==>
           && r.rows[j].Keys == {"VENDEDOR", "CLIENTE", "TELEFONO", "SERVICIO", "NOMBRE", "MENSAJE"}
           && r.rows[j]["VENDEDOR"] == p.rows[j]["VENDEDOR"] && r.rows[j]["CLIENTE"] == p.rows[j]["CLIENTE"]
           && r.rows[j]["TELEFONO"] == p.rows[j]["TELEFONO"] && r.rows[j]["SERVICIO"] == p.rows[j]["SERVICIO"]
           && r.rows[j]["NOMBRE"] == FirstName(p.rows[j]["CLIENTE"])
           && r.rows[j]["MENSAJE"] == Message(FirstName(p.rows[j]["CLIENTE"]), message, p.rows[j]["SERVICIO"])
  {
    assert ColumnSet(ProcessedColumns) == {"VENDEDOR", "CLIENTE", "TELEFONO", "SERVICIO"};
  }

  /** Each customer of the day owns an input row of that day. */
  lemma DayCustomerFrom(data: Table, day: string, c: Customer)
    requires data.Valid() && "DIAS" in data.columns
    requires Groupable(data.rows) && Groupable(FilterByDay(data, day).value.rows)
    requires c in Customers(FilterByDay(data, day).value.rows)
    ensures exists k :: 0 <= k < |data.rows| && data.rows[k]["DIAS"] == Text(day) && ServiceOf(data.rows[k]).Owner() == c
  {
    var f := FilterByDay(data, day).value;
    var i := RowOfCustomer(f.rows, c);
    var k := DayRowOrigin(data, day, i);
    assert ServiceOf(data.rows[k]) == ServiceOf(f.rows[i]);
  }

  /** A row owned by a given customer. */
  lemma RowOfCustomer(rows: seq<Row>, c: Customer) returns (i: int)
    requires Groupable(rows) && c in Customers(rows)
    ensures 0 <= i < |rows| && ServiceOf(rows[i]).Owner() == c
  {
    CustomersSorted(rows);
    i :| 0 <= i < |rows| && ServiceOf(rows[i]).Owner() == c;
  }

  /** Where a row of the day sits in the unfiltered table. */
  lemma DayRowOrigin(data: Table, day: string, i: int) returns (k: int)
    requires data.Valid() && "DIAS" in data.columns && 0 <= i < |FilterByDay(data, day).value.rows|
    ensures 0 <= k < |data.rows| && data.rows[k] == FilterByDay(data, day).value.rows[i]
    ensures data.rows[k]["DIAS"] == Text(day)
  {
    var f := FilterByDay(data, day).value;
    DayMembers(data, day);
    assert f.rows[i] in data.rows;
    k :| 0 <= k < |data.rows| && data.rows[k] == f.rows[i];
  }

  /** The owner of an input row of the day is a customer of the day. */
  lemma DayCustomerTo(data: Table, day: string, k: int)
    requires data.Valid() && "DIAS" in data.columns
    requires Groupable(data.rows) && Groupable(FilterByDay(data, day).value.rows)
    requires 0 <= k < |data.rows| && data.rows[k]["DIAS"] == Text(day)
    ensures ServiceOf(data.rows[k]).Owner() in Customers(FilterByDay(data, day).value.rows)
  {
    var f := FilterByDay(data, day).value;
    DayMembers(data, day);
    assert data.rows[k] in f.rows;
    var i :| 0 <= i < |f.rows| && f.rows[i] == data.rows[k];
    CustomersSorted(f.rows);
  }

  /** The customers of one user's rows of the day are exactly the owners of those rows. */
  lemma DayCustomers(data: Table, day: string)
    requires data.Valid() && "DIAS" in data.columns && MissingOf(GroupColumns, data.columns) == []
    ensures Groupable(data.rows) && Groupable(FilterByDay(data, day).value.rows)
    ensures forall c :: c in Customers(FilterByDay(data, day).value.rows) <==>
      exists k :: 0 <= k < |data.rows| && data.rows[k]["DIAS"] == Text(day) && ServiceOf(data.rows[k]).Owner() == c
  {
    var f := FilterByDay(data, day).value;
    GroupableRows(data);
    GroupableRows(f);
    forall c ensures c in Customers(f.rows) <==>
      exists k :: 0 <= k < |data.rows| && data.rows[k]["DIAS"] == Text(day) && ServiceOf(data.rows[k]).Owner() == c
    {
      if c in Customers(f.rows) {
        DayCustomerFrom(data, day, c);
      }
      if exists k :: 0 <= k < |data.rows| && data.rows[k]["DIAS"] == Text(day) && ServiceOf(data.rows[k]).Owner() == c {
        var k :| 0 <= k < |data.rows| && data.rows[k]["DIAS"] == Text(day) && ServiceOf(data.rows[k]).Owner() == c;
        DayCustomerTo(data, day, k);
      }
    }
  }

  /**
   * One user's result has a row per customer of the day, in order, whose
   * message names the client and lists its services.
   */
  lemma ProcessOneRows(data: Table, day: string, message: string)
    requires data.Valid() && TextIn(data, GroupColumns) && ProcessOne(data, day, message).Ok?
    ensures var f := FilterByDay(data, day).value;
      var r := ProcessOne(data, day, message).value;
      && Groupable(f.rows)
      && |r.rows| == |Customers(f.rows)|
      && forall j :: 0 <= j < |r.rows| ==>
           var c := Customers(f.rows)[j];
           var service := Text(Join(ServiceSeparator, Labels(f.rows, ServicesOf(f.rows, c))));
           && r.rows[j].Keys == {"VENDEDOR", "CLIENTE", "TELEFONO", "SERVICIO", "NOMBRE", "MENSAJE"}
           && r.rows[j]["VENDEDOR"] == Text(c.seller) && r.rows[j]["CLIENTE"] == Text(c.client)
           && r.rows[j]["TELEFONO"] == Text(c.phone) && r.rows[j]["SERVICIO"] == service
           && r.rows[j]["NOMBRE"] == FirstName(Text(c.client))
           && r.rows[j]["MENSAJE"] == Message(FirstName(Text(c.client)), message, service)
  {
    var f := FilterByDay(data, day).value;
    SelectText(data, "DIAS", Text(day), GroupColumns);
    var p := ProcessData(f).value;
    ProcessRows(f);
    MessageOnGroupedRows(p, message);
  }

  /** Every user's table is a well-formed table whose grouping cells are text. */
  predicate EntriesValid(d: Dict<Table>)
  {
    forall k :: k in d.entries ==> d.entries[k].Valid() && TextIn(d.entries[k], GroupColumns)
  }

  /** ProcessOne for a fixed day and message, as a function of the user's table. */
  function Processor(day: string, message: string): Table --> Result<Table, Error>
  {
    (t: Table) requires t.Valid() && TextIn(t, GroupColumns) => ProcessOne(t, day, message)
  }

  /** Every user's table of a valid split is one the per-user step accepts. */
  lemma ProcessorAccepts(d: Dict<Table>, day: string, message: string)
    requires EntriesValid(d)
    ensures forall k :: k in d.entries ==> Processor(day, message).requires(d.entries[k])
  {
  }

  /** `process_data_by_type`: any failure is re-raised as a ValueError. */
  function ProcessByType(d: Dict<Table>, day: string, message: string): (r: Result<Dict<Table>, Error>)
    requires d.Valid() && EntriesValid(d)
    ensures r.Err? ==> r.error.Wrapped? && r.error.kind == ValueErrorType && r.error.stage == ByType
  {
    match MapPrefix(d, |d.keys|, Processor(day, message))
    case Err(e) => Err(Wrapped(ValueErrorType, ByType, e))
    case Ok(x) => Ok(x)
  }

  /** `process_data_by_type` succeeds exactly when every user's table does. */
  lemma ByTypeOk(d: Dict<Table>, day: string, message: string)
    requires d.Valid() && EntriesValid(d)
    ensures ProcessByType(d, day, message).Ok? <==>
      forall k :: k in d.entries ==> ProcessOne(d.entries[k], day, message).Ok?
  {
    var f := Processor(day, message);
    MapPrefixAllOk(d, f);
    forall k | k in d.entries ensures f(d.entries[k]) == ProcessOne(d.entries[k], day, message) {
    }
  }

  /** On success the users keep their order and each maps to its processed table. */
  lemma ByTypeEntries(d: Dict<Table>, day: string, message: string)
    requires d.Valid() && EntriesValid(d) && ProcessByType(d, day, message).Ok?
    ensures var r := ProcessByType(d, day, message).value;
      && r.Valid() && r.keys == d.keys
      && forall k :: k in r.entries ==>
           k in d.entries && ProcessOne(d.entries[k], day, message).Ok? &&
           r.entries[k] == ProcessOne(d.entries[k], day, message).value
  {
    MapPrefixEntries(d, |d.keys|, Processor(day, message));
    assert d.keys[..|d.keys|] == d.keys;
  }

  /** On failure the error re-raises that of the first user whose table fails. */
  lemma ByTypeFirstFailure(d: Dict<Table>, day: string, message: string)
    requires d.Valid() && EntriesValid(d) && ProcessByType(d, day, message).Err?
    ensures exists j: nat ::
      && j < |d.keys|
      && (forall i :: 0 <= i < j ==> ProcessOne(d.entries[d.keys[i]], day, message).Ok?)
      && ProcessOne(d.entries[d.keys[j]], day, message).Err?
      && ProcessByType(d, day, message).error == Wrapped(ValueErrorType, ByType, ProcessOne(d.entries[d.keys[j]], day, message).error)
  {
    var f := Processor(day, message);
    MapPrefixFirstFailure(d, |d.keys|, f);
    var j: nat :| j < |d.keys| && FailsFirstAt(d, f, j, MapPrefix(d, |d.keys|, f).error);
    forall i | 0 <= i < j ensures ProcessOne(d.entries[d.keys[i]], day, message).Ok? {
      assert f(d.entries[d.keys[i]]).Ok?;
    }
    var failed := d.entries[d.keys[j]];
    assert f(failed) == ProcessOne(failed, day, message);
    assert ProcessByType(d, day, message).error == Wrapped(ValueErrorType, ByType, ProcessOne(failed, day, message).error);
  }

  /**
   * The body of the loop of `process_data_by_type` for one user: its rows of
   * the day grouped (stored first), then the message column added in place.
   */
  method ProcessUser(data: Table, day: string, message: string) returns (r: Result<Table, Error>)
    requires data.Valid() && TextIn(data, GroupColumns)
    ensures r == ProcessOne(data, day, message)
  {
    var filtered := FilterByDay(data, day);
    if filtered.Err? {
      return filtered;
    }
    SelectText(data, "DIAS", Text(day), GroupColumns);
    var grouped := ProcessData(filtered.value);
    if grouped.Err? {
      return grouped;
    }
    var df := new Frame(grouped.value);
    MessageOnGrouped(grouped.value, message);
    var added := AddMessageColumn(df, message);
    return Ok(df.View());
  }

  /** The loop of `process_data_by_type` over the users in their order; any failure is re-raised. */
  method ProcessDataByType(d: Dict<Table>, day: string, message: string) returns (r: Result<Dict<Table>, Error>)
    requires d.Valid() && EntriesValid(d)
    ensures r == ProcessByType(d, day, message)
  {
    var step := Processor(day, message);
    ProcessorAccepts(d, day, message);
    var out := EmptyDict<Table>();
    var i := 0;
    while i < |d.keys|
      invariant 0 <= i <= |d.keys|
      invariant MapPrefix(d, i, step) == Ok(out)
    {
      var user := d.keys[i];
      assert user in d.entries;
      var processed := ProcessUser(d.entries[user], day, message);
      MapPrefixStep(d, i, step, out, processed);
      if processed.Err? {
        return Err(Wrapped(ValueErrorType, ByType, processed.error));
      }
      out := out.Put(user, processed.value);
      i := i + 1;
    }
    return Ok(out);
  }
}
