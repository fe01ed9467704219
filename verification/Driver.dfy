/** The executor the query builders hand their specification to: it filters, arranges, projects,
  * de-duplicates and truncates, and nothing else is known of it. */
module Driver {
  import opened Schema

  datatype Error =
    | InvalidField(column: Column)
    | UninitializedInterceptor
    | TraverserRefused(reason: nat)
    | DriverFailed
    | UnexpectedForeignKey(edge: Edge, key: Uuid)
    | NotFound
    | NotSingular
    | NotLoaded
    | ScanMismatch

  datatype Predicate =
    | In(column: Column, values: seq<Uuid>)
    | Where(holds: Row -> bool)

  type OrderTerm = nat

  datatype QuerySpec = QuerySpec(
    table: Table,
    columns: seq<Column>,
    predicates: seq<Predicate>,
    order: seq<OrderTerm>,
    unique: bool,
    offset: nat,
    limit: nat)  // zero is no limit

  datatype Driver = Driver(
    tables: Table -> seq<Row>,
    arrange: (seq<OrderTerm>, seq<Row>) -> seq<Row>,
    reachable: Table -> bool,
    scansIds: seq<Column> -> bool)  // may rows of these columns be scanned into a list of ids?

  // Ordering terms only reorder.
  ghost predicate Permutes(d: Driver) {
    forall order, rows :: multiset(d.arrange(order, rows)) == multiset(rows)
  }

  // SQL's IN: NULL is in no list.
  predicate Holds(p: Predicate, row: Row) {
    match p
    case In(column, values) => column in row && row[column].UuidV? && row[column].uuid in values
    case Where(holds) => holds(row)
  }

  predicate AllHold(ps: seq<Predicate>, row: Row) {
    forall i | 0 <= i < |ps| :: Holds(ps[i], row)
  }

  function Filter(rows: seq<Row>, ps: seq<Predicate>): seq<Row> {
    if rows == [] then []
    else (if AllHold(ps, rows[0]) then [rows[0]] else []) + Filter(rows[1..], ps)
  }

  function Project(row: Row, columns: seq<Column>): Row {
    map c | c in columns && c in row :: row[c]
  }

  function ProjectAll(rows: seq<Row>, columns: seq<Column>): seq<Row> {
    seq(|rows|, i requires 0 <= i < |rows| => Project(rows[i], columns))
  }

  // DISTINCT: the first of each group of equal rows.
  function Distinct(rows: seq<Row>): seq<Row> {
    if rows == [] then []
    else
      var rest := Distinct(rows[..|rows| - 1]);
      if rows[|rows| - 1] in rest then rest else rest + [rows[|rows| - 1]]
  }

  function Min(a: nat, b: nat): nat {
    if a < b then a else b
  }

  function Window<T>(rows: seq<T>, offset: nat, limit: nat): seq<T> {
    var rest := rows[Min(offset, |rows|)..];
    if limit == 0 then rest else rest[..Min(limit, |rest|)]
  }

  function Matching(d: Driver, spec: QuerySpec): seq<Row> {
    d.arrange(spec.order, Filter(d.tables(spec.table), spec.predicates))
  }

  function Rows(d: Driver, spec: QuerySpec): seq<Row> {
    var rows := ProjectAll(Matching(d, spec), spec.columns);
    Window(if spec.unique then Distinct(rows) else rows, spec.offset, spec.limit)
  }

  function QueryNodes(d: Driver, spec: QuerySpec): Result<seq<Row>, Error> {
    if d.reachable(spec.table) then Ok(Rows(d, spec)) else Err(DriverFailed)
  }

  lemma {:induction false} FilterMembers(rows: seq<Row>, ps: seq<Predicate>, row: Row)
    ensures row in Filter(rows, ps) <==> row in rows && AllHold(ps, row)
  {
    if rows != [] {
      assert row in rows <==> row == rows[0] || row in rows[1..];
      FilterMembers(rows[1..], ps, row);
    }
  }

  // Filtering keeps the rows that satisfy the predicates in their order.
  lemma {:induction false} FilterAppend(rows: seq<Row>, row: Row, ps: seq<Predicate>)
    ensures Filter(rows + [row], ps) == Filter(rows, ps) + if AllHold(ps, row) then [row] else []
  {
    if rows == [] {
      assert (rows + [row])[1..] == [];
    } else {
      assert (rows + [row])[1..] == rows[1..] + [row];
      FilterAppend(rows[1..], row, ps);
    }
  }

  // Filtering reads no more of the predicates than which rows satisfy them all.
  lemma {:induction false} FilterSame(rows: seq<Row>, ps: seq<Predicate>, qs: seq<Predicate>)
    requires forall row | row in rows :: AllHold(ps, row) <==> AllHold(qs, row)
    ensures Filter(rows, ps) == Filter(rows, qs)
  {
    if rows != [] {
      assert forall row | row in rows[1..] :: row in rows;
      FilterSame(rows[1..], ps, qs);
    }
  }

  // The rows that match are the rows of the table that satisfy the predicates, in some order.
  lemma MatchingMembers(d: Driver, spec: QuerySpec, row: Row)
    requires Permutes(d)
    ensures row in Matching(d, spec) <==> row in d.tables(spec.table) && AllHold(spec.predicates, row)
  {
    var rows := Filter(d.tables(spec.table), spec.predicates);
    assert multiset(d.arrange(spec.order, rows)) == multiset(rows);
    assert row in Matching(d, spec) <==> row in multiset(Matching(d, spec));
    FilterMembers(d.tables(spec.table), spec.predicates, row);
  }

  lemma {:induction false} DistinctMembers(rows: seq<Row>, row: Row)
    ensures row in Distinct(rows) <==> row in rows
  {
    if rows != [] {
      var n := |rows| - 1;
      assert rows == rows[..n] + [rows[n]];
      DistinctMembers(rows[..n], row);
      DistinctMembers(rows[..n], rows[n]);
    }
  }

  // DISTINCT drops nothing when no row is repeated.
  lemma {:induction false} DistinctUnrepeated(rows: seq<Row>)
    requires forall i, j | 0 <= i < j < |rows| :: rows[i] != rows[j]
    ensures Distinct(rows) == rows
  {
    if rows != [] {
      var n := |rows| - 1;
      DistinctUnrepeated(rows[..n]);
      assert rows == rows[..n] + [rows[n]];
    }
  }
}
