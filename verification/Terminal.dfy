/** The operations that end a query by asking for less than all of it: what they decide about the whole
  * result, and what they leave behind on the builder they ran on. */
module Terminals {
  import opened Schema
  import opened Driver
  import opened Plans
  import opened Join
  import opened Rerun
  import opened Success
  import opened Edges
  import opened Asked

  // ----- First and Only -----

  datatype NodeRun = NodeRun(plan: Plan, result: Result<Node, Error>)

  function FirstOf(p: Plan, d: Driver): NodeRun {
    var run := Exec(p.(limit := Some(1)), d);
    NodeRun(run.plan,
            match run.result
            case Err(e) => Err(e)
            case Ok(nodes) => if nodes == [] then Err(NotFound) else Ok(nodes[0]))
  }

  function OnlyOf(p: Plan, d: Driver): NodeRun {
    var run := Exec(p.(limit := Some(2)), d);
    NodeRun(run.plan,
            match run.result
            case Err(e) => Err(e)
            case Ok(nodes) =>
              if |nodes| == 1 then Ok(nodes[0])
              else if |nodes| == 0 then Err(NotFound)
              else Err(NotSingular))
  }

  // The rows the query would return without a limit.
  function AllRows(p: Plan, d: Driver): seq<Row> {
    Rows(d, SpecOf(Prepare(p.(limit := None)).plan))
  }

  lemma LimitedRows(p: Plan, d: Driver, limit: nat)
    requires limit > 0
    ensures Rows(d, SpecOf(Prepare(p.(limit := Some(limit))).plan)) == AllRows(p, d)[..Min(limit, |AllRows(p, d)|)]
    ensures Prepare(p.(limit := Some(limit))).error == Prepare(p.(limit := None)).error
  {
    PrepareAdds(p.(limit := Some(limit)));
    PrepareAdds(p.(limit := None));
    TraverseErrorSame(p.(limit := Some(limit)), p.(limit := None), p.inters);
  }

  // A limit that cuts nothing off changes nothing.
  lemma IdleLimit(p: Plan, d: Driver, limit: nat)
    requires limit > 0 && |AllRows(p, d)| <= limit
    ensures Exec(p.(limit := Some(limit)), d).result == Exec(p.(limit := None), d).result
  {
    LimitedRows(p, d, limit);
    PrepareAdds(p.(limit := Some(limit)));
    PrepareAdds(p.(limit := None));
    assert AllRows(p, d)[..Min(limit, |AllRows(p, d)|)] == AllRows(p, d);
  }

  lemma {:induction false} TraverseNotFound(p: Plan, inters: seq<Interceptor>)
    ensures var e := Traverse(p, inters).error; e.Some? ==> !e.value.NotFound? && !e.value.NotSingular?
    decreases |inters|
  {
    if inters != [] {
      match inters[0] {
        case Traverser(adds) => TraverseNotFound(p.(predicates := p.predicates + adds), inters[1..]);
        case Wrapper => TraverseNotFound(p, inters[1..]);
        case _ =>
      }
    }
  }

  // Running a query never reports a count.
  lemma {:induction false} ExecNotFound(p: Plan, d: Driver)
    ensures var r := Exec(p, d).result; r.Err? ==> !r.error.NotFound? && !r.error.NotSingular?
    decreases Size(p)
  {
    PrepareAdds(p);
    TraverseNotFound(p, p.inters);
    LoadKidsNotFound(p.kids, d, Bare(Rows(d, SpecOf(Prepare(p).plan)), KidEdges(p.kids)));
  }

  lemma {:induction false} LoadKidsNotFound(ks: Kids, d: Driver, nodes: seq<Node>)
    ensures var r := LoadKids(ks, d, nodes).result; r.Err? ==> !r.error.NotFound? && !r.error.NotSingular?
    decreases KidsSize(ks)
  {
    match ks {
      case NoKids =>
      case Kid(e, child, rest) =>
        var r := Restrict(e, child, SentKeys(e, nodes));
        ExecNotFound(r, d);
        if Exec(r, d).result.Ok? {
          LoadKidsNotFound(rest, d, Attach(e, nodes, Exec(r, d).result.value));
        }
    }
  }

  // Only, which looks at two rows at most, decides how many rows there are in all: it returns a node
  // exactly when the query without a limit returns that node alone, not-found exactly when it returns
  // nothing, and not-singular exactly when there are more rows and the first two load.
  lemma OnlyExact(p: Plan, d: Driver)
    ensures forall n :: OnlyOf(p, d).result == Ok(n) <==> Exec(p.(limit := None), d).result == Ok([n])
    ensures OnlyOf(p, d).result == Err(NotFound) <==> Exec(p.(limit := None), d).result == Ok([])
    ensures OnlyOf(p, d).result == Err(NotSingular)
       <==> |AllRows(p, d)| >= 2 && Exec(p.(limit := Some(2)), d).result.Ok?
  {
    var two, all := Exec(p.(limit := Some(2)), d).result, Exec(p.(limit := None), d).result;
    ExecNotFound(p.(limit := Some(2)), d);
    LimitedRows(p, d, 2);
    if two.Ok? {
      ExecRows(p.(limit := Some(2)), d);
    }
    if all.Ok? {
      ExecRows(p.(limit := None), d);
    }
    if |AllRows(p, d)| <= 2 {
      IdleLimit(p, d, 2);
    }
    forall n ensures OnlyOf(p, d).result == Ok(n) <==> all == Ok([n]) {
      assert all == Ok([n]) ==> |all.value| == 1;
      assert all.Ok? && |all.value| == 1 ==> all.value == [all.value[0]];
    }
  }

  // A limit makes no run fail, and cuts the whole result.
  lemma LimitIsPrefix(p: Plan, d: Driver, limit: nat)
    requires Permutes(d) && Keyed(d)
    requires WellFormed(p.table, p.kids) && UnwindowedKids(p.kids)
    requires limit > 0 && Exec(p.(limit := None), d).result.Ok?
    ensures var all, some := Exec(p.(limit := None), d).result.value, Exec(p.(limit := Some(limit)), d).result;
            some == Ok(all[..Min(limit, |all|)])
  {
    hide Exec, NodeByKey, Filter;
    var some, all := p.(limit := Some(limit)), p.(limit := None);
    LimitedRuns(p, d, limit);
    ExecByKey(some, d);
    ExecByKey(all, d);
    PrepareAdds(some);
    PrepareAdds(all);
    var rows := Selected(d, SpecOf(Prepare(all).plan));
    assert Matching(d, SpecOf(Prepare(some).plan)) == Matching(d, SpecOf(Prepare(all).plan));
    assert Selected(d, SpecOf(Prepare(some).plan)) == rows[..Min(limit, |rows|)];
    forall row ensures NodeByKey(some, d, row) == NodeByKey(all, d, row) {
      ByKeyIgnoresLimit(some, all, d, row);
    }
    assert AllByKey(some, d) == AllByKey(all, d)[..Min(limit, |rows|)];
  }

  lemma LimitedRuns(p: Plan, d: Driver, limit: nat)
    requires Permutes(d) && WellFormed(p.table, p.kids) && UnwindowedKids(p.kids)
    requires limit > 0 && Exec(p.(limit := None), d).result.Ok?
    ensures Exec(p.(limit := Some(limit)), d).result.Ok?
  {
    hide Exec, Rows, Prepare;
    LimitedRows(p, d, limit);
    NarrowerRuns(p.(limit := None), p.(limit := Some(limit)), d);
  }

  lemma ByKeyIgnoresLimit(p: Plan, q: Plan, d: Driver, row: Row)
    requires p.table == q.table && p.fields == q.fields && p.kids == q.kids
    ensures NodeByKey(p, d, row) == NodeByKey(q, d, row)
  {
  }

  // First returns the head of the whole result.
  lemma FirstIsHead(p: Plan, d: Driver)
    requires Permutes(d) && Keyed(d)
    requires WellFormed(p.table, p.kids) && UnwindowedKids(p.kids)
    requires Exec(p.(limit := None), d).result.Ok?
    ensures var all := Exec(p.(limit := None), d).result.value;
            FirstOf(p, d).result == if all == [] then Err(NotFound) else Ok(all[0])
  {
    hide Exec;
    LimitIsPrefix(p, d, 1);
  }

  // The rows without a limit are those the query chooses, cut down to the columns fetched.
  lemma AllRowsAre(p: Plan, d: Driver)
    requires Permutes(d) && Keyed(d)
    ensures AllRows(p, d) == ProjectAll(Chosen(p.(limit := None), d), SpecColumns(p.table, p.fields, p.kids))
  {
    hide Rows, Selected, Chosen, SpecColumns;
    var all := p.(limit := None);
    PrepareAdds(all);
    ColumnsCarryId(all.table, all.fields, all.kids);
    RowsAreProjections(d, SpecOf(Prepare(all).plan));
    ChosenIs(all, d);
  }

  // First and Only fail as their run does. Otherwise First finds nothing exactly when the query without a limit
  // chooses no row.
  lemma FirstFails(p: Plan, d: Driver)
    ensures var one := Exec(p.(limit := Some(1)), d).result;
            if one.Err? then FirstOf(p, d).result == Err(one.error)
            else if AllRows(p, d) == [] then FirstOf(p, d).result == Err(NotFound)
            else one.value != [] && FirstOf(p, d).result == Ok(one.value[0])
    ensures var two := Exec(p.(limit := Some(2)), d).result; two.Err? ==> OnlyOf(p, d).result == Err(two.error)
  {
    hide Exec, Rows;
    LimitedRows(p, d, 1);
    if Exec(p.(limit := Some(1)), d).result.Ok? {
      ExecRows(p.(limit := Some(1)), d);
    }
  }

  // First and Only leave their limit behind: running the same builder again returns what they saw, which is
  // the whole result exactly when that has no more rows.
  lemma AllAfterLimit(p: Plan, d: Driver, limit: nat)
    requires limit > 0 && Exec(p.(limit := None), d).result.Ok? && Exec(p.(limit := Some(limit)), d).result.Ok?
    ensures var again := Exec(Exec(p.(limit := Some(limit)), d).plan, d).result;
            && again == Exec(p.(limit := Some(limit)), d).result
            && (again == Exec(p.(limit := None), d).result <==> |AllRows(p, d)| <= limit)
  {
    hide Exec, Rows;
    var some := p.(limit := Some(limit));
    RerunIsStable(some, d, 1);
    assert After(some, d, 1) == Exec(After(some, d, 0), d).plan;
    ExecRows(some, d);
    ExecRows(p.(limit := None), d);
    LimitedRows(p, d, limit);
    if |AllRows(p, d)| <= limit {
      IdleLimit(p, d, limit);
    }
  }

  lemma AllAfterFirst(p: Plan, d: Driver)
    requires Exec(p.(limit := None), d).result.Ok? && Exec(p.(limit := Some(1)), d).result.Ok?
    ensures var again := Exec(FirstOf(p, d).plan, d).result;
            && again == Exec(p.(limit := Some(1)), d).result
            && (again == Exec(p.(limit := None), d).result <==> |AllRows(p, d)| <= 1)
  {
    hide Exec;
    AllAfterLimit(p, d, 1);
  }

  lemma AllAfterOnly(p: Plan, d: Driver)
    requires Exec(p.(limit := None), d).result.Ok? && Exec(p.(limit := Some(2)), d).result.Ok?
    ensures var again := Exec(OnlyOf(p, d).plan, d).result;
            && again == Exec(p.(limit := Some(2)), d).result
            && (again == Exec(p.(limit := None), d).result <==> |AllRows(p, d)| <= 2)
  {
    hide Exec;
    AllAfterLimit(p, d, 2);
  }

  // ----- IDs and Exist -----

  const MAX_INT32: nat := 2147483647

  datatype IdsRun = IdsRun(plan: Plan, result: Result<seq<Uuid>, Error>)

  // The rows of the plain SELECT of the chosen columns. An offset brings a limit of its own.
  function SelectRows(matching: seq<Row>, columns: seq<Column>, unique: bool, offset: Option<nat>, limit: Option<nat>): seq<Row> {
    var rows := ProjectAll(matching, columns);
    var distinct := if unique then Distinct(rows) else rows;
    var rest := distinct[Min(if offset.Some? then offset.value else 0, |distinct|)..];
    if limit.Some? then rest[..Min(limit.value, |rest|)]
    else if offset.Some? then rest[..Min(MAX_INT32, |rest|)]
    else rest
  }

  function RowIds(rows: seq<Row>): seq<Uuid> {
    seq(|rows|, i requires 0 <= i < |rows| => ReadUuid(rows[i], Id))
  }

  function IdsOf(p: Plan, d: Driver): IdsRun {
    var prepared := Prepare(p.(fields := p.fields + [Id]));
    var q := prepared.plan;
    IdsRun(q,
           if prepared.error.Some? then Err(prepared.error.value)
           else if !d.reachable(q.table) then Err(DriverFailed)
           else if !d.scansIds(q.fields) then Err(ScanMismatch)
           else Ok(RowIds(SelectRows(Matching(d, SpecOf(q)), q.fields, q.unique == Some(true), q.offset, q.limit))))
  }

  datatype ExistRun = ExistRun(plan: Plan, result: Result<bool, Error>)

  function ExistOf(p: Plan, d: Driver): ExistRun {
    var ids := IdsOf(p.(limit := Some(1)), d);
    ExistRun(ids.plan,
             match ids.result
             case Err(e) => if e.NotFound? then Ok(false) else Err(e)
             case Ok(found) => Ok(found != []))
  }

  // Exist answers whether the query without a limit, whatever it eager-loads, returns a row.
  lemma ExistExact(p: Plan, d: Driver)
    requires Permutes(d) && Keyed(d)
    requires ExistOf(p, d).result.Ok?
    ensures ExistOf(p, d).result.value <==> AllRows(p, d) != []
  {
    var all, one := p.(limit := None), p.(limit := Some(1), fields := p.fields + [Id]);
    PrepareAdds(all);
    PrepareAdds(one);
    TraverseNotFound(one, one.inters);
    var q := Prepare(one).plan;
    assert Matching(d, SpecOf(q)) == Matching(d, SpecOf(Prepare(all).plan));
    ColumnsCarryId(all.table, all.fields, all.kids);
    SameCount(d, SpecOf(q), p.fields + [Id]);
    SameCount(d, SpecOf(Prepare(all).plan), SpecOf(all).columns);
  }

  // The ids are those of the rows that the query wants, in its order, from its offset on and no more than its limit,
  // where a limit of zero is one, and without a limit an offset brings the greatest one of 32 bits.
  lemma IdsAre(p: Plan, d: Driver)
    requires Permutes(d) && Keyed(d) && IdsOf(p, d).result.Ok?
    ensures var rows := d.arrange(p.order, Filter(d.tables(p.table), Wanted(p)));
            var rest := rows[Min(if p.offset.Some? then p.offset.value else 0, |rows|)..];
            var most := if p.limit.Some? then p.limit.value else if p.offset.Some? then 2147483647 else |rest|;
            var ids := IdsOf(p, d).result.value;
            |ids| == Min(most, |rest|) && forall i | 0 <= i < |ids| :: Id in rest[i] && rest[i][Id] == UuidV(ids[i])
  {
    hide Filter, SpecColumns, Distinct, Matching, Prepare, SelectRows;
    var q := p.(fields := p.fields + [Id]);
    PrepareAdds(q);
    var spec := SpecOf(Prepare(q).plan);
    MatchingIs(q, d);
    MatchingKeyed(d, spec, Id);
    assert Id in q.fields by { assert q.fields[|p.fields|] == Id; }
    KeptApart(Matching(d, spec), q.fields);
    SelectedRows(Matching(d, spec), q.fields, p.unique == Some(true), p.offset, p.limit);
  }

  lemma MatchingIs(p: Plan, d: Driver)
    ensures Matching(d, SpecOf(Prepare(p).plan)) == d.arrange(p.order, Filter(d.tables(p.table), Wanted(p)))
  {
    hide Filter, SpecColumns;
    PrepareAdds(p);
  }

  // Rows with different ids stay different when they are cut down to columns with the id.
  lemma KeptApart(rows: seq<Row>, columns: seq<Column>)
    requires KeyColumn(rows, Id) && Id in columns
    ensures Distinct(ProjectAll(rows, columns)) == ProjectAll(rows, columns)
  {
    hide Distinct;
    var projected := ProjectAll(rows, columns);
    forall i, j | 0 <= i < j < |projected| ensures projected[i] != projected[j] {
      assert projected[i][Id] == rows[i][Id] && projected[j][Id] == rows[j][Id];
    }
    DistinctUnrepeated(projected);
  }

  lemma SelectedRows(rows: seq<Row>, columns: seq<Column>, unique: bool, offset: Option<nat>, limit: Option<nat>)
    requires Distinct(ProjectAll(rows, columns)) == ProjectAll(rows, columns)
    ensures var rest := rows[Min(if offset.Some? then offset.value else 0, |rows|)..];
            var most := if limit.Some? then limit.value else if offset.Some? then 2147483647 else |rest|;
            var r := SelectRows(rows, columns, unique, offset, limit);
            |r| == Min(most, |rest|) && forall i | 0 <= i < |r| :: r[i] == Project(rest[i], columns)
  {
    hide Distinct, Project;
  }

  // Reading ids fails with the problem of the query, or because its table does not answer, or because the selected
  // fields do not scan into ids; and Exist fails as reading one id does.
  lemma IdsFail(p: Plan, d: Driver)
    ensures forall error | Problem(p, error) :: IdsOf(p, d).result == Err(error)
    ensures Ready(p) ==>
              IdsOf(p, d).result.Err? ==>
                IdsOf(p, d).result.error == if d.reachable(p.table) then ScanMismatch else DriverFailed
    ensures Ready(p) ==> (IdsOf(p, d).result.Ok? <==> d.reachable(p.table) && d.scansIds(p.fields + [Id]))
    ensures var one := IdsOf(p.(limit := Some(1)), d).result; one.Err? ==> ExistOf(p, d).result == Err(one.error)
  {
    hide TableColumns, Matching, SelectRows, RowIds, SpecOf, Problem, Traverse, InvalidFields;
    PreparedWithId(p);
    ReadyExactly(p);
    forall error | Problem(p, error) ensures IdsOf(p, d).result == Err(error) {
      PrepareFails(p, error);
    }
    var one := p.(limit := Some(1), fields := p.fields + [Id]);
    TraverseNotFound(one, one.inters);
  }

  // Projection and DISTINCT keep the number of rows when the primary key is projected.
  lemma SameCount(d: Driver, spec: QuerySpec, columns: seq<Column>)
    requires Permutes(d) && Keyed(d) && Id in columns
    ensures |Distinct(ProjectAll(Matching(d, spec), columns))| == |Matching(d, spec)|
  {
    var rows := ProjectAll(Matching(d, spec), columns);
    MatchingKeyed(d, spec, Id);
    forall i, j | 0 <= i < j < |rows| ensures rows[i] != rows[j] {
      assert rows[i][Id] == Matching(d, spec)[i][Id] && rows[j][Id] == Matching(d, spec)[j][Id];
    }
    DistinctUnrepeated(rows);
  }

  // Only single columns scan into a list of ids.
  ghost predicate ScansOneColumn(d: Driver) {
    forall columns :: d.scansIds(columns) <==> |columns| == 1
  }

  // The operations on ids add the id to the selected fields of the builder, so they work on it exactly
  // when nothing was selected before, and not a second time, in whatever order they are called.
  lemma IdsOnce(p: Plan, d: Driver)
    requires ScansOneColumn(d) && d.reachable(p.table)
    requires Prepare(p).error.None?
    ensures IdsOf(p, d).result.Ok? <==> p.fields == []
    ensures IdsOf(IdsOf(p, d).plan, d).result == Err(ScanMismatch)
    ensures ExistOf(IdsOf(p, d).plan, d).result == Err(ScanMismatch)
  {
    hide IdsOf, ExistOf, Prepare, ScansOneColumn;
    IdsRuns(p, d);
    IdsRuns(IdsOf(p, d).plan, d);
    ExistRuns(IdsOf(p, d).plan, d);
  }

  lemma ExistOnce(p: Plan, d: Driver)
    requires ScansOneColumn(d) && d.reachable(p.table)
    requires Prepare(p).error.None?
    ensures ExistOf(p, d).result.Ok? <==> p.fields == []
    ensures ExistOf(ExistOf(p, d).plan, d).result == Err(ScanMismatch)
    ensures IdsOf(ExistOf(p, d).plan, d).result == Err(ScanMismatch)
  {
    hide IdsOf, ExistOf, Prepare, ScansOneColumn;
    ExistRuns(p, d);
    ExistRuns(ExistOf(p, d).plan, d);
    IdsRuns(ExistOf(p, d).plan, d);
  }

  // One run for ids, and the builder it leaves.
  lemma IdsRuns(p: Plan, d: Driver)
    requires ScansOneColumn(d) && d.reachable(p.table) && Prepare(p).error.None?
    ensures var r := IdsOf(p, d);
            && (r.result.Ok? <==> p.fields == []) && (r.result.Err? ==> r.result.error == ScanMismatch)
            && r.plan.fields == p.fields + [Id] && r.plan.table == p.table && Prepare(r.plan).error.None?
  {
    hide TableColumns, SelectRows, Matching, RowIds, SpecOf, InvalidFields, Traverse;
    PreparedWithId(p);
    var q := p.(fields := p.fields + [Id]);
    TraverseErrorSame(q, IdsOf(p, d).plan, p.inters);
  }

  lemma ExistRuns(p: Plan, d: Driver)
    requires ScansOneColumn(d) && d.reachable(p.table) && Prepare(p).error.None?
    ensures var r := ExistOf(p, d);
            && (r.result.Ok? <==> p.fields == []) && (r.result.Err? ==> r.result.error == ScanMismatch)
            && r.plan.fields == p.fields + [Id] && r.plan.table == p.table && Prepare(r.plan).error.None?
  {
    hide IdsOf, ScansOneColumn;
    var one := p.(limit := Some(1));
    TraverseErrorSame(p, one, p.inters);
    IdsRuns(one, d);
  }

  // What a run for ids leaves behind: running the builder again returns the same nodes with the same edges, but
  // of each row only the id and what was selected or is needed for an edge.
  lemma AllAfterIds(p: Plan, d: Driver)
    requires Permutes(d) && Keyed(d) && WellFormed(p.table, p.kids) && Exec(p, d).result.Ok?
    ensures Exec(IdsOf(p, d).plan, d).result.Ok?
    ensures var all, again := Exec(p, d).result.value, Exec(IdsOf(p, d).plan, d).result.value;
            && |again| == |all|
            && forall i | 0 <= i < |all| ::
                 again[i].edges == all[i].edges
                 && again[i].row == Project(all[i].row, SpecColumns(p.table, p.fields + [Id], p.kids))
  {
    hide Exec, SpecColumns, TableColumns, Rows, Prepare;
    var q := p.(fields := p.fields + [Id]);
    SelectedBelong(p, d);
    TablesHaveId(p.table);
    FieldsKeepEdges(p, q.fields, d);
    IdsLeaveThat(p, d);
    CutRows(p, d);
    ExecRows(p, d);
    ExecRows(q, d);
  }

  // Exist leaves a limit of one as well: the builder then returns at most the first node, cut in the same way.
  lemma AllAfterExist(p: Plan, d: Driver)
    requires Permutes(d) && Keyed(d)
    requires WellFormed(p.table, p.kids) && UnwindowedKids(p.kids) && Exec(p.(limit := None), d).result.Ok?
    ensures Exec(ExistOf(p, d).plan, d).result.Ok?
    ensures var all, again := Exec(p.(limit := None), d).result.value, Exec(ExistOf(p, d).plan, d).result.value;
            && |again| == Min(1, |all|)
            && (again != [] ==>
                  again[0].edges == all[0].edges
                  && again[0].row == Project(all[0].row, SpecColumns(p.table, p.fields + [Id], p.kids)))
  {
    hide Exec, SpecColumns, IdsOf;
    LimitIsPrefix(p, d, 1);
    AllAfterIds(p.(limit := Some(1)), d);
  }

  lemma SelectedBelong(p: Plan, d: Driver)
    requires Exec(p, d).result.Ok?
    ensures forall c | c in p.fields :: c in TableColumns(p.table)
  {
    hide Exec, TableColumns;
    RunStep(p, d);
  }

  // Preparing a query adds its traversers' predicates, and running it then adds them again.
  lemma IdsLeaveThat(p: Plan, d: Driver)
    ensures Exec(IdsOf(p, d).plan, d).result == Exec(p.(fields := p.fields + [Id]), d).result
  {
    hide Exec, SpecColumns, TableColumns, SelectRows, RowIds, Matching, Rows;
    var q := p.(fields := p.fields + [Id]);
    PrepareAdds(q);
    WantedAgain(q, d);
    KidsStableSelf(q.kids, d, Bare(Rows(d, SpecOf(Prepare(q).plan)), KidEdges(q.kids)));
    assert Stable(q, IdsOf(p, d).plan, d);
    StableRun(q, IdsOf(p, d).plan, d);
  }

  lemma CutRows(p: Plan, d: Driver)
    requires Permutes(d) && Keyed(d) && WellFormed(p.table, p.kids)
    ensures var q := p.(fields := p.fields + [Id]);
            var all, cut := Rows(d, SpecOf(Prepare(p).plan)), Rows(d, SpecOf(Prepare(q).plan));
            && |cut| == |all|
            && forall i | 0 <= i < |all| :: cut[i] == Project(all[i], SpecColumns(p.table, p.fields + [Id], p.kids))
  {
    hide Rows, Filter, TableColumns, SpecColumns, CarryKeys;
    var q := p.(fields := p.fields + [Id]);
    FetchedRows(p, d);
    FetchedRows(q, d);
    PrepareAdds(p);
    PrepareAdds(q);
    assert Selected(d, SpecOf(Prepare(p).plan)) == Selected(d, SpecOf(Prepare(q).plan));
    var rows, columns, some := Selected(d, SpecOf(Prepare(p).plan)), SpecColumns(p.table, p.fields, p.kids),
                               SpecColumns(q.table, q.fields, q.kids);
    FewerColumns(p.table, p.fields, p.kids);
    forall row ensures Project(Project(row, columns), some) == Project(row, some) {}
  }

  // Once the id is selected, no column is fetched that was not fetched before.
  lemma FewerColumns(table: Table, fields: seq<Column>, ks: Kids)
    requires WellFormed(table, ks)
    ensures forall c | c in SpecColumns(table, fields + [Id], ks) :: c in SpecColumns(table, fields, ks)
  {
    hide TableColumns, Source, Target;
    WithoutIdAgain(fields);
    if fields == [] {
      TablesHaveId(table);
      assert WithoutId([Id]) == [] by { assert [Id][1..] == []; }
      assert [Id] + [] == [Id];
      KeysBelong(table, [Id], ks);
    }
  }

  lemma {:induction false} WithoutIdAgain(fields: seq<Column>)
    ensures WithoutId(fields + [Id]) == WithoutId(fields)
  {
    if fields == [] {
      assert (fields + [Id])[1..] == [];
    } else {
      assert (fields + [Id])[1..] == fields[1..] + [Id];
      WithoutIdAgain(fields[1..]);
    }
  }

  lemma {:induction false} KeysBelong(table: Table, columns: seq<Column>, ks: Kids)
    requires WellFormed(table, ks) && forall c | c in columns :: c in TableColumns(table)
    ensures forall c | c in AddKeys(columns, ks) :: c in TableColumns(table)
    decreases ks
  {
    hide TableColumns, Source, Target, OwnColumn;
    if ks.Kid? {
      OwnColumnBelongs(ks.edge);
      KeysBelong(table, if KeyOnTarget(ks.edge) then columns else AddOnce(columns, OwnColumn(ks.edge)), ks.rest);
    }
  }

  lemma {:induction false} InvalidFieldsAppend(table: Table, fields: seq<Column>, c: Column)
    ensures InvalidFields(table, fields + [c])
         == InvalidFields(table, fields) + if c in TableColumns(table) then [] else [c]
  {
    hide TableColumns;
    if fields == [] {
      assert InvalidFields(table, []) == [];
      assert (fields + [c])[1..] == [];
    } else {
      assert (fields + [c])[1..] == fields[1..] + [c];
      InvalidFieldsAppend(table, fields[1..], c);
    }
  }

  lemma PreparedWithId(p: Plan)
    ensures var q := p.(fields := p.fields + [Id]);
            Prepare(q).error == Prepare(p).error && Prepare(q).plan == q.(predicates := Wanted(p))
  {
    var q := p.(fields := p.fields + [Id]);
    PrepareAdds(q);
    TablesHaveId(p.table);
    InvalidFieldsAppend(p.table, p.fields, Id);
    TraverseErrorSame(p, q, p.inters);
  }
}
