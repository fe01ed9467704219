/** What each setting of a query comes to in the run: the rows, columns and edges of the nodes, and the error of a run
  * that fails. Nothing here is stated through the specification that the run is executed with. */
module Asked {
  import opened Schema
  import opened Driver
  import opened Plans
  import opened Join
  import opened Rerun
  import opened Success

  // ----- columns -----

  // A run fetches the whole row, or the fields selected with the id and the keys of the requested edges.
  ghost predicate Fetched(p: Plan, c: Column) {
    if p.fields == [] then c in TableColumns(p.table)
    else
      || c == Id || c in p.fields
      || exists e :: e in KidEdges(p.kids) && !KeyOnTarget(e) && c == OwnColumn(e)
  }

  lemma {:induction false} WithoutIdIs(fields: seq<Column>, c: Column)
    ensures c in WithoutId(fields) <==> c in fields && c != Id
  {
    if fields != [] {
      WithoutIdIs(fields[1..], c);
    }
  }

  lemma {:induction false} AddKeysIs(columns: seq<Column>, ks: Kids, c: Column)
    ensures c in AddKeys(columns, ks) <==>
              c in columns || exists e :: e in KidEdges(ks) && !KeyOnTarget(e) && c == OwnColumn(e)
    decreases ks
  {
    hide OwnColumn;
    if ks.Kid? {
      AddKeysIs(if KeyOnTarget(ks.edge) then columns else AddOnce(columns, OwnColumn(ks.edge)), ks.rest, c);
      assert forall e :: e in KidEdges(ks) <==> e == ks.edge || e in KidEdges(ks.rest);
    }
  }

  lemma ColumnsFetched(p: Plan, c: Column)
    ensures c in SpecColumns(p.table, p.fields, p.kids) <==> Fetched(p, c)
  {
    hide TableColumns, OwnColumn;
    AddKeysIs([Id] + WithoutId(p.fields), p.kids, c);
    WithoutIdIs(p.fields, c);
  }

  // ----- rows -----

  lemma {:induction false} LoadsKeepLoaded(ks: Kids, d: Driver, nodes: seq<Node>)
    requires LoadKids(ks, d, nodes).result.Ok?
    ensures var loaded := LoadKids(ks, d, nodes).result.value;
            |loaded| == |nodes| && forall i | 0 <= i < |nodes| :: loaded[i].loaded == nodes[i].loaded
    decreases KidsSize(ks)
  {
    if ks.Kid? {
      var far := Exec(Restrict(ks.edge, ks.child, SentKeys(ks.edge, nodes)), d).result.value;
      LoadsKeepLoaded(ks.rest, d, Attach(ks.edge, nodes, far));
    }
  }

  // Every node of a run knows exactly the edges asked for as loaded.
  lemma RunLoaded(p: Plan, d: Driver)
    requires Exec(p, d).result.Ok?
    ensures forall i | 0 <= i < |Exec(p, d).result.value| :: Exec(p, d).result.value[i].loaded == KidEdges(p.kids)
  {
    hide LoadKids, Rows;
    ExecLoads(p, d);
    var rows := Rows(d, SpecOf(Prepare(p).plan));
    if rows != [] {
      LoadsKeepLoaded(p.kids, d, Bare(rows, KidEdges(p.kids)));
    }
  }

  // A run returns a node for each row chosen, in their order, with the columns fetched and nothing else.
  lemma RunReads(p: Plan, d: Driver)
    requires Permutes(d) && Keyed(d) && WellFormed(p.table, p.kids) && Exec(p, d).result.Ok?
    ensures var rows, nodes := Chosen(p, d), Exec(p, d).result.value;
            && |nodes| == |rows|
            && forall i, c | 0 <= i < |rows| ::
                 && (c in nodes[i].row <==> c in rows[i] && Fetched(p, c))
                 && (c in nodes[i].row ==> nodes[i].row[c] == rows[i][c])
  {
    hide Exec, Rows, Selected, Chosen, Fetched, SpecColumns, KidEdges;
    ExecRows(p, d);
    FetchedRows(p, d);
    ChosenIs(p, d);
    PrepareAdds(p);
    forall c ensures c in SpecColumns(p.table, p.fields, p.kids) <==> Fetched(p, c) {
      ColumnsFetched(p, c);
    }
  }

  // The rows wanted satisfy the predicates of the query and those that each of its traversers adds.
  lemma {:induction false} AddsHold(inters: seq<Interceptor>, row: Row)
    requires forall i | 0 <= i < |inters| :: !inters[i].Uninitialized? && !inters[i].Refusing?
    ensures AllHold(Adds(inters), row) <==>
              forall i | 0 <= i < |inters| && inters[i].Traverser? :: AllHold(inters[i].adds, row)
  {
    hide AllHold;
    if inters == [] {
      assert AllHold([], row) by { NothingHolds(row); }
    } else {
      AddsHold(inters[1..], row);
      assert forall i | 1 <= i < |inters| :: inters[i] == inters[1..][i - 1];
      if inters[0].Traverser? {
        AllHoldAppend(inters[0].adds, Adds(inters[1..]), row);
      }
    }
  }

  lemma NothingHolds(row: Row)
    ensures AllHold([], row)
  {
  }

  lemma WantedHold(p: Plan, row: Row)
    requires Ready(p)
    ensures AllHold(Wanted(p), row) <==>
              && AllHold(p.predicates, row)
              && forall i | 0 <= i < |p.inters| && p.inters[i].Traverser? :: AllHold(p.inters[i].adds, row)
  {
    hide AllHold, TableColumns;
    assert forall i | 0 <= i < |p.inters| :: p.inters[i] in p.inters;
    AllHoldAppend(p.predicates, Adds(p.inters), row);
    AddsHold(p.inters, row);
  }

  // ----- duplicates -----

  ghost predicate FirstAt(rows: seq<Row>, k: nat, row: Row) {
    k < |rows| && rows[k] == row && forall j | 0 <= j < k :: rows[j] != row
  }

  // The rows without repeats, in the order in which they first occur.
  ghost predicate Firsts(rows: seq<Row>, kept: seq<Row>) {
    && (forall i, j | 0 <= i < j < |kept| :: kept[i] != kept[j])
    && (forall row :: row in kept <==> row in rows)
    && forall i, j, x, y | 0 <= i < j < |kept| && FirstAt(rows, x, kept[i]) && FirstAt(rows, y, kept[j]) :: x < y
  }

  lemma {:induction false} DistinctFirsts(rows: seq<Row>)
    ensures Firsts(rows, Distinct(rows))
  {
    if rows != [] {
      var n := |rows| - 1;
      assert rows == rows[..n] + [rows[n]];
      DistinctFirsts(rows[..n]);
      FirstsGrow(rows[..n], Distinct(rows[..n]), rows[n]);
    }
  }

  lemma FirstsGrow(rows: seq<Row>, kept: seq<Row>, row: Row)
    requires Firsts(rows, kept)
    ensures Firsts(rows + [row], if row in kept then kept else kept + [row])
  {
    var more := rows + [row];
    var now := if row in kept then kept else kept + [row];
    forall i, j, x, y | 0 <= i < j < |now| && FirstAt(more, x, now[i]) && FirstAt(more, y, now[j]) ensures x < y {
      assert now[i] in kept && now[i] in rows;
      FirstStays(rows, row, x, now[i]);
      if j < |kept| {
        assert now[j] in kept && now[j] in rows;
        FirstStays(rows, row, y, now[j]);
      } else {
        assert row !in rows;
      }
    }
  }

  lemma FirstStays(rows: seq<Row>, row: Row, k: nat, r: Row)
    requires r in rows && FirstAt(rows + [row], k, r)
    ensures FirstAt(rows, k, r)
  {
    var j :| 0 <= j < |rows| && rows[j] == r;
    assert (rows + [row])[j] == r;
    assert forall i | 0 <= i < |rows| :: (rows + [row])[i] == rows[i];
  }

  // The rows wanted, in the query's order, cut down to the columns fetched.
  ghost predicate Fetching(p: Plan, d: Driver, fetched: seq<Row>) {
    var rows := d.arrange(p.order, Filter(d.tables(p.table), Wanted(p)));
    && |fetched| == |rows|
    && forall i, c | 0 <= i < |rows| ::
         && (c in fetched[i] <==> c in rows[i] && Fetched(p, c))
         && (c in fetched[i] ==> fetched[i][c] == rows[i][c])
  }

  // A node for each of the rows from the query's offset on, no more than its limit; a limit of zero is none.
  ghost predicate CutTo(p: Plan, rows: seq<Row>, nodes: seq<Node>) {
    var from := Min(if p.offset.Some? then p.offset.value else 0, |rows|);
    && |nodes| == (if p.limit.Some? && p.limit.value > 0 then Min(p.limit.value, |rows| - from) else |rows| - from)
    && forall i | 0 <= i < |nodes| :: nodes[i].row == rows[from + i]
  }

  // On any store, one whose rows have no ids of their own included: a query asked for unique rows drops the repeats
  // before it is cut, and no other query does.
  lemma RunUnique(p: Plan, d: Driver) returns (fetched: seq<Row>, kept: seq<Row>)
    requires Exec(p, d).result.Ok?
    ensures Fetching(p, d, fetched) && CutTo(p, kept, Exec(p, d).result.value)
    ensures if p.unique == Some(true) then Firsts(fetched, kept) else kept == fetched
  {
    hide Exec, Fetching, CutTo, SpecColumns, Distinct, Matching, Firsts, Prepare;
    ExecRows(p, d);
    PrepareAdds(p);
    var spec := SpecOf(Prepare(p).plan);
    fetched := ProjectAll(Matching(d, spec), spec.columns);
    kept := if spec.unique then Distinct(fetched) else fetched;
    FetchingIs(p, d);
    CutIs(p, kept, Exec(p, d).result.value);
    DistinctFirsts(fetched);
  }

  lemma FetchingIs(p: Plan, d: Driver)
    ensures var spec := SpecOf(Prepare(p).plan); Fetching(p, d, ProjectAll(Matching(d, spec), spec.columns))
  {
    hide Fetched, SpecColumns, Filter, Prepare;
    PrepareAdds(p);
    forall c ensures c in SpecColumns(p.table, p.fields, p.kids) <==> Fetched(p, c) {
      ColumnsFetched(p, c);
    }
  }

  lemma CutIs(p: Plan, rows: seq<Row>, nodes: seq<Node>)
    requires var cut := Window(rows, if p.offset.Some? then p.offset.value else 0, if p.limit.Some? then p.limit.value else 0);
             |nodes| == |cut| && forall i | 0 <= i < |cut| :: nodes[i].row == cut[i]
    ensures CutTo(p, rows, nodes)
  {
  }

  // ----- errors -----

  // What an interceptor stops a query with.
  function Stops(inter: Interceptor): Option<Error> {
    match inter
    case Uninitialized => Some(UninitializedInterceptor)
    case Refusing(reason) => Some(TraverserRefused(reason))
    case _ => None
  }

  // The first interceptor that stops the query, or else its first field that the table lacks, gives the error.
  ghost predicate Problem(p: Plan, error: Error) {
    || (exists i :: 0 <= i < |p.inters| && Stops(p.inters[i]) == Some(error)
          && forall j | 0 <= j < i :: Stops(p.inters[j]) == None)
    || ((forall j | 0 <= j < |p.inters| :: Stops(p.inters[j]) == None)
          && exists i :: 0 <= i < |p.fields| && p.fields[i] !in TableColumns(p.table) && error == InvalidField(p.fields[i])
               && forall j | 0 <= j < i :: p.fields[j] in TableColumns(p.table))
  }

  lemma {:induction false} FirstStop(p: Plan, inters: seq<Interceptor>) returns (i: nat)
    ensures i <= |inters| && forall j | 0 <= j < i :: Stops(inters[j]) == None
    ensures Traverse(p, inters).error == if i < |inters| then Stops(inters[i]) else None
    ensures i < |inters| ==> Stops(inters[i]).Some?
    decreases |inters|
  {
    if inters == [] || Stops(inters[0]).Some? {
      i := 0;
    } else {
      var q := if inters[0].Traverser? then p.(predicates := p.predicates + inters[0].adds) else p;
      i := FirstStop(q, inters[1..]);
      i := i + 1;
    }
  }

  lemma {:induction false} FirstInvalid(table: Table, fields: seq<Column>) returns (i: nat)
    ensures i <= |fields| && forall j | 0 <= j < i :: fields[j] in TableColumns(table)
    ensures if i < |fields| then fields[i] !in TableColumns(table) && InvalidFields(table, fields) != []
                                 && InvalidFields(table, fields)[0] == fields[i]
            else InvalidFields(table, fields) == []
  {
    hide TableColumns;
    if fields == [] || fields[0] !in TableColumns(table) {
      i := 0;
    } else {
      i := FirstInvalid(table, fields[1..]);
      i := i + 1;
    }
  }

  lemma PrepareFails(p: Plan, error: Error)
    ensures Prepare(p).error == Some(error) <==> Problem(p, error)
  {
    hide Traverse, InvalidFields, TableColumns;
    var i := FirstStop(p, p.inters);
    var k := FirstInvalid(p.table, p.fields);
  }

  // A run that fails reports the problem of a query that it reached, or that its table does not answer.
  ghost predicate Failing(q: Plan, d: Driver, error: Error) {
    Problem(q, error) || (Ready(q) && !d.reachable(q.table) && error == DriverFailed)
  }

  lemma {:induction false} RunFails(p: Plan, d: Driver)
    requires Permutes(d) && WellFormed(p.table, p.kids) && Exec(p, d).result.Err?
    ensures exists q :: Reaches(p, d, q) && Failing(q, d, Exec(p, d).result.error)
    decreases Size(p)
  {
    hide LoadKids, Rows, Problem, Ready, Traverse;
    PrepareAdds(p);
    ReadyExactly(p);
    assert Reaches(p, d, p);
    var nodes := Bare(Rows(d, SpecOf(Prepare(p).plan)), KidEdges(p.kids));
    if Prepare(p).error.Some? {
      PrepareFails(p, Prepare(p).error.value);
    } else if d.reachable(p.table) {
      SameRowsSelf(nodes);
      LoadsFail(p.table, p.kids, d, nodes, nodes);
      var q :| KidsReach(p.kids, d, nodes, q) && Failing(q, d, LoadKids(p.kids, d, nodes).result.error);
      assert Reaches(p, d, q);
    }
  }

  lemma {:induction false} LoadsFail(table: Table, ks: Kids, d: Driver, nodes: seq<Node>, others: seq<Node>)
    requires Permutes(d) && WellFormed(table, ks) && SameRows(nodes, others) && LoadKids(ks, d, others).result.Err?
    ensures exists q :: KidsReach(ks, d, nodes, q) && Failing(q, d, LoadKids(ks, d, others).result.error)
    decreases KidsSize(ks)
  {
    hide Exec, Restrict, Reaches, Failing, Strangers, Attach, SentKeys, Source, Target;
    var e := ks.edge;
    SameSentKeys(e, nodes, others);
    var r := Restrict(e, ks.child, SentKeys(e, nodes));
    RestrictShape(e, ks.child, SentKeys(e, nodes));
    if Exec(r, d).result.Ok? {
      var far := Exec(r, d).result.value;
      ChildKeysExpected(e, table, ks.child, d, others);
      AttachRows(e, nodes, others, far);
      LoadsFail(table, ks.rest, d, nodes, Attach(e, others, far));
      var q :| KidsReach(ks.rest, d, nodes, q) && Failing(q, d, LoadKids(ks.rest, d, Attach(e, others, far)).result.error);
      assert KidsReach(ks, d, nodes, q);
    } else {
      RunFails(r, d);
      var q :| Reaches(r, d, q) && Failing(q, d, Exec(r, d).result.error);
      assert KidsReach(ks, d, nodes, q);
    }
  }
}
