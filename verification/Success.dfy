/** When a run succeeds: exactly when every query it reaches can be served. What it reaches depends on the rows
  * that the queries above return. */
module Success {
  import opened Schema
  import opened Driver
  import opened Plans
  import opened Join
  import opened Rerun

  // Only fields of the table are selected, and no interceptor is nil or refuses.
  ghost predicate Ready(p: Plan) {
    && (forall c | c in p.fields :: c in TableColumns(p.table))
    && (forall i | i in p.inters :: !i.Uninitialized? && !i.Refusing?)
  }

  ghost predicate Served(p: Plan, d: Driver) {
    Ready(p) && d.reachable(p.table)
  }

  // The queries of a run: the query itself and, when it returns rows, the queries for their edges, at every depth.
  ghost predicate Reaches(p: Plan, d: Driver, q: Plan)
    decreases Size(p)
  {
    var rows := Rows(d, SpecOf(Prepare(p).plan));
    q == p || (rows != [] && KidsReach(p.kids, d, Bare(rows, KidEdges(p.kids)), q))
  }

  ghost predicate KidsReach(ks: Kids, d: Driver, nodes: seq<Node>, q: Plan)
    decreases KidsSize(ks)
  {
    match ks
    case NoKids => false
    case Kid(e, child, rest) => Reaches(Restrict(e, child, SentKeys(e, nodes)), d, q) || KidsReach(rest, d, nodes, q)
  }

  lemma {:induction false} ValidFields(table: Table, fields: seq<Column>)
    ensures InvalidFields(table, fields) == [] <==> forall c | c in fields :: c in TableColumns(table)
  {
    hide TableColumns;
    if fields != [] {
      ValidFields(table, fields[1..]);
      assert forall c :: c in fields <==> c == fields[0] || c in fields[1..];
    }
  }

  lemma {:induction false} TraversesAll(p: Plan, inters: seq<Interceptor>)
    ensures Traverse(p, inters).error.None? <==> forall i | i in inters :: !i.Uninitialized? && !i.Refusing?
    decreases |inters|
  {
    if inters != [] {
      assert forall i :: i in inters <==> i == inters[0] || i in inters[1..];
      match inters[0] {
        case Traverser(adds) => TraversesAll(p.(predicates := p.predicates + adds), inters[1..]);
        case Wrapper => TraversesAll(p, inters[1..]);
        case _ =>
      }
    }
  }

  lemma ReadyExactly(p: Plan)
    ensures Prepare(p).error.None? <==> Ready(p)
  {
    hide TableColumns;
    ValidFields(p.table, p.fields);
    TraversesAll(p, p.inters);
  }

  // One step: a run succeeds exactly when its query is served and, if there are rows, the loads of their edges do.
  lemma RunStep(p: Plan, d: Driver)
    ensures var rows := Rows(d, SpecOf(Prepare(p).plan));
            Exec(p, d).result.Ok? <==>
              Served(p, d) && (rows == [] || LoadKids(p.kids, d, Bare(rows, KidEdges(p.kids))).result.Ok?)
  {
    hide Rows, Ready, LoadKids, KidEdges, Traverse;
    PrepareAdds(p);
    ReadyExactly(p);
  }

  // A run succeeds exactly when every query that it reaches is served.
  lemma {:induction false} RunsExactly(p: Plan, d: Driver)
    requires Permutes(d) && WellFormed(p.table, p.kids)
    ensures Exec(p, d).result.Ok? <==> forall q | Reaches(p, d, q) :: Served(q, d)
    decreases Size(p)
  {
    hide Exec, LoadKids, Rows, Served, Prepare;
    RunStep(p, d);
    assert Reaches(p, d, p);
    var rows := Rows(d, SpecOf(Prepare(p).plan));
    var nodes := Bare(rows, KidEdges(p.kids));
    SameRowsSelf(nodes);
    if rows != [] {
      LoadsExactly(p.table, p.kids, d, nodes, nodes);
      forall q ensures Reaches(p, d, q) <==> q == p || KidsReach(p.kids, d, nodes, q) {}
    }
  }

  lemma {:induction false} LoadsExactly(table: Table, ks: Kids, d: Driver, nodes: seq<Node>, others: seq<Node>)
    requires Permutes(d) && WellFormed(table, ks) && SameRows(nodes, others)
    ensures LoadKids(ks, d, others).result.Ok? <==> forall q | KidsReach(ks, d, nodes, q) :: Served(q, d)
    decreases KidsSize(ks)
  {
    hide Exec, Served, Restrict, Reaches, Strangers, Attach, SentKeys, Source, Target;
    match ks {
      case NoKids =>
      case Kid(e, child, rest) =>
        SameSentKeys(e, nodes, others);
        var r := Restrict(e, child, SentKeys(e, nodes));
        RestrictShape(e, child, SentKeys(e, nodes));
        RunsExactly(r, d);
        if Exec(r, d).result.Ok? {
          var far := Exec(r, d).result.value;
          ChildKeysExpected(e, table, child, d, others);
          AttachRows(e, nodes, others, far);
          LoadsExactly(table, rest, d, nodes, Attach(e, others, far));
        }
        forall q ensures KidsReach(ks, d, nodes, q) <==> Reaches(r, d, q) || KidsReach(rest, d, nodes, q) {}
    }
  }

  lemma RestrictShape(e: Edge, child: Plan, keys: seq<Uuid>)
    ensures var r := Restrict(e, child, keys); r.table == child.table && r.kids == child.kids && r.inters == child.inters
  {
  }

  lemma AttachRows(e: Edge, nodes: seq<Node>, others: seq<Node>, far: seq<Node>)
    requires SameRows(nodes, others)
    ensures SameRows(nodes, Attach(e, others, far))
  {
  }

  // ----- whatever the rows are -----

  // Every query of the tree is served.
  ghost predicate AllServed(p: Plan, d: Driver)
    decreases p
  {
    Served(p, d) && KidsServed(p.kids, d)
  }

  ghost predicate KidsServed(ks: Kids, d: Driver)
    decreases ks
  {
    ks.Kid? ==> AllServed(ks.child, d) && KidsServed(ks.rest, d)
  }

  lemma RestrictServed(e: Edge, child: Plan, keys: seq<Uuid>, d: Driver)
    requires child.table == Target(e) && Served(child, d)
    ensures Served(Restrict(e, child, keys), d)
  {
    hide TableColumns, Target;
    FarColumnBelongs(e);
  }

  // Queries that can all be served make every run succeed, over any store.
  lemma {:induction false} ServedRuns(p: Plan, d: Driver)
    requires Permutes(d) && WellFormed(p.table, p.kids) && AllServed(p, d)
    ensures Exec(p, d).result.Ok?
    decreases Size(p)
  {
    hide Exec, LoadKids, Served;
    RunStep(p, d);
    var nodes := Bare(Rows(d, SpecOf(Prepare(p).plan)), KidEdges(p.kids));
    ServedLoads(p.table, p.kids, d, nodes);
  }

  lemma {:induction false} ServedLoads(table: Table, ks: Kids, d: Driver, nodes: seq<Node>)
    requires Permutes(d) && WellFormed(table, ks) && KidsServed(ks, d)
    ensures LoadKids(ks, d, nodes).result.Ok?
    decreases KidsSize(ks)
  {
    hide Exec, Served, Restrict, Strangers, Attach, SentKeys, Source, Target;
    match ks {
      case NoKids =>
      case Kid(e, child, rest) =>
        RestrictShape(e, child, SentKeys(e, nodes));
        RestrictServed(e, child, SentKeys(e, nodes), d);
        ServedRuns(Restrict(e, child, SentKeys(e, nodes)), d);
        ChildKeysExpected(e, table, child, d, nodes);
        ServedLoads(table, rest, d, Attach(e, nodes, Exec(Restrict(e, child, SentKeys(e, nodes)), d).result.value));
    }
  }

  // ----- queries for less -----

  // The query asks for no more rows.
  ghost predicate Narrower(p: Plan, q: Plan, d: Driver) {
    && q == p.(predicates := q.predicates, limit := q.limit)
    && forall row | row in Rows(d, SpecOf(Prepare(q).plan)) :: row in Rows(d, SpecOf(Prepare(p).plan))
  }

  ghost predicate FewerRows(nodes: seq<Node>, others: seq<Node>) {
    forall i | 0 <= i < |others| :: HasRow(nodes, others[i].row)
  }

  ghost predicate HasRow(nodes: seq<Node>, row: Row) {
    exists j :: 0 <= j < |nodes| && nodes[j].row == row
  }

  lemma FewerKeys(e: Edge, nodes: seq<Node>, others: seq<Node>)
    requires FewerRows(nodes, others)
    ensures forall key | key in SentKeys(e, others) :: key in SentKeys(e, nodes)
  {
    hide SentKeys;
    forall key | key in SentKeys(e, others) ensures key in SentKeys(e, nodes) {
      SentKeysAreOwn(e, others, key);
      SentKeysAreOwn(e, nodes, key);
      var i :| 0 <= i < |others| && OwnKeys(e, others)[i] == key;
      var j :| 0 <= j < |nodes| && nodes[j].row == others[i].row;
      assert OwnKeys(e, nodes)[j] == key;
    }
  }

  // Without a window, the rows are the projections of the rows that match.
  lemma UnwindowedRows(p: Plan, d: Driver, source: Row)
    requires Unwindowed(p) && source in Matching(d, SpecOf(Prepare(p).plan))
    ensures var spec := SpecOf(Prepare(p).plan); Project(source, spec.columns) in Rows(d, spec)
  {
    hide SpecColumns, Distinct, Matching;
    PrepareAdds(p);
    var spec := SpecOf(Prepare(p).plan);
    var i :| 0 <= i < |Matching(d, spec)| && Matching(d, spec)[i] == source;
    var rows := ProjectAll(Matching(d, spec), spec.columns);
    assert rows[i] == Project(source, spec.columns);
    DistinctMembers(rows, rows[i]);
  }

  lemma FewerKeysNarrow(e: Edge, child: Plan, d: Driver, keys: seq<Uuid>, fewer: seq<Uuid>)
    requires Permutes(d) && Unwindowed(child) && forall key | key in fewer :: key in keys
    ensures Narrower(Restrict(e, child, keys), Restrict(e, child, fewer), d)
  {
    hide SpecColumns, Matching, Rows;
    var p, q := Restrict(e, child, keys), Restrict(e, child, fewer);
    PrepareAdds(p);
    PrepareAdds(q);
    forall row | row in Rows(d, SpecOf(Prepare(q).plan)) ensures row in Rows(d, SpecOf(Prepare(p).plan)) {
      var source := RowsMatch(d, SpecOf(Prepare(q).plan), row);
      RestrictedMembers(e, child, fewer, d, source);
      RestrictedMembers(e, child, keys, d, source);
      UnwindowedRows(p, d, source);
    }
  }

  // A query for fewer rows succeeds when the query for more does.
  lemma {:induction false} NarrowerRuns(p: Plan, q: Plan, d: Driver)
    requires Permutes(d) && WellFormed(p.table, p.kids) && UnwindowedKids(p.kids) && Narrower(p, q, d)
    requires Exec(p, d).result.Ok?
    ensures Exec(q, d).result.Ok?
    decreases Size(p)
  {
    hide Exec, LoadKids, Rows, Prepare, KidEdges, TableColumns, HasRow;
    RunStep(p, d);
    RunStep(q, d);
    var rows, fewer := Rows(d, SpecOf(Prepare(p).plan)), Rows(d, SpecOf(Prepare(q).plan));
    if fewer != [] {
      assert fewer[0] in rows;
      var nodes, others := Bare(rows, KidEdges(p.kids)), Bare(fewer, KidEdges(p.kids));
      forall i | 0 <= i < |others| ensures HasRow(nodes, others[i].row) {
        BareHas(rows, KidEdges(p.kids), fewer[i]);
      }
      NarrowerLoads(p.table, p.kids, d, nodes, others);
    }
  }

  lemma BareHas(rows: seq<Row>, loaded: set<Edge>, row: Row)
    requires row in rows
    ensures HasRow(Bare(rows, loaded), row)
  {
    var j :| 0 <= j < |rows| && rows[j] == row;
    assert Bare(rows, loaded)[j].row == row;
  }

  lemma {:induction false} NarrowerLoads(table: Table, ks: Kids, d: Driver, nodes: seq<Node>, others: seq<Node>)
    requires Permutes(d) && WellFormed(table, ks) && UnwindowedKids(ks) && FewerRows(nodes, others)
    requires LoadKids(ks, d, nodes).result.Ok?
    ensures LoadKids(ks, d, others).result.Ok?
    decreases KidsSize(ks)
  {
    hide Exec, Restrict, Strangers, Attach, SentKeys, Source, Target, Narrower;
    match ks {
      case NoKids =>
      case Kid(e, child, rest) =>
        var keys, fewer := SentKeys(e, nodes), SentKeys(e, others);
        var r, s := Restrict(e, child, keys), Restrict(e, child, fewer);
        RestrictShape(e, child, keys);
        FewerKeys(e, nodes, others);
        FewerKeysNarrow(e, child, d, keys, fewer);
        NarrowerRuns(r, s, d);
        ChildKeysExpected(e, table, child, d, others);
        var far, less := Exec(r, d).result.value, Exec(s, d).result.value;
        FewerAttached(e, nodes, others, far, less);
        NarrowerLoads(table, rest, d, Attach(e, nodes, far), Attach(e, others, less));
    }
  }

  lemma FewerAttached(e: Edge, nodes: seq<Node>, others: seq<Node>, far: seq<Node>, less: seq<Node>)
    requires FewerRows(nodes, others)
    ensures FewerRows(Attach(e, nodes, far), Attach(e, others, less))
  {
    forall i | 0 <= i < |others| ensures HasRow(Attach(e, nodes, far), Attach(e, others, less)[i].row) {
      assert HasRow(nodes, others[i].row);
      var j :| 0 <= j < |nodes| && nodes[j].row == others[i].row;
      assert Attach(e, nodes, far)[j].row == others[i].row;
    }
  }
}
