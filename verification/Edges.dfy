/** What a caller of an eager-loaded query relies on, and exactly when it fails: the edge accessors, the
  * choice of fields, the order of the loads, NULL keys, and limits on child queries. */
module Edges {
  import opened Schema
  import opened Driver
  import opened Plans
  import opened Join
  import opened Rerun
  import opened Success

  // ----- the edge accessors -----

  function EdgeOrErr(n: Node, e: Edge): Result<Node, Error> {
    if e in n.edges then Ok(n.edges[e])
    else if e in n.loaded then Err(NotFound)
    else Err(NotLoaded)
  }

  // At most one query per edge.
  predicate OncePerEdge(ks: Kids) {
    match ks
    case NoKids => true
    case Kid(e, _, rest) => e !in KidEdges(rest) && OncePerEdge(rest)
  }

  function ChildOf(ks: Kids, e: Edge): Plan
    requires e in KidEdges(ks)
  {
    if ks.edge == e then ks.child else ChildOf(ks.rest, e)
  }

  lemma {:induction false} EdgesByKeyAt(ks: Kids, d: Driver, row: Row, e: Edge)
    requires OncePerEdge(ks)
    ensures e in EdgesByKey(ks, d, row) <==> e in KidEdges(ks) && e in EdgeByKey(e, ChildOf(ks, e), d, row)
    ensures e in EdgesByKey(ks, d, row) ==> EdgesByKey(ks, d, row)[e] == EdgeByKey(e, ChildOf(ks, e), d, row)[e]
    decreases ks
  {
    match ks {
      case NoKids =>
      case Kid(f, child, rest) =>
        if f == e {
          EdgesByKeyWithin(rest, d, row, e);
        } else {
          EdgesByKeyAt(rest, d, row, e);
        }
    }
  }

  // The accessor of an edge returns the joined row, not-found when there is none, and not-loaded
  // when the edge was not asked for. The join is on the keys as they are read,
  lemma EdgeOrErrByKey(p: Plan, d: Driver, i: nat, e: Edge)
    requires Permutes(d) && Keyed(d)
    requires WellFormed(p.table, p.kids) && UnwindowedKids(p.kids) && OncePerEdge(p.kids)
    requires Exec(p, d).result.Ok?
    requires i < |Chosen(p, d)|
    ensures |Exec(p, d).result.value| == |Chosen(p, d)|
    ensures var row := Chosen(p, d)[i];
            EdgeOrErr(Exec(p, d).result.value[i], e)
            == if e !in KidEdges(p.kids) then Err(NotLoaded)
               else match Partner(e, ChildOf(p.kids, e), d, ReadUuid(row, OwnColumn(e)))
                 case None => Err(NotFound)
                 case Some(partner) => Ok(NodeByKey(Widen(e, ChildOf(p.kids, e)), d, partner))
  {
    var row := Chosen(p, d)[i];
    ExecByKey(p, d);
    EdgesByKeyAt(p.kids, d, row, e);
  }

  // and so, when no row has the zero id, the join of the rows.
  lemma EdgeOrErrIsJoin(p: Plan, d: Driver, i: nat, e: Edge)
    requires Permutes(d) && Keyed(d) && NoZeroIds(d)
    requires WellFormed(p.table, p.kids) && UnwindowedKids(p.kids) && OncePerEdge(p.kids)
    requires Exec(p, d).result.Ok?
    requires i < |Chosen(p, d)|
    ensures |Exec(p, d).result.value| == |Chosen(p, d)|
    ensures var row := Chosen(p, d)[i];
            EdgeOrErr(Exec(p, d).result.value[i], e)
            == if e !in KidEdges(p.kids) then Err(NotLoaded)
               else match SqlPartner(e, ChildOf(p.kids, e), d, row)
                 case None => Err(NotFound)
                 case Some(partner) => Ok(NaiveNode(Widen(e, ChildOf(p.kids, e)), d, partner))
  {
    hide Exec, NodeByKey, NaiveNode, Partner, SqlPartner, Source, Target, OwnColumn, FarColumn, SpecColumns, Prepare, Selected, Chosen;
    var row := Chosen(p, d)[i];
    EdgeOrErrByKey(p, d, i, e);
    if e in KidEdges(p.kids) {
      FetchedRows(p, d);
      ChosenIs(p, d);
      ChildBelongs(p.table, p.kids, e);
      ChildWellFormed(p.table, p.kids, e);
      KeyIsSql(e, p.table, ChildOf(p.kids, e), d, row);
      if Partner(e, ChildOf(p.kids, e), d, ReadUuid(row, OwnColumn(e))).Some? {
        PartnerJoined(e, p.table, ChildOf(p.kids, e), d, ReadUuid(row, OwnColumn(e)));
      }
    }
  }

  // The row found under a key is joined as it is when no row has the zero id.
  lemma PartnerJoined(e: Edge, table: Table, child: Plan, d: Driver, key: Uuid)
    requires Keyed(d) && NoZeroIds(d) && Source(e) == table && child.table == Target(e)
    requires WellFormed(child.table, child.kids) && Partner(e, child, d, key).Some?
    ensures var partner := Partner(e, child, d, key).value;
            NodeByKey(Widen(e, child), d, partner) == NaiveNode(Widen(e, child), d, partner)
  {
    hide NodeByKey, NaiveNode, Filter, Source, Target;
    FarKeyed(e, table, d);
    PartnerIs(e, child, d, key, Partner(e, child, d, key).value);
    NodeByKeyIsNaive(Widen(e, child), d, Partner(e, child, d, key).value);
  }

  lemma {:induction false} ChildWellFormed(table: Table, ks: Kids, e: Edge)
    requires WellFormed(table, ks) && e in KidEdges(ks)
    ensures WellFormed(ChildOf(ks, e).table, ChildOf(ks, e).kids)
    decreases ks
  {
    if ks.edge != e {
      ChildWellFormed(table, ks.rest, e);
    }
  }

  lemma {:induction false} ChildBelongs(table: Table, ks: Kids, e: Edge)
    requires WellFormed(table, ks) && e in KidEdges(ks)
    ensures Source(e) == table && ChildOf(ks, e).table == Target(e)
    decreases ks
  {
    if ks.edge != e {
      ChildBelongs(table, ks.rest, e);
    }
  }

  // ----- running again over a changed store -----

  // The loads leave every child query narrowed to the keys of the nodes they loaded for.
  lemma {:induction false} KidsStale(ks: Kids, d: Driver, nodes: seq<Node>, others: seq<Node>, e: Edge)
    requires OncePerEdge(ks) && e in KidEdges(ks) && SameRows(nodes, others)
    requires LoadKids(ks, d, others).result.Ok?
    ensures var ls := LoadKids(ks, d, others).kids;
            && KidEdges(ls) == KidEdges(ks) && OncePerEdge(ls)
            && ChildOf(ls, e) == Stale(e, ChildOf(ks, e), SentKeys(e, nodes), d)
    decreases KidsSize(ks)
  {
    hide Exec, Restrict, Attach, SentKeys, Strangers;
    SameSentKeys(ks.edge, nodes, others);
    var far := Exec(Restrict(ks.edge, ks.child, SentKeys(ks.edge, others)), d).result.value;
    AttachRows(ks.edge, nodes, others, far);
    if ks.rest.Kid? {
      KidsStale(ks.rest, d, nodes, Attach(ks.edge, others, far), if ks.edge == e then ks.rest.edge else e);
    }
  }

  // What a run leaves in the child builders.
  lemma RunStale(p: Plan, d: Driver, e: Edge)
    requires OncePerEdge(p.kids) && e in KidEdges(p.kids) && Exec(p, d).result.Ok?
    ensures var q := Exec(p, d).plan;
            && OncePerEdge(q.kids) && KidEdges(q.kids) == KidEdges(p.kids)
            && ChildOf(q.kids, e) ==
                 if Exec(p, d).result.value == [] then ChildOf(p.kids, e)
                 else Stale(e, ChildOf(p.kids, e), FetchedKeys(e, p, d), d)
  {
    PrepareAdds(p);
    ExecRows(p, d);
    var nodes := Bare(Rows(d, SpecOf(Prepare(p).plan)), KidEdges(p.kids));
    if nodes != [] {
      SameRowsSelf(nodes);
      KidsStale(p.kids, d, nodes, nodes, e);
    }
  }

  // Running a query again after the store has changed: any requested edge of a row is found exactly when it
  // exists and the first run returned nothing or already sent the row's key.
  lemma StaleRun(p: Plan, before: Driver, now: Driver, i: nat, e: Edge)
    requires Permutes(now) && Keyed(now)
    requires WellFormed(p.table, p.kids) && UnwindowedKids(p.kids) && OncePerEdge(p.kids) && e in KidEdges(p.kids)
    requires Exec(p, before).result.Ok? && Exec(Exec(p, before).plan, now).result.Ok?
    requires i < |Chosen(Exec(p, before).plan, now)|
    ensures var rows := Chosen(Exec(p, before).plan, now);
            var loaded := Exec(Exec(p, before).plan, now).result.value;
            var key := ReadUuid(rows[i], OwnColumn(e));
            && |loaded| == |rows|
            && (EdgeOrErr(loaded[i], e).Ok?
                <==> (Exec(p, before).result.value == [] || key in FetchedKeys(e, p, before))
                     && Partner(e, ChildOf(p.kids, e), now, key).Some?)
  {
    hide Exec, NodeByKey, EdgesByKey, Partner, Source, Target, OwnColumn, FarColumn, SpecColumns, Prepare, Chosen, Rows;
    hide FetchedKeys, Stale;
    var q := Exec(p, before).plan;
    var rows := Chosen(q, now);
    ExecKeepsShape(p, before);
    ExecKeepsWindow(p, before);
    RunStale(p, before, e);
    EdgeOrErrByKey(q, now, i, e);
    ChildBelongs(p.table, p.kids, e);
    FarKeyed(e, p.table, now);
    StalePartner(e, ChildOf(p.kids, e), FetchedKeys(e, p, before), before, now, ReadUuid(rows[i], OwnColumn(e)));
  }

  // ----- the choice of fields -----

  // The nodes have the same edges so far, and the same keys for the edges to be loaded.
  ghost predicate Alike(ks: Kids, nodes: seq<Node>, others: seq<Node>) {
    && |nodes| == |others|
    && (forall i | 0 <= i < |nodes| :: nodes[i].edges == others[i].edges)
    && (forall e | e in KidEdges(ks) :: OwnKeys(e, nodes) == OwnKeys(e, others))
  }

  // Loading reads nothing else of the nodes, whatever the child queries are.
  lemma {:induction false} AlikeLoads(ks: Kids, d: Driver, nodes: seq<Node>, others: seq<Node>)
    requires Alike(ks, nodes, others)
    ensures var a, b := LoadKids(ks, d, nodes).result, LoadKids(ks, d, others).result;
            && (a.Ok? <==> b.Ok?)
            && (a.Ok? ==> Alike(NoKids, a.value, b.value))
    decreases KidsSize(ks)
  {
    hide Exec, Restrict, SentKeys, Strangers, Attach, OwnKey;
    if ks.Kid? {
      var e := ks.edge;
      assert SentKeys(e, nodes) == SentKeys(e, others) by { SameKeysSent(e, nodes, others); }
      var far := Exec(Restrict(e, ks.child, SentKeys(e, nodes)), d).result;
      if far.Ok? && Strangers(e, nodes, far.value) == [] {
        AlikeAttach(ks, nodes, others, far.value);
        AlikeLoads(ks.rest, d, Attach(e, nodes, far.value), Attach(e, others, far.value));
      }
      if far.Ok? {
        SameStrangers(e, nodes, others, far.value);
      }
    }
  }

  lemma {:induction false} SameStrangers(e: Edge, nodes: seq<Node>, others: seq<Node>, far: seq<Node>)
    requires OwnKeys(e, nodes) == OwnKeys(e, others)
    ensures Strangers(e, nodes, far) == Strangers(e, others, far)
  {
    if far != [] {
      SameStrangers(e, nodes, others, far[1..]);
    }
  }

  lemma SameKeysSent(e: Edge, nodes: seq<Node>, others: seq<Node>)
    requires OwnKeys(e, nodes) == OwnKeys(e, others)
    ensures SentKeys(e, nodes) == SentKeys(e, others)
  {
  }

  lemma AlikeAttach(ks: Kids, nodes: seq<Node>, others: seq<Node>, far: seq<Node>)
    requires ks.Kid? && Alike(ks, nodes, others)
    ensures Alike(ks.rest, Attach(ks.edge, nodes, far), Attach(ks.edge, others, far))
  {
    hide FarKey, LastWithKey, OwnKey;
    var e := ks.edge;
    assert forall i | 0 <= i < |nodes| :: OwnKeys(e, nodes)[i] == OwnKey(e, nodes[i]) && OwnKeys(e, others)[i] == OwnKey(e, others[i]);
    forall i | 0 <= i < |nodes| ensures Found(e, nodes, far, i) == Found(e, others, far, i) {}
    forall f | f in KidEdges(ks.rest)
      ensures OwnKeys(f, Attach(e, nodes, far)) == OwnKeys(f, Attach(e, others, far))
    {
      AttachKeys(e, f, nodes, far);
      AttachKeys(e, f, others, far);
    }
  }

  lemma AttachKeys(e: Edge, f: Edge, nodes: seq<Node>, far: seq<Node>)
    ensures OwnKeys(f, Attach(e, nodes, far)) == OwnKeys(f, nodes)
  {
  }

  // Selecting fields makes a run fail exactly when one is not of the table, and changes no edge.
  lemma FieldsKeepEdges(p: Plan, fields: seq<Column>, d: Driver)
    requires Permutes(d) && Keyed(d) && WellFormed(p.table, p.kids) && Exec(p, d).result.Ok?
    ensures Exec(p.(fields := fields), d).result.Ok? <==> forall c | c in fields :: c in TableColumns(p.table)
    ensures Exec(p.(fields := fields), d).result.Ok? ==>
              var all, some := Exec(p, d).result.value, Exec(p.(fields := fields), d).result.value;
              |all| == |some| && forall i | 0 <= i < |all| :: all[i].edges == some[i].edges
  {
    hide Exec, SpecColumns, TableColumns, LoadKids, Rows, Prepare;
    var q := p.(fields := fields);
    RunStep(p, d);
    RunStep(q, d);
    var nodes := Bare(Rows(d, SpecOf(Prepare(p).plan)), KidEdges(p.kids));
    var others := Bare(Rows(d, SpecOf(Prepare(q).plan)), KidEdges(p.kids));
    FetchedAlike(p, fields, d);
    AlikeLoads(p.kids, d, nodes, others);
    ExecLoads(p, d);
    if Exec(q, d).result.Ok? {
      ExecLoads(q, d);
    }
  }

  lemma FetchedAlike(p: Plan, fields: seq<Column>, d: Driver)
    requires Permutes(d) && Keyed(d) && WellFormed(p.table, p.kids)
    ensures var q := p.(fields := fields);
            Alike(p.kids, Bare(Rows(d, SpecOf(Prepare(p).plan)), KidEdges(p.kids)),
                  Bare(Rows(d, SpecOf(Prepare(q).plan)), KidEdges(p.kids)))
  {
    hide SpecColumns, TableColumns, Filter, Rows, KidEdges, OwnKey;
    var q := p.(fields := fields);
    FetchedRows(p, d);
    FetchedRows(q, d);
    PrepareAdds(p);
    PrepareAdds(q);
    assert Selected(d, SpecOf(Prepare(p).plan)) == Selected(d, SpecOf(Prepare(q).plan));
    var nodes := Bare(Rows(d, SpecOf(Prepare(p).plan)), KidEdges(p.kids));
    var others := Bare(Rows(d, SpecOf(Prepare(q).plan)), KidEdges(p.kids));
    forall e | e in KidEdges(p.kids) ensures OwnKeys(e, nodes) == OwnKeys(e, others) {
      assert forall i | 0 <= i < |nodes| :: OwnKeys(e, nodes)[i] == OwnKeys(e, others)[i];
    }
  }

  // ----- the order of the loads -----

  // The child query of an edge succeeds and returns no stranger.
  predicate Loads(e: Edge, child: Plan, d: Driver, nodes: seq<Node>) {
    var far := Exec(Restrict(e, child, SentKeys(e, nodes)), d).result;
    far.Ok? && Strangers(e, nodes, far.value) == []
  }

  ghost predicate AllLoad(ks: Kids, d: Driver, nodes: seq<Node>) {
    forall e | e in KidEdges(ks) :: Loads(e, ChildOf(ks, e), d, nodes)
  }

  // What the load of an edge finds for a node.
  function Fetched(e: Edge, child: Plan, d: Driver, nodes: seq<Node>, i: nat): Option<Node>
    requires i < |nodes|
  {
    var far := Exec(Restrict(e, child, SentKeys(e, nodes)), d).result;
    if far.Ok? then Found(e, nodes, far.value, i) else None
  }

  // A node after all loads: the edges that were found, over those it had.
  ghost predicate HasLoaded(ks: Kids, d: Driver, nodes: seq<Node>, i: nat, before: Node, after: Node)
    requires i < |nodes|
  {
    && after.row == before.row && after.loaded == before.loaded
    && forall e ::
         var found := if e in KidEdges(ks) then Fetched(e, ChildOf(ks, e), d, nodes, i) else None;
         && (e in after.edges <==> found.Some? || e in before.edges)
         && (e in after.edges ==> after.edges[e] == if found.Some? then found.value else before.edges[e])
  }

  // The loads succeed exactly when each would on its own, and each sets only its own edge.
  lemma {:induction false} LoadsApart(ks: Kids, d: Driver, nodes: seq<Node>, others: seq<Node>)
    requires OncePerEdge(ks) && SameRows(nodes, others)
    ensures var r := LoadKids(ks, d, others).result;
            && (r.Ok? <==> AllLoad(ks, d, nodes))
            && (r.Ok? ==> |r.value| == |nodes| && forall i | 0 <= i < |nodes| :: HasLoaded(ks, d, nodes, i, others[i], r.value[i]))
    decreases KidsSize(ks)
  {
    hide Exec, Restrict, SentKeys, Strangers, Found, HasLoaded, Fetched;
    if ks.Kid? {
      var e := ks.edge;
      LoadsSame(e, ks.child, d, nodes, others);
      var far := Exec(Restrict(e, ks.child, SentKeys(e, others)), d).result;
      if Loads(e, ks.child, d, nodes) {
        var next := Attach(e, others, far.value);
        AttachRows(e, nodes, others, far.value);
        LoadsApart(ks.rest, d, nodes, next);
        if LoadKids(ks.rest, d, next).result.Ok? {
          var loaded := LoadKids(ks.rest, d, next).result.value;
          forall i | 0 <= i < |nodes| ensures HasLoaded(ks, d, nodes, i, others[i], loaded[i]) {
            LoadedFirst(ks, d, nodes, others, i, loaded[i]);
          }
        }
      }
      KidsFirst(ks, d, nodes);
    } else {
      forall i | 0 <= i < |nodes| ensures HasLoaded(ks, d, nodes, i, others[i], others[i]) {
        NothingLoaded(d, nodes, i, others[i]);
      }
    }
  }

  lemma NothingLoaded(d: Driver, nodes: seq<Node>, i: nat, n: Node)
    requires i < |nodes|
    ensures HasLoaded(NoKids, d, nodes, i, n, n)
  {
    hide Fetched;
  }

  lemma KidsFirst(ks: Kids, d: Driver, nodes: seq<Node>)
    requires ks.Kid? && OncePerEdge(ks)
    ensures AllLoad(ks, d, nodes) <==> Loads(ks.edge, ks.child, d, nodes) && AllLoad(ks.rest, d, nodes)
  {
    hide Loads;
    assert ChildOf(ks, ks.edge) == ks.child && ks.edge in KidEdges(ks);
    forall e | e in KidEdges(ks.rest) ensures e in KidEdges(ks) && ChildOf(ks, e) == ChildOf(ks.rest, e) {}
    if AllLoad(ks, d, nodes) {
      forall e | e in KidEdges(ks.rest) ensures Loads(e, ChildOf(ks.rest, e), d, nodes) {
        assert Loads(e, ChildOf(ks, e), d, nodes);
      }
    }
  }

  lemma LoadedFirst(ks: Kids, d: Driver, nodes: seq<Node>, others: seq<Node>, i: nat, after: Node)
    requires ks.Kid? && OncePerEdge(ks) && SameRows(nodes, others) && i < |nodes|
    requires Loads(ks.edge, ks.child, d, nodes)
    requires var far := Exec(Restrict(ks.edge, ks.child, SentKeys(ks.edge, nodes)), d).result.value;
             HasLoaded(ks.rest, d, nodes, i, Attach(ks.edge, others, far)[i], after)
    ensures HasLoaded(ks, d, nodes, i, others[i], after)
  {
    hide Exec, Restrict, SentKeys, Strangers, Found, Fetched;
    var e := ks.edge;
    var far := Exec(Restrict(e, ks.child, SentKeys(e, nodes)), d).result.value;
    FoundSame(e, nodes, others, far, i);
    assert Fetched(e, ks.child, d, nodes, i) == Found(e, nodes, far, i) by { FetchedIs(e, ks.child, d, nodes, i); }
    assert forall f | f in KidEdges(ks.rest) :: ChildOf(ks, f) == ChildOf(ks.rest, f);
  }

  lemma FetchedIs(e: Edge, child: Plan, d: Driver, nodes: seq<Node>, i: nat)
    requires i < |nodes| && Loads(e, child, d, nodes)
    ensures Fetched(e, child, d, nodes, i) == Found(e, nodes, Exec(Restrict(e, child, SentKeys(e, nodes)), d).result.value, i)
  {
    hide Exec, Found;
  }

  // A load depends on the rows of the nodes only.
  lemma LoadsSame(e: Edge, child: Plan, d: Driver, nodes: seq<Node>, others: seq<Node>)
    requires SameRows(nodes, others)
    ensures SentKeys(e, nodes) == SentKeys(e, others)
    ensures Loads(e, child, d, nodes) <==> Loads(e, child, d, others)
  {
    hide Exec, Restrict;
    SameSentKeys(e, nodes, others);
    var far := Exec(Restrict(e, child, SentKeys(e, nodes)), d).result;
    if far.Ok? {
      StrangersSame(e, nodes, others, far.value);
    }
  }

  lemma {:induction false} StrangersSame(e: Edge, nodes: seq<Node>, others: seq<Node>, far: seq<Node>)
    requires SameRows(nodes, others)
    ensures Strangers(e, nodes, far) == Strangers(e, others, far)
  {
    assert OwnKeys(e, nodes) == OwnKeys(e, others);
    if far != [] {
      StrangersSame(e, nodes, others, far[1..]);
    }
  }

  // The same child queries for the same edges, in whatever order.
  ghost predicate Reordered(ks: Kids, ls: Kids) {
    && OncePerEdge(ks) && OncePerEdge(ls) && KidEdges(ks) == KidEdges(ls)
    && forall e | e in KidEdges(ks) :: ChildOf(ks, e) == ChildOf(ls, e)
  }

  // The order of the loads matters neither to whether they succeed nor to the nodes.
  lemma LoadsCommute(ks: Kids, ls: Kids, d: Driver, nodes: seq<Node>)
    requires Reordered(ks, ls)
    ensures LoadKids(ks, d, nodes).result.Ok? <==> LoadKids(ls, d, nodes).result.Ok?
    ensures LoadKids(ks, d, nodes).result.Ok? ==> LoadKids(ks, d, nodes).result == LoadKids(ls, d, nodes).result
  {
    hide LoadKids, Loads, Fetched, HasLoaded;
    SameRowsSelf(nodes);
    LoadsApart(ks, d, nodes, nodes);
    LoadsApart(ls, d, nodes, nodes);
    assert AllLoad(ks, d, nodes) <==> AllLoad(ls, d, nodes);
    if LoadKids(ks, d, nodes).result.Ok? {
      var a, b := LoadKids(ks, d, nodes).result.value, LoadKids(ls, d, nodes).result.value;
      forall i | 0 <= i < |nodes| ensures a[i] == b[i] {
        LoadedSame(ks, ls, d, nodes, i, nodes[i], a[i], b[i]);
      }
      assert a == b;
    }
  }

  lemma LoadedSame(ks: Kids, ls: Kids, d: Driver, nodes: seq<Node>, i: nat, n: Node, a: Node, b: Node)
    requires Reordered(ks, ls) && i < |nodes|
    requires HasLoaded(ks, d, nodes, i, n, a) && HasLoaded(ls, d, nodes, i, n, b)
    ensures a == b
  {
    hide Fetched;
    assert a.edges == b.edges;
  }

  lemma FoundSame(e: Edge, nodes: seq<Node>, others: seq<Node>, far: seq<Node>, i: nat)
    requires SameRows(nodes, others) && i < |nodes|
    ensures Found(e, nodes, far, i) == Found(e, others, far, i)
  {
    assert forall j | 0 <= j < |nodes| :: OwnKey(e, nodes[j]) == OwnKey(e, others[j]);
  }

  // ----- NULL keys and zero ids -----

  // SQL's join: a NULL key has no partner.
  function SqlPartner(e: Edge, child: Plan, d: Driver, row: Row): Option<Row> {
    if HasKey(e, row) then Partner(e, child, d, row[OwnColumn(e)].uuid) else None
  }

  ghost predicate EdgeAgrees(e: Edge, child: Plan, d: Driver, n: Node, row: Row) {
    IsPartner(e, child, SqlPartner(e, child, d, row), EdgeOf(n, e))
  }

  // One load, on rows that do not have the edge yet.
  ghost predicate Loading(e: Edge, table: Table, child: Plan, d: Driver, nodes: seq<Node>, rows: seq<Row>) {
    && Permutes(d) && Keyed(d) && Source(e) == table && child.table == Target(e)
    && |nodes| == |rows| && KeyColumn(rows, Id)
    && (forall i | 0 <= i < |nodes| :: OwnKey(e, nodes[i]) == ReadUuid(rows[i], OwnColumn(e)))
    && (forall i | 0 <= i < |nodes| :: e !in nodes[i].edges)
    && Exec(Restrict(e, child, SentKeys(e, nodes)), d).result.Ok?
  }

  function Loaded(e: Edge, child: Plan, d: Driver, nodes: seq<Node>): seq<Node>
    requires Exec(Restrict(e, child, SentKeys(e, nodes)), d).result.Ok?
  {
    Attach(e, nodes, Exec(Restrict(e, child, SentKeys(e, nodes)), d).result.value)
  }

  // The rows a child query returns, before projection.
  function Returned(e: Edge, child: Plan, d: Driver, nodes: seq<Node>): seq<Row> {
    Selected(d, RestrictedSpec(e, child, SentKeys(e, nodes)))
  }

  lemma ReturnedDecoded(e: Edge, table: Table, child: Plan, d: Driver, nodes: seq<Node>, rows: seq<Row>)
    requires Loading(e, table, child, d, nodes, rows)
    ensures Decoded(Widen(e, child), Returned(e, child, d, nodes), Exec(Restrict(e, child, SentKeys(e, nodes)), d).result.value)
  {
    var r := Restrict(e, child, SentKeys(e, nodes));
    PrepareAdds(r);
    ColumnsCarryId(r.table, r.fields, r.kids);
    RowsAreProjections(d, RestrictedSpec(e, child, SentKeys(e, nodes)));
    ExecRows(r, d);
  }

  // What a found node must be for the partner of a key.
  ghost predicate IsPartner(e: Edge, child: Plan, partner: Option<Row>, found: Option<Node>) {
    var w := Widen(e, child);
    match partner
    case None => found.None?
    case Some(row) => found.Some? && found.value.row == Project(row, SpecColumns(w.table, w.fields, w.kids))
  }

  lemma FoundIsPartner(e: Edge, table: Table, child: Plan, d: Driver, nodes: seq<Node>, rows: seq<Row>, far: seq<Node>, i: nat)
    requires Permutes(d) && Keyed(d) && Source(e) == table && child.table == Target(e)
    requires |nodes| == |rows| && KeyColumn(rows, Id) && i < |nodes|
    requires forall k | 0 <= k < |nodes| :: OwnKey(e, nodes[k]) == ReadUuid(rows[k], OwnColumn(e))
    requires Decoded(Widen(e, child), Matching(d, RestrictedSpec(e, child, SentKeys(e, nodes))), far)
    ensures IsPartner(e, child, Partner(e, child, d, OwnKey(e, nodes[i])), Found(e, nodes, far, i))
  {
    var keys := SentKeys(e, nodes);
    FarKeyed(e, table, d);
    SentKeysMembers(e, nodes, i);
    KeyedIndexed(e, nodes, rows, i);
    LookupIsPartner(e, table, child, d, keys, Matching(d, RestrictedSpec(e, child, keys)), far, OwnKey(e, nodes[i]));
  }

  // Without a window, a node gets the row under the key it reads, NULL reading as zero.
  lemma LoadedByKey(e: Edge, table: Table, child: Plan, d: Driver, nodes: seq<Node>, rows: seq<Row>, i: nat)
    requires Loading(e, table, child, d, nodes, rows) && Unwindowed(child) && i < |nodes|
    ensures IsPartner(e, child, Partner(e, child, d, OwnKey(e, nodes[i])), EdgeOf(Loaded(e, child, d, nodes)[i], e))
  {
    hide Exec, Source, Target, OwnColumn, FarColumn, SpecColumns, Partner, Found;
    var r := Restrict(e, child, SentKeys(e, nodes));
    var far := Exec(r, d).result.value;
    PrepareAdds(r);
    ReturnedDecoded(e, table, child, d, nodes, rows);
    FoundIsPartner(e, table, child, d, nodes, rows, far, i);
  }

  function EdgeOf(n: Node, e: Edge): Option<Node> {
    if e in n.edges then Some(n.edges[e]) else None
  }

  predicate HasKey(e: Edge, row: Row) {
    OwnColumn(e) in row && row[OwnColumn(e)].UuidV?
  }

  predicate NoNullKeys(e: Edge, rows: seq<Row>) {
    forall i | 0 <= i < |rows| :: HasKey(e, rows[i])
  }

  // A load agrees with SQL's join on every row exactly when no row has a NULL key or no row the
  // child query wants has the zero id.
  lemma ZeroKeyExact(e: Edge, table: Table, child: Plan, d: Driver, nodes: seq<Node>, rows: seq<Row>)
    requires Loading(e, table, child, d, nodes, rows) && Unwindowed(child) && !KeyOnTarget(e)
    ensures (forall i | 0 <= i < |nodes| :: EdgeAgrees(e, child, d, Loaded(e, child, d, nodes)[i], rows[i]))
            <==> (NoNullKeys(e, rows) || Partner(e, child, d, ZERO_UUID).None?)
  {
    var loaded := Loaded(e, child, d, nodes);
    forall i | 0 <= i < |nodes|
      ensures EdgeAgrees(e, child, d, loaded[i], rows[i])
              <==> (HasKey(e, rows[i]) || Partner(e, child, d, ZERO_UUID).None?)
    {
      ZeroKeyAt(e, table, child, d, nodes, rows, i);
    }
  }

  lemma ZeroKeyAt(e: Edge, table: Table, child: Plan, d: Driver, nodes: seq<Node>, rows: seq<Row>, i: nat)
    requires Loading(e, table, child, d, nodes, rows) && Unwindowed(child) && i < |nodes|
    ensures EdgeAgrees(e, child, d, Loaded(e, child, d, nodes)[i], rows[i])
            <==> (HasKey(e, rows[i]) || Partner(e, child, d, ZERO_UUID).None?)
  {
    LoadedByKey(e, table, child, d, nodes, rows, i);
  }

  // ----- limits and offsets on child queries -----

  // The window drops none of the rows.
  predicate Covers(spec: QuerySpec, matching: nat) {
    && (spec.offset == 0 || matching == 0)
    && (spec.limit == 0 || matching <= spec.limit)
  }

  lemma WindowAt<T>(rows: seq<T>, offset: nat, limit: nat)
    ensures var w := Window(rows, offset, limit);
            && |w| == Min(if limit == 0 then |rows| else limit, |rows| - Min(offset, |rows|))
            && forall k | 0 <= k < |w| :: w[k] == rows[Min(offset, |rows|) + k]
  {
  }

  // A limit or an offset on a child query counts over the whole batch: every row gets the edge under the key it reads
  // exactly when the window drops no matching row.
  lemma WindowByKey(e: Edge, table: Table, child: Plan, d: Driver, nodes: seq<Node>, rows: seq<Row>)
    requires Loading(e, table, child, d, nodes, rows)
    ensures (forall i | 0 <= i < |nodes| :: KeyAgrees(e, child, d, Loaded(e, child, d, nodes)[i]))
            <==> Covers(RestrictedSpec(e, child, SentKeys(e, nodes)),
                        |Matching(d, RestrictedSpec(e, child, SentKeys(e, nodes)))|)
  {
    hide KeyAgrees, Exec, Filter, SpecColumns, Source, Target;
    var spec := RestrictedSpec(e, child, SentKeys(e, nodes));
    var matching := Matching(d, spec);
    WindowAt(matching, spec.offset, spec.limit);
    if Covers(spec, |matching|) {
      assert Returned(e, child, d, nodes) == matching;
      forall i | 0 <= i < |nodes| ensures KeyAgrees(e, child, d, Loaded(e, child, d, nodes)[i]) {
        CoveredAgrees(e, table, child, d, nodes, rows, i);
      }
    } else {
      var k := if spec.offset > 0 then 0 else spec.limit;
      DroppedDisagrees(e, table, child, d, nodes, rows, k);
    }
  }

  // When no row has the zero id, that is SQL's join.
  lemma WindowExact(e: Edge, table: Table, child: Plan, d: Driver, nodes: seq<Node>, rows: seq<Row>)
    requires Loading(e, table, child, d, nodes, rows) && NoZeroIds(d)
    ensures (forall i | 0 <= i < |nodes| :: EdgeAgrees(e, child, d, Loaded(e, child, d, nodes)[i], rows[i]))
            <==> Covers(RestrictedSpec(e, child, SentKeys(e, nodes)),
                        |Matching(d, RestrictedSpec(e, child, SentKeys(e, nodes)))|)
  {
    hide Exec, Filter, SpecColumns, Source, Target, Covers, RestrictedSpec, Partner, SqlPartner, IsPartner, SentKeys;
    WindowByKey(e, table, child, d, nodes, rows);
    forall i | 0 <= i < |nodes|
      ensures EdgeAgrees(e, child, d, Loaded(e, child, d, nodes)[i], rows[i])
              <==> KeyAgrees(e, child, d, Loaded(e, child, d, nodes)[i])
    {
      KeyIsSql(e, table, child, d, rows[i]);
    }
  }

  // The node has the edge under the key that it reads.
  ghost predicate KeyAgrees(e: Edge, child: Plan, d: Driver, n: Node) {
    IsPartner(e, child, Partner(e, child, d, OwnKey(e, n)), EdgeOf(n, e))
  }

  lemma KeyIsSql(e: Edge, table: Table, child: Plan, d: Driver, row: Row)
    requires Keyed(d) && NoZeroIds(d) && Source(e) == table && child.table == Target(e)
    requires KeyOnTarget(e) ==> Id in row && row[Id].UuidV?
    ensures SqlPartner(e, child, d, row) == Partner(e, child, d, ReadUuid(row, OwnColumn(e)))
  {
    NaiveEdgeByKey(e, table, child, d, row);
    if Partner(e, child, d, ReadUuid(row, OwnColumn(e))).Some? {
      assert e in NaiveEdge(e, child, d, row);
    }
  }

  lemma CoveredAgrees(e: Edge, table: Table, child: Plan, d: Driver, nodes: seq<Node>, rows: seq<Row>, i: nat)
    requires Loading(e, table, child, d, nodes, rows) && i < |nodes|
    requires Returned(e, child, d, nodes) == Matching(d, RestrictedSpec(e, child, SentKeys(e, nodes)))
    ensures KeyAgrees(e, child, d, Loaded(e, child, d, nodes)[i])
  {
    hide Exec, Source, Target, OwnColumn, FarColumn, SpecColumns, Partner, Found, IsPartner, SentKeys, Filter;
    var far := Exec(Restrict(e, child, SentKeys(e, nodes)), d).result.value;
    ReturnedDecoded(e, table, child, d, nodes, rows);
    FoundIsPartner(e, table, child, d, nodes, rows, far, i);
  }

  // A matching row outside the window is missing from the node that has its key.
  lemma DroppedDisagrees(e: Edge, table: Table, child: Plan, d: Driver, nodes: seq<Node>, rows: seq<Row>, k: nat)
    requires Loading(e, table, child, d, nodes, rows)
    requires var spec := RestrictedSpec(e, child, SentKeys(e, nodes));
             k < |Matching(d, spec)| && (k < spec.offset || (spec.limit > 0 && k >= spec.offset + spec.limit))
    ensures exists i | 0 <= i < |nodes| :: !KeyAgrees(e, child, d, Loaded(e, child, d, nodes)[i])
  {
    var dropped := Matching(d, RestrictedSpec(e, child, SentKeys(e, nodes)))[k];
    var i := OwnerOf(e, table, child, d, nodes, rows, dropped);
    NotReturned(e, child, table, d, nodes, k);
    MissingEdge(e, table, child, d, nodes, rows, i, dropped);
  }

  // A matching row is the partner of some node.
  lemma OwnerOf(e: Edge, table: Table, child: Plan, d: Driver, nodes: seq<Node>, rows: seq<Row>, row: Row) returns (i: nat)
    requires Loading(e, table, child, d, nodes, rows)
    requires row in Matching(d, RestrictedSpec(e, child, SentKeys(e, nodes)))
    ensures i < |nodes| && Partner(e, child, d, OwnKey(e, nodes[i])) == Some(row)
  {
    RestrictedMembers(e, child, SentKeys(e, nodes), d, row);
    SentKeysAreOwn(e, nodes, row[FarColumn(e)].uuid);
    i :| 0 <= i < |nodes| && OwnKeys(e, nodes)[i] == row[FarColumn(e)].uuid;
    FarKeyed(e, table, d);
    PartnerIs(e, child, d, OwnKey(e, nodes[i]), row);
  }

  lemma NotReturned(e: Edge, child: Plan, table: Table, d: Driver, nodes: seq<Node>, k: nat)
    requires Permutes(d) && Keyed(d)
    requires var spec := RestrictedSpec(e, child, SentKeys(e, nodes));
             k < |Matching(d, spec)| && (k < spec.offset || (spec.limit > 0 && k >= spec.offset + spec.limit))
    ensures Matching(d, RestrictedSpec(e, child, SentKeys(e, nodes)))[k] !in Returned(e, child, d, nodes)
  {
    var spec := RestrictedSpec(e, child, SentKeys(e, nodes));
    WindowAt(Matching(d, spec), spec.offset, spec.limit);
    MatchingKeyed(d, spec, Id);
  }

  lemma MissingEdge(e: Edge, table: Table, child: Plan, d: Driver, nodes: seq<Node>, rows: seq<Row>, i: nat, partner: Row)
    requires Loading(e, table, child, d, nodes, rows) && i < |nodes|
    requires Partner(e, child, d, OwnKey(e, nodes[i])) == Some(partner) && partner !in Returned(e, child, d, nodes)
    ensures EdgeOf(Loaded(e, child, d, nodes)[i], e).None?
  {
    var keys := SentKeys(e, nodes);
    var spec := RestrictedSpec(e, child, keys);
    var far := Exec(Restrict(e, child, keys), d).result.value;
    FarKeyed(e, table, d);
    ReturnedDecoded(e, table, child, d, nodes, rows);
    WindowAt(Matching(d, spec), spec.offset, spec.limit);
    LookupFinds(e, table, child, d, keys, Returned(e, child, d, nodes), far, OwnKey(e, nodes[i]));
  }

  // Of several results with a node's key, the last one in result order is kept; with none, the edge stays absent.
  // On the one-to-one edge this needs distinct node ids.
  lemma LastResultWins(e: Edge, nodes: seq<Node>, far: seq<Node>, i: nat)
    requires i < |nodes| && e !in nodes[i].edges
    requires KeyOnTarget(e) ==> forall j, k | 0 <= j < k < |nodes| :: OwnKey(e, nodes[j]) != OwnKey(e, nodes[k])
    ensures var n := Attach(e, nodes, far)[i];
            && (e in n.edges <==> exists j :: 0 <= j < |far| && FarKey(e, far[j]) == OwnKey(e, nodes[i]))
            && (forall j | 0 <= j < |far| && FarKey(e, far[j]) == OwnKey(e, nodes[i]) ::
                  (forall k | j < k < |far| :: FarKey(e, far[k]) != OwnKey(e, nodes[i])) ==> n.edges[e] == far[j])
  {
    hide OwnKey, FarKey;
    assert Attach(e, nodes, far)[i] == AttachOne(e, nodes, far, i);
  }
}
