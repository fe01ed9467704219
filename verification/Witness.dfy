/** Small stores, queries and bulks on which the program does not do what its documentation says: one for each
  * property that fails, with the wrong result. */
module Witnesses {
  import opened Schema
  import opened Driver
  import opened Plans
  import opened Join
  import opened Rerun
  import opened Edges
  import opened Terminals

  // A store of components and clusters that keeps the order of its rows.
  function Store(components: seq<Row>, clusters: seq<Row>): Driver {
    Driver(
      (t: Table) => if t == Components then components else if t == Clusters then clusters else [],
      (order: seq<OrderTerm>, rows: seq<Row>) => rows,
      (t: Table) => true,
      (columns: seq<Column>) => |columns| == 1)
  }

  function Cluster(id: Uuid): Row {
    map[Id := UuidV(id)]
  }

  function Targeting(id: Uuid, key: Value): Row {
    map[Id := UuidV(id), TargetClusterId := key]
  }

  function Ask(table: Table, kids: Kids): Plan {
    Plan(table, [], [], [], None, None, None, [], kids)
  }

  // All components with their target clusters.
  function WithClusters(child: Plan): Plan {
    Ask(Components, Kid(ComponentTargetCluster, child, NoKids))
  }

  // A query without traversers and selected fields fetches whole rows.
  predicate Plain(p: Plan) {
    p.inters == [] && p.fields == [] && p.unique.None?
  }

  // Rows with no column beyond those of their table.
  predicate Fits(table: Table, rows: seq<Row>) {
    forall row | row in rows :: Columned(table, row)
  }

  predicate Columned(table: Table, row: Row) {
    forall c | c in row :: c in TableColumns(table)
  }

  lemma WholeRows(table: Table, rows: seq<Row>)
    requires Fits(table, rows)
    ensures ProjectAll(rows, TableColumns(table)) == rows
  {
    hide TableColumns;
    forall i | 0 <= i < |rows| ensures Project(rows[i], TableColumns(table)) == rows[i] {
      assert Columned(table, rows[i]);
    }
  }

  lemma FilterFits(table: Table, rows: seq<Row>, ps: seq<Predicate>)
    requires Fits(table, rows)
    ensures Fits(table, Filter(rows, ps))
  {
    hide Columned;
    forall row | row in Filter(rows, ps) ensures Columned(table, row) {
      FilterMembers(rows, ps, row);
    }
  }

  // What a plain query fetches.
  function Fetch(p: Plan, d: Driver): seq<Row> {
    Window(Filter(d.tables(p.table), p.predicates), if p.offset.Some? then p.offset.value else 0,
           if p.limit.Some? then p.limit.value else 0)
  }

  lemma PlainRows(p: Plan, components: seq<Row>, clusters: seq<Row>)
    requires Plain(p) && Fits(p.table, Store(components, clusters).tables(p.table))
    ensures Prepare(p) == Prepared(p, None)
    ensures QueryNodes(Store(components, clusters), SpecOf(p)) == Ok(Fetch(p, Store(components, clusters)))
  {
    hide TableColumns;
    var d := Store(components, clusters);
    FilterFits(p.table, d.tables(p.table), p.predicates);
    WholeRows(p.table, Filter(d.tables(p.table), p.predicates));
    assert InvalidFields(p.table, p.fields) == [];
  }

  // A plain query without edges returns its rows.
  lemma PlainRun(p: Plan, components: seq<Row>, clusters: seq<Row>)
    requires Plain(p) && p.kids == NoKids && Fits(p.table, Store(components, clusters).tables(p.table))
    ensures Exec(p, Store(components, clusters)) == Run(p, Ok(Bare(Fetch(p, Store(components, clusters)), {})))
  {
    hide TableColumns, QueryNodes, SpecOf, Prepare, Fetch;
    PlainRows(p, components, clusters);
    var d := Store(components, clusters);
    assert Fetch(p, d) == [] ==> Bare(Fetch(p, d), {}) == [];
  }

  lemma StoreColumns(components: seq<Row>, clusters: seq<Row>)
    requires forall row | row in components :: row.Keys == {Id, TargetClusterId}
    requires forall row | row in clusters :: row.Keys == {Id}
    ensures Fits(Components, components) && Fits(Clusters, clusters)
  {
    assert Id in TableColumns(Components) && TargetClusterId in TableColumns(Components) && Id in TableColumns(Clusters);
  }

  // Components with their clusters, step by step: the components, then one query for the clusters of all.
  lemma WithClustersRun(child: Plan, components: seq<Row>, clusters: seq<Row>)
    requires forall row | row in components :: row.Keys == {Id, TargetClusterId}
    requires forall row | row in clusters :: row.Keys == {Id}
    requires Plain(child) && child.table == Clusters && child.kids == NoKids && components != []
    ensures var d, e := Store(components, clusters), ComponentTargetCluster;
            var nodes := Bare(components, {e});
            var r := Restrict(e, child, SentKeys(e, nodes));
            var far := Bare(Fetch(r, d), {});
            Exec(WithClusters(child), d) ==
              if Strangers(e, nodes, far) == [] then Run(WithClusters(r), Ok(Attach(e, nodes, far)))
              else Run(WithClusters(r), Err(UnexpectedForeignKey(e, FarKey(e, Strangers(e, nodes, far)[0]))))
  {
    hide TableColumns, QueryNodes, SpecOf, Prepare, Strangers, Attach, SentKeys;
    StoreColumns(components, clusters);
    var d, e, p := Store(components, clusters), ComponentTargetCluster, WithClusters(child);
    PlainRows(p, components, clusters);
    WholeTable(components);
    var nodes := Bare(components, {e});
    assert KidEdges(p.kids) == {e};
    var r := Restrict(e, child, SentKeys(e, nodes));
    PlainRun(r, components, clusters);
    LoadOne(e, child, d, nodes);
  }

  lemma {:induction false} WholeTable(rows: seq<Row>)
    ensures Filter(rows, []) == rows
  {
    if rows != [] {
      WholeTable(rows[1..]);
    }
  }

  lemma LoadOne(e: Edge, child: Plan, d: Driver, nodes: seq<Node>)
    requires Exec(Restrict(e, child, SentKeys(e, nodes)), d).result.Ok?
    ensures var run := Exec(Restrict(e, child, SentKeys(e, nodes)), d);
            var strangers := Strangers(e, nodes, run.result.value);
            LoadKids(Kid(e, child, NoKids), d, nodes) == KidsRun(
              Kid(e, run.plan, NoKids),
              if strangers != [] then Err(UnexpectedForeignKey(e, FarKey(e, strangers[0])))
              else Ok(Attach(e, nodes, run.result.value)))
  {
    hide Exec, Strangers, Attach, SentKeys;
  }

  lemma OneKey(key: Uuid)
    ensures FirstOccurrences([key]) == [key]
  {
    assert [key][..0] == [];
  }

  lemma TwoKeys(a: Uuid, b: Uuid)
    requires a != b
    ensures FirstOccurrences([a, b]) == [a, b]
  {
    assert [a, b][..1] == [a];
    OneKey(a);
  }

  lemma OneSent(e: Edge, nodes: seq<Node>)
    requires |nodes| == 1 && !KeyOnTarget(e)
    ensures SentKeys(e, nodes) == [OwnKey(e, nodes[0])]
  {
    hide FirstOccurrences, OwnKey;
    assert OwnKeys(e, nodes) == [OwnKey(e, nodes[0])];
    OneKey(OwnKey(e, nodes[0]));
  }

  lemma TwoSent(e: Edge, nodes: seq<Node>)
    requires |nodes| == 2 && !KeyOnTarget(e) && OwnKey(e, nodes[0]) != OwnKey(e, nodes[1])
    ensures SentKeys(e, nodes) == [OwnKey(e, nodes[0]), OwnKey(e, nodes[1])]
  {
    hide FirstOccurrences, OwnKey;
    assert OwnKeys(e, nodes) == [OwnKey(e, nodes[0]), OwnKey(e, nodes[1])];
    TwoKeys(OwnKey(e, nodes[0]), OwnKey(e, nodes[1]));
  }

  lemma KeepsOne(row: Row, ps: seq<Predicate>)
    ensures Filter([row], ps) == if AllHold(ps, row) then [row] else []
  {
    hide AllHold;
    assert [row][1..] == [];
  }

  lemma KeepsTwo(a: Row, b: Row, ps: seq<Predicate>)
    ensures Filter([a, b], ps) == (if AllHold(ps, a) then [a] else []) + (if AllHold(ps, b) then [b] else [])
  {
    hide AllHold;
    assert [a, b][1..] == [b];
    KeepsOne(b, ps);
  }

  lemma HoldsOne(p: Predicate, row: Row)
    ensures AllHold([p], row) <==> Holds(p, row)
  {
    assert [p][0] == p;
  }

  // The clusters found for some components under the keys sent.
  lemma FetchedClusters(keys: seq<Uuid>, limit: Option<nat>, components: seq<Row>, a: Uuid, b: Uuid)
    requires limit.Some? ==> limit.value == 1
    ensures var r := Restrict(ComponentTargetCluster, Ask(Clusters, NoKids).(limit := limit), keys);
            && (a in keys ==> Fetch(r, Store(components, [Cluster(a)])) == [Cluster(a)])
            && (a in keys && limit.Some? ==> Fetch(r, Store(components, [Cluster(a), Cluster(b)])) == [Cluster(a)])
            && (a in keys && b !in keys ==> Fetch(r, Store(components, [Cluster(a), Cluster(b)])) == [Cluster(a)])
  {
    hide Filter, AllHold, TableColumns;
    var r := Restrict(ComponentTargetCluster, Ask(Clusters, NoKids).(limit := limit), keys);
    assert r.predicates == [In(Id, keys)];
    HoldsOne(In(Id, keys), Cluster(a));
    HoldsOne(In(Id, keys), Cluster(b));
    KeepsOne(Cluster(a), r.predicates);
    KeepsTwo(Cluster(a), Cluster(b), r.predicates);
  }

  // Attaching one cluster: the components with its id get it, the others nothing.
  lemma AttachOneCluster(components: seq<Row>, id: Uuid, i: nat)
    requires i < |components| && exists j :: 0 <= j < |components| && ReadUuid(components[j], TargetClusterId) == id
    ensures var e := ComponentTargetCluster;
            var nodes, far := Bare(components, {e}), Bare([Cluster(id)], {});
            && Strangers(e, nodes, far) == []
            && EdgeOrErr(Attach(e, nodes, far)[i], e) ==
                 if ReadUuid(components[i], TargetClusterId) == id then Ok(Node(Cluster(id), {}, map[])) else Err(NotFound)
  {
    hide LastWithKey, Strangers;
    var e := ComponentTargetCluster;
    var nodes, far := Bare(components, {e}), Bare([Cluster(id)], {});
    var j :| 0 <= j < |components| && ReadUuid(components[j], TargetClusterId) == id;
    assert OwnKeys(e, nodes)[j] == id;
    NoStrangers(e, nodes, far);
    assert FarKey(e, far[0]) == id;
  }

  // The whole run when one cluster is fetched.
  lemma OneClusterRun(child: Plan, components: seq<Row>, clusters: seq<Row>, keys: seq<Uuid>, id: Uuid)
    requires forall row | row in components :: row.Keys == {Id, TargetClusterId}
    requires forall row | row in clusters :: row.Keys == {Id}
    requires Plain(child) && child.table == Clusters && child.kids == NoKids
    requires exists j :: 0 <= j < |components| && ReadUuid(components[j], TargetClusterId) == id
    requires SentKeys(ComponentTargetCluster, Bare(components, {ComponentTargetCluster})) == keys
    requires Fetch(Restrict(ComponentTargetCluster, child, keys), Store(components, clusters)) == [Cluster(id)]
    ensures var r := Exec(WithClusters(child), Store(components, clusters));
            && r.plan == WithClusters(Restrict(ComponentTargetCluster, child, keys))
            && r.result.Ok? && |r.result.value| == |components|
            && forall i | 0 <= i < |components| ::
                 EdgeOrErr(r.result.value[i], ComponentTargetCluster) ==
                   if ReadUuid(components[i], TargetClusterId) == id then Ok(Node(Cluster(id), {}, map[])) else Err(NotFound)
  {
    hide Exec, SentKeys, TableColumns, Attach, Strangers, Fetch, Store, EdgeOrErr;
    WithClustersRun(child, components, clusters);
    var e := ComponentTargetCluster;
    AttachLength(e, Bare(components, {e}), Bare([Cluster(id)], {}));
    forall i | 0 <= i < |components|
      ensures EdgeOrErr(Attach(e, Bare(components, {e}), Bare([Cluster(id)], {}))[i], e) ==
                if ReadUuid(components[i], TargetClusterId) == id then Ok(Node(Cluster(id), {}, map[])) else Err(NotFound)
    {
      AttachOneCluster(components, id, i);
    }
    AttachOneCluster(components, id, 0);
  }

  lemma AttachLength(e: Edge, nodes: seq<Node>, far: seq<Node>)
    ensures |Attach(e, nodes, far)| == |nodes|
  {
  }

  // A component with a NULL target cluster is joined to the cluster whose id is zero; SQL joins it to none.
  lemma NullKeyJoined()
    ensures var d := Store([Targeting(11, Null)], [Cluster(ZERO_UUID)]);
            var r := Exec(WithClusters(Ask(Clusters, NoKids)), d).result;
            && r.Ok? && |r.value| == 1
            && EdgeOrErr(r.value[0], ComponentTargetCluster) == Ok(Node(Cluster(ZERO_UUID), {}, map[]))
            && SqlPartner(ComponentTargetCluster, Ask(Clusters, NoKids), d, Targeting(11, Null)) == None
  {
    hide Exec, Filter, SentKeys, AllHold, TableColumns, Partner, Fetch, Store, EdgeOrErr;
    var components := [Targeting(11, Null)];
    OneSent(ComponentTargetCluster, Bare(components, {ComponentTargetCluster}));
    FetchedClusters([ZERO_UUID], None, components, ZERO_UUID, 1);
    assert ReadUuid(components[0], TargetClusterId) == ZERO_UUID;
    OneClusterRun(Ask(Clusters, NoKids), components, [Cluster(ZERO_UUID)], [ZERO_UUID], ZERO_UUID);
  }

  const TWO_COMPONENTS := [Targeting(11, UuidV(1)), Targeting(12, UuidV(2))]

  const TWO_CLUSTERS := [Cluster(1), Cluster(2)]

  lemma TwoComponentKeys()
    ensures SentKeys(ComponentTargetCluster, Bare(TWO_COMPONENTS, {ComponentTargetCluster})) == [1, 2]
    ensures ReadUuid(TWO_COMPONENTS[0], TargetClusterId) == 1 && ReadUuid(TWO_COMPONENTS[1], TargetClusterId) == 2
  {
    hide SentKeys;
    TwoSent(ComponentTargetCluster, Bare(TWO_COMPONENTS, {ComponentTargetCluster}));
  }

  // With a limit of one on the clusters, the second of two components does not find its cluster.
  lemma LimitedChild()
    ensures var d := Store(TWO_COMPONENTS, TWO_CLUSTERS);
            var child := Ask(Clusters, NoKids).(limit := Some(1));
            var r := Exec(WithClusters(child), d).result;
            && r.Ok? && |r.value| == 2
            && EdgeOrErr(r.value[0], ComponentTargetCluster) == Ok(Node(Cluster(1), {}, map[]))
            && EdgeOrErr(r.value[1], ComponentTargetCluster) == Err(NotFound)
            && Partner(ComponentTargetCluster, child, d, 2) == Some(Cluster(2))
  {
    hide Exec, Filter, SentKeys, AllHold, TableColumns, Fetch, Store, EdgeOrErr, Partner;
    var child := Ask(Clusters, NoKids).(limit := Some(1));
    TwoComponentKeys();
    FetchedClusters([1, 2], Some(1), TWO_COMPONENTS, 1, 2);
    OneClusterRun(child, TWO_COMPONENTS, TWO_CLUSTERS, [1, 2], 1);
    SecondCluster(TWO_COMPONENTS, child);
  }

  lemma SecondCluster(components: seq<Row>, child: Plan)
    requires child.table == Clusters && child.predicates == [] && child.inters == []
    ensures Partner(ComponentTargetCluster, child, Store(components, TWO_CLUSTERS), 2) == Some(Cluster(2))
  {
    hide Filter, AllHold;
    HoldsOne(In(Id, [2]), Cluster(1));
    HoldsOne(In(Id, [2]), Cluster(2));
    KeepsTwo(Cluster(1), Cluster(2), [In(Id, [2])]);
    assert Wanted(child) + [In(Id, [2])] == [In(Id, [2])];
    assert [] + [Cluster(2)] == [Cluster(2)];
  }

  // A query run again after a component and its cluster were added does not find that cluster.
  lemma StaleKeys()
    ensures var e := ComponentTargetCluster;
            var before := Store([Targeting(11, UuidV(1))], [Cluster(1)]);
            var now := Store(TWO_COMPONENTS, TWO_CLUSTERS);
            var left := Exec(WithClusters(Ask(Clusters, NoKids)), before).plan;
            var r := Exec(left, now).result;
            && r.Ok? && |r.value| == 2
            && EdgeOrErr(r.value[0], e) == Ok(Node(Cluster(1), {}, map[]))
            && EdgeOrErr(r.value[1], e) == Err(NotFound)
            && Partner(e, Ask(Clusters, NoKids), now, 2) == Some(Cluster(2))
  {
    hide Exec, Filter, SentKeys, AllHold, TableColumns, Fetch, Store, EdgeOrErr, Partner;
    var e, child, first := ComponentTargetCluster, Ask(Clusters, NoKids), [Targeting(11, UuidV(1))];
    OneSent(e, Bare(first, {e}));
    FetchedClusters([1], None, first, 1, 2);
    assert ReadUuid(first[0], TargetClusterId) == 1;
    OneClusterRun(child, first, [Cluster(1)], [1], 1);
    TwoComponentKeys();
    StaleFetch(TWO_COMPONENTS);
    OneClusterRun(Restrict(e, child, [1]), TWO_COMPONENTS, TWO_CLUSTERS, [1, 2], 1);
    SecondCluster(TWO_COMPONENTS, child);
  }

  lemma StaleFetch(components: seq<Row>)
    ensures var e := ComponentTargetCluster;
            var r := Restrict(e, Restrict(e, Ask(Clusters, NoKids), [1]), [1, 2]);
            Fetch(r, Store(components, TWO_CLUSTERS)) == [Cluster(1)]
  {
    hide Filter, TableColumns;
    var e := ComponentTargetCluster;
    var r := Restrict(e, Restrict(e, Ask(Clusters, NoKids), [1]), [1, 2]);
    assert r.predicates == [In(Id, [1]), In(Id, [1, 2])];
    assert !Holds(r.predicates[0], Cluster(2));
    KeepsTwo(Cluster(1), Cluster(2), r.predicates);
  }

  // First leaves its limit in the builder: the next run of a query for two components returns one.
  lemma LimitStays()
    ensures var d := Store([Targeting(11, Null), Targeting(12, Null)], []);
            var p := Ask(Components, NoKids);
            && Exec(p, d).result.Ok? && |Exec(p, d).result.value| == 2
            && Exec(FirstOf(p, d).plan, d).result.Ok? && |Exec(FirstOf(p, d).plan, d).result.value| == 1
  {
    hide Exec, Filter, TableColumns;
    var components := [Targeting(11, Null), Targeting(12, Null)];
    var p := Ask(Components, NoKids);
    StoreColumns(components, []);
    WholeTable(components);
    PlainRun(p, components, []);
    PlainRun(p.(limit := Some(1)), components, []);
  }

  // Exist answers once, and on the same builder again fails to scan.
  lemma ExistTwice()
    ensures var d := Store([Targeting(11, Null)], []);
            var p := Ask(Components, NoKids);
            ExistOf(p, d).result == Ok(true) && ExistOf(ExistOf(p, d).plan, d).result == Err(ScanMismatch)
  {
    hide Filter, TableColumns, ExistOf, Prepare;
    var components := [Targeting(11, Null)];
    var d, p := Store(components, []), Ask(Components, NoKids);
    StoreColumns(components, []);
    WholeTable(components);
    PlainRows(p, components, []);
    ExistOnce(p, d);
    PlainKeyed();
    ExistExact(p, d);
    PlainRows(p.(limit := None), components, []);
  }

  lemma PlainKeyed()
    ensures Permutes(Store([Targeting(11, Null)], [])) && Keyed(Store([Targeting(11, Null)], []))
  {
  }
}
