/** Eager loading computes the join: what running a plan returns is, row by row, what looking up
  * each edge of each row on its own would return. */
module Join {
  import opened Schema
  import opened Driver
  import opened Plans

  // ----- the join, one row and one edge at a time -----

  // What the traversers of a query add to it before the first one that fails.
  function Adds(inters: seq<Interceptor>): seq<Predicate> {
    if inters == [] then []
    else match inters[0]
      case Uninitialized | Refusing(_) => []
      case Wrapper => Adds(inters[1..])
      case Traverser(adds) => adds + Adds(inters[1..])
  }

  function Wanted(p: Plan): seq<Predicate> {
    p.predicates + Adds(p.inters)
  }

  // The row with the key that satisfies the query's own predicates.
  function Partner(e: Edge, child: Plan, d: Driver, key: Uuid): Option<Row> {
    var found := Filter(d.tables(child.table), Wanted(child) + [In(FarColumn(e), [key])]);
    if found == [] then None else Some(found[|found| - 1])
  }

  function NaiveNode(p: Plan, d: Driver, row: Row): Node
    decreases Size(p)
  {
    Node(Project(row, SpecColumns(p.table, p.fields, p.kids)), KidEdges(p.kids), NaiveEdges(p.kids, d, row))
  }

  function NaiveEdges(ks: Kids, d: Driver, row: Row): map<Edge, Node>
    decreases KidsSize(ks)
  {
    match ks
    case NoKids => map[]
    case Kid(e, child, rest) => NaiveEdge(e, child, d, row) + NaiveEdges(rest, d, row)
  }

  // A NULL key has no partner.
  function NaiveEdge(e: Edge, child: Plan, d: Driver, row: Row): map<Edge, Node>
    decreases 1 + Size(child), 0
  {
    if !(OwnColumn(e) in row && row[OwnColumn(e)].UuidV?) then map[]
    else match Partner(e, child, d, row[OwnColumn(e)].uuid)
      case None => map[]
      case Some(partner) =>
        assert Size(Widen(e, child)) == Size(child);
        map[e := NaiveNode(Widen(e, child), d, partner)]
  }

  // The same join on the keys as they are read, NULL reading as the zero id.
  function NodeByKey(p: Plan, d: Driver, row: Row): Node
    decreases Size(p)
  {
    Node(Project(row, SpecColumns(p.table, p.fields, p.kids)), KidEdges(p.kids), EdgesByKey(p.kids, d, row))
  }

  function EdgesByKey(ks: Kids, d: Driver, row: Row): map<Edge, Node>
    decreases KidsSize(ks)
  {
    match ks
    case NoKids => map[]
    case Kid(e, child, rest) => EdgeByKey(e, child, d, row) + EdgesByKey(rest, d, row)
  }

  function EdgeByKey(e: Edge, child: Plan, d: Driver, row: Row): map<Edge, Node>
    decreases 1 + Size(child), 0
  {
    match Partner(e, child, d, ReadUuid(row, OwnColumn(e)))
    case None => map[]
    case Some(partner) =>
      assert Size(Widen(e, child)) == Size(child);
      map[e := NodeByKey(Widen(e, child), d, partner)]
  }

  // The rows a query selects, before projection.
  function Selected(d: Driver, spec: QuerySpec): seq<Row> {
    Window(Matching(d, spec), spec.offset, spec.limit)
  }

  // The rows a query asks for: those of its table that it wants, in its order, from its offset on and no more than its
  // limit. A limit of zero is none.
  function Chosen(p: Plan, d: Driver): seq<Row> {
    var rows := d.arrange(p.order, Filter(d.tables(p.table), Wanted(p)));
    var rest := if p.offset.Some? && p.offset.value < |rows| then rows[p.offset.value..]
                else if p.offset.Some? then []
                else rows;
    if p.limit.Some? && 0 < p.limit.value < |rest| then rest[..p.limit.value] else rest
  }

  function NaiveNodes(p: Plan, d: Driver, rows: seq<Row>): seq<Node> {
    seq(|rows|, i requires 0 <= i < |rows| => NaiveNode(p, d, rows[i]))
  }

  function NodesByKey(p: Plan, d: Driver, rows: seq<Row>): seq<Node> {
    seq(|rows|, i requires 0 <= i < |rows| => NodeByKey(p, d, rows[i]))
  }

  function AllByKey(p: Plan, d: Driver): seq<Node> {
    NodesByKey(p, d, Chosen(p, d))
  }

  function NaiveAll(p: Plan, d: Driver): seq<Node> {
    NaiveNodes(p, d, Chosen(p, d))
  }

  // ----- what the join asks of the store and of the query -----

  // The column holds a key in every row, and no key twice.
  ghost predicate KeyColumn(rows: seq<Row>, c: Column) {
    && (forall i | 0 <= i < |rows| :: c in rows[i] && rows[i][c].UuidV?)
    && (forall i, j | 0 <= i < j < |rows| :: rows[i][c] != rows[j][c])
  }

  // Primary keys, and the unique index on the one-to-one key.
  ghost predicate Keyed(d: Driver) {
    && (forall table :: KeyColumn(d.tables(table), Id))
    && KeyColumn(d.tables(TektonInstallations), ClusterId)
  }

  ghost predicate NoZeroIds(d: Driver) {
    forall table :: forall row | row in d.tables(table) :: Id in row ==> row[Id] != UuidV(ZERO_UUID)
  }

  // Every edge belongs to the table it is loaded for, and its query reads the table it leads to.
  predicate WellFormed(table: Table, ks: Kids)
    decreases ks
  {
    match ks
    case NoKids => true
    case Kid(e, child, rest) =>
      && Source(e) == table
      && child.table == Target(e)
      && WellFormed(child.table, child.kids)
      && WellFormed(table, rest)
  }

  // No limit and no offset, which both count over the whole batch rather than per row.
  predicate Unwindowed(p: Plan) {
    && (p.limit.Some? ==> p.limit.value == 0)
    && (p.offset.Some? ==> p.offset.value == 0)
  }

  predicate UnwindowedKids(ks: Kids) {
    match ks
    case NoKids => true
    case Kid(_, child, rest) => Unwindowed(child) && UnwindowedKids(child.kids) && UnwindowedKids(rest)
  }

  // ----- columns -----

  lemma {:induction false} AddKeysKeeps(columns: seq<Column>, ks: Kids, c: Column)
    requires c in columns
    ensures c in AddKeys(columns, ks)
    decreases ks
  {
    match ks {
      case NoKids =>
      case Kid(e, _, rest) =>
        AddKeysKeeps(if KeyOnTarget(e) then columns else AddOnce(columns, OwnColumn(e)), rest, c);
    }
  }

  lemma {:induction false} AddKeysAdds(columns: seq<Column>, ks: Kids, e: Edge)
    requires e in KidEdges(ks) && !KeyOnTarget(e)
    ensures OwnColumn(e) in AddKeys(columns, ks)
    decreases ks
  {
    match ks {
      case Kid(f, _, rest) =>
        var next := if KeyOnTarget(f) then columns else AddOnce(columns, OwnColumn(f));
        if f == e {
          AddKeysKeeps(next, rest, OwnColumn(e));
        } else {
          AddKeysAdds(next, rest, e);
        }
    }
  }

  lemma {:induction false} WithoutIdKeeps(fields: seq<Column>, c: Column)
    requires c in fields && c != Id
    ensures c in WithoutId(fields)
  {
    if fields[0] != c {
      WithoutIdKeeps(fields[1..], c);
    }
  }

  lemma OwnColumnBelongs(e: Edge)
    ensures OwnColumn(e) in TableColumns(Source(e))
  {
    var columns := TableColumns(Source(e));
    match e
    case ComponentApplication | StageApplication => assert columns[2] == ApplicationId;
    case ComponentTargetCluster => assert columns[11] == TargetClusterId;
    case ComponentChartCredential => assert columns[13] == ChartCredentialId;
    case ComponentGithubInstallation => assert columns[14] == GithubInstallationId;
    case ComponentStage => assert columns[6] == StageId;
    case ApplicationRunnerCluster => assert columns[7] == RunnerClusterId;
    case ClusterTekton => assert columns[0] == Id;
    case TektonCluster => assert columns[1] == ClusterId;
    case _ => assert columns[1] == OrganizationId;
  }

  lemma FarColumnBelongs(e: Edge)
    ensures FarColumn(e) in TableColumns(Target(e))
  {
    if KeyOnTarget(e) {
      assert TableColumns(TektonInstallations)[1] == ClusterId;
    } else {
      TablesHaveId(Target(e));
    }
  }

  lemma TablesHaveId(table: Table)
    ensures Id in TableColumns(table)
  {
    assert TableColumns(table)[0] == Id;
  }

  // Whatever fields are selected, the primary key and the keys of the requested edges are fetched.
  lemma ColumnsCarryKeys(table: Table, fields: seq<Column>, ks: Kids, e: Edge)
    requires Source(e) == table && e in KidEdges(ks)
    ensures OwnColumn(e) in SpecColumns(table, fields, ks)
  {
    OwnColumnBelongs(e);
    if KeyOnTarget(e) {
      ColumnsCarryId(table, fields, ks);
    } else if fields != [] {
      AddKeysAdds([Id] + WithoutId(fields), ks, e);
    }
  }

  lemma ColumnsCarryId(table: Table, fields: seq<Column>, ks: Kids)
    ensures Id in SpecColumns(table, fields, ks)
  {
    TablesHaveId(table);
    AddKeysKeeps([Id] + WithoutId(fields), ks, Id);
  }

  // A child query always fetches the key it is joined on.
  lemma ColumnsCarryFarKey(e: Edge, table: Table, child: Plan)
    requires Source(e) == table && child.table == Target(e)
    ensures var w := Widen(e, child); FarColumn(e) in SpecColumns(w.table, w.fields, w.kids)
  {
    FarColumnBelongs(e);
    var w := Widen(e, child);
    if !KeyOnTarget(e) {
      ColumnsCarryId(w.table, w.fields, w.kids);
    } else if w.fields != [] {
      WithoutIdKeeps(w.fields, ClusterId);
      AddKeysKeeps([Id] + WithoutId(w.fields), w.kids, ClusterId);
    }
  }

  // ----- key columns survive filtering and arranging -----

  lemma {:induction false} CountOnce(rows: seq<Row>, c: Column, row: Row)
    requires KeyColumn(rows, c)
    ensures multiset(rows)[row] <= 1
  {
    if rows != [] {
      var n := |rows| - 1;
      assert rows == rows[..n] + [rows[n]];
      CountOnce(rows[..n], c, row);
      assert row == rows[n] ==> row !in rows[..n];
    }
  }

  lemma CountTwice(rows: seq<Row>, i: nat, j: nat)
    requires i < j < |rows| && rows[i] == rows[j]
    ensures multiset(rows)[rows[i]] >= 2
  {
    assert rows == rows[..j] + rows[j..];
    assert rows[..j][i] in multiset(rows[..j]) && rows[j..][0] in multiset(rows[j..]);
  }

  lemma {:induction false} FilterKeyed(rows: seq<Row>, ps: seq<Predicate>, c: Column)
    requires KeyColumn(rows, c)
    ensures KeyColumn(Filter(rows, ps), c)
  {
    if rows != [] {
      var rest := Filter(rows[1..], ps);
      FilterKeyed(rows[1..], ps, c);
      forall i | 0 <= i < |rest| ensures rest[i][c] != rows[0][c] {
        FilterMembers(rows[1..], ps, rest[i]);
      }
    }
  }

  lemma KeysTellRowsApart(rows: seq<Row>, c: Column, r: Row, s: Row)
    requires KeyColumn(rows, c) && r in rows && s in rows && r[c] == s[c]
    ensures r == s
  {
  }

  lemma MatchingKeyed(d: Driver, spec: QuerySpec, c: Column)
    requires Permutes(d) && KeyColumn(d.tables(spec.table), c)
    ensures KeyColumn(Matching(d, spec), c)
  {
    var rows := Filter(d.tables(spec.table), spec.predicates);
    var arranged := Matching(d, spec);
    assert multiset(d.arrange(spec.order, rows)) == multiset(rows);
    FilterKeyed(d.tables(spec.table), spec.predicates, c);
    forall i | 0 <= i < |arranged| ensures arranged[i] in rows {
      assert arranged[i] in multiset(arranged);
    }
    forall i, j | 0 <= i < j < |arranged| ensures arranged[i][c] != arranged[j][c] {
      if arranged[i][c] == arranged[j][c] {
        KeysTellRowsApart(rows, c, arranged[i], arranged[j]);
        CountTwice(arranged, i, j);
        CountOnce(rows, c, arranged[i]);
      }
    }
  }

  // DISTINCT and the window act on whole rows: projection, which always keeps the primary key,
  // makes no two rows equal.
  lemma RowsAreProjections(d: Driver, spec: QuerySpec)
    requires Permutes(d) && KeyColumn(d.tables(spec.table), Id) && Id in spec.columns
    ensures Rows(d, spec) == ProjectAll(Selected(d, spec), spec.columns)
  {
    hide Filter, Distinct, Matching;
    var rows := Matching(d, spec);
    var projected := ProjectAll(rows, spec.columns);
    MatchingKeyed(d, spec, Id);
    forall i, j | 0 <= i < j < |projected| ensures projected[i] != projected[j] {
      assert projected[i][Id] == rows[i][Id] && projected[j][Id] == rows[j][Id];
    }
    DistinctUnrepeated(projected);
  }

  // ----- what a restriction does -----

  lemma {:induction false} TraverseAdds(p: Plan, inters: seq<Interceptor>)
    ensures Traverse(p, inters).plan == p.(predicates := p.predicates + Adds(inters))
    decreases |inters|
  {
    if inters != [] {
      match inters[0] {
        case Traverser(adds) =>
          var q := p.(predicates := p.predicates + adds);
          TraverseAdds(q, inters[1..]);
          assert q.predicates + Adds(inters[1..]) == p.predicates + Adds(inters);
        case Wrapper => TraverseAdds(p, inters[1..]);
        case _ => assert p.predicates + [] == p.predicates;
      }
    } else {
      assert p.predicates + [] == p.predicates;
    }
  }

  lemma PrepareAdds(p: Plan)
    ensures Prepare(p).plan == p.(predicates := Wanted(p))
  {
    TraverseAdds(p, p.inters);
  }

  // The specification that a run hands to the executor chooses exactly these rows.
  lemma ChosenIs(p: Plan, d: Driver)
    ensures Selected(d, SpecOf(Prepare(p).plan)) == Chosen(p, d)
  {
    hide Filter, SpecColumns;
    PrepareAdds(p);
    var rows := d.arrange(p.order, Filter(d.tables(p.table), Wanted(p)));
    assert rows[0..] == rows && rows[|rows|..] == [];
  }

  lemma AllHoldAppend(ps: seq<Predicate>, qs: seq<Predicate>, row: Row)
    ensures AllHold(ps + qs, row) <==> AllHold(ps, row) && AllHold(qs, row)
  {
    if AllHold(ps + qs, row) {
      forall i | 0 <= i < |ps| ensures Holds(ps[i], row) {
        assert (ps + qs)[i] == ps[i];
      }
      forall i | 0 <= i < |qs| ensures Holds(qs[i], row) {
        assert (ps + qs)[|ps| + i] == qs[i];
      }
    }
  }

  // The rows a restricted child query matches are those it wants, with one of the keys.
  lemma RestrictedMembers(e: Edge, child: Plan, keys: seq<Uuid>, d: Driver, row: Row)
    requires Permutes(d)
    ensures row in Matching(d, SpecOf(Prepare(Restrict(e, child, keys)).plan))
       <==> row in d.tables(child.table) && AllHold(Wanted(child), row) && Holds(In(FarColumn(e), keys), row)
  {
    var r := Restrict(e, child, keys);
    PrepareAdds(r);
    MatchingMembers(d, SpecOf(Prepare(r).plan), row);
    AllHoldAppend(child.predicates + [In(FarColumn(e), keys)], Adds(child.inters), row);
    AllHoldAppend(child.predicates, [In(FarColumn(e), keys)], row);
    AllHoldAppend(child.predicates, Adds(child.inters), row);
    assert AllHold([In(FarColumn(e), keys)], row) <==> Holds([In(FarColumn(e), keys)][0], row);
  }

  lemma PartnerMembers(e: Edge, child: Plan, d: Driver, key: Uuid, row: Row)
    ensures row in Filter(d.tables(child.table), Wanted(child) + [In(FarColumn(e), [key])])
       <==> row in d.tables(child.table) && AllHold(Wanted(child), row) && Holds(In(FarColumn(e), [key]), row)
  {
    FilterMembers(d.tables(child.table), Wanted(child) + [In(FarColumn(e), [key])], row);
    AllHoldAppend(Wanted(child), [In(FarColumn(e), [key])], row);
    assert AllHold([In(FarColumn(e), [key])], row) <==> Holds([In(FarColumn(e), [key])][0], row);
  }

  // Partner is the one row of the table with the key that the child query wants, if there is one.
  lemma PartnerIs(e: Edge, child: Plan, d: Driver, key: Uuid, row: Row)
    requires KeyColumn(d.tables(child.table), FarColumn(e))
    ensures Partner(e, child, d, key) == Some(row)
       <==> row in d.tables(child.table) && AllHold(Wanted(child), row) && row[FarColumn(e)] == UuidV(key)
  {
    var found := Filter(d.tables(child.table), Wanted(child) + [In(FarColumn(e), [key])]);
    PartnerMembers(e, child, d, key, row);
    if found != [] {
      PartnerMembers(e, child, d, key, found[|found| - 1]);
    }
  }

  // ----- the index agrees with the lookup -----

  function RestrictedSpec(e: Edge, child: Plan, keys: seq<Uuid>): QuerySpec {
    SpecOf(Prepare(Restrict(e, child, keys)).plan)
  }

  lemma RestrictionByKey(e: Edge, child: Plan, keys: seq<Uuid>, d: Driver, row: Row)
    ensures NodeByKey(Restrict(e, child, keys), d, row) == NodeByKey(Widen(e, child), d, row)
  {
    assert Restrict(e, child, keys).kids == Widen(e, child).kids;
  }

  // The nodes are the rows, cut down to the columns the plan fetches.
  ghost predicate Decoded(p: Plan, rows: seq<Row>, nodes: seq<Node>) {
    && |nodes| == |rows|
    && forall i | 0 <= i < |rows| :: nodes[i].row == Project(rows[i], SpecColumns(p.table, p.fields, p.kids))
  }

  // A result found under a key is that key's partner; no result means none of the rows returned has it.
  lemma LookupFinds(e: Edge, table: Table, child: Plan, d: Driver, keys: seq<Uuid>, rows: seq<Row>, far: seq<Node>,
                    key: Uuid)
    requires Permutes(d) && KeyColumn(d.tables(child.table), FarColumn(e))
    requires Source(e) == table && child.table == Target(e)
    requires forall row | row in rows :: row in Matching(d, RestrictedSpec(e, child, keys))
    requires Decoded(Widen(e, child), rows, far)
    ensures var j := LastWithKey(e, far, key);
            && (j >= 0 ==> Partner(e, child, d, key) == Some(rows[j]))
            && (j < 0 ==> forall row | row in rows :: FarColumn(e) in row ==> row[FarColumn(e)] != UuidV(key))
  {
    var j := LastWithKey(e, far, key);
    forall k | 0 <= k < |rows|
      ensures rows[k] in d.tables(child.table) && AllHold(Wanted(child), rows[k])
      ensures FarKey(e, far[k]) == ReadUuid(rows[k], FarColumn(e))
    {
      assert rows[k] in rows;
      RestrictedMembers(e, child, keys, d, rows[k]);
      ColumnsCarryFarKey(e, table, child);
    }
    if j >= 0 {
      PartnerIs(e, child, d, key, rows[j]);
    }
  }

  // When the batch returns every matching row, the lookup under a sent key finds its partner or nothing.
  lemma LookupIsPartner(e: Edge, table: Table, child: Plan, d: Driver, keys: seq<Uuid>, rows: seq<Row>, far: seq<Node>,
                        key: Uuid)
    requires Permutes(d) && KeyColumn(d.tables(child.table), FarColumn(e))
    requires Source(e) == table && child.table == Target(e)
    requires rows == Matching(d, RestrictedSpec(e, child, keys)) && Decoded(Widen(e, child), rows, far) && key in keys
    ensures var j := LastWithKey(e, far, key);
            Partner(e, child, d, key) == if j >= 0 then Some(rows[j]) else None
  {
    LookupFinds(e, table, child, d, keys, rows, far, key);
    var partner := Partner(e, child, d, key);
    if partner.Some? {
      PartnerIs(e, child, d, key, partner.value);
      RestrictedMembers(e, child, keys, d, partner.value);
    }
  }

  lemma {:induction false} FirstOccurrencesMembers(keys: seq<Uuid>, key: Uuid)
    ensures key in FirstOccurrences(keys) <==> key in keys
  {
    if keys != [] {
      var n := |keys| - 1;
      assert keys == keys[..n] + [keys[n]];
      FirstOccurrencesMembers(keys[..n], key);
    }
  }

  lemma SentKeysMembers(e: Edge, nodes: seq<Node>, i: nat)
    requires i < |nodes|
    ensures OwnKey(e, nodes[i]) in SentKeys(e, nodes)
  {
    FirstOccurrencesMembers(OwnKeys(e, nodes), OwnKey(e, nodes[i]));
    assert OwnKeys(e, nodes)[i] == OwnKey(e, nodes[i]);
  }

  // ----- the join on the keys read -----

  // The nodes carry the join keys of the rows they were decoded from.
  ghost predicate CarryKeys(ks: Kids, nodes: seq<Node>, rows: seq<Row>) {
    && |nodes| == |rows|
    && forall e, i | e in KidEdges(ks) && 0 <= i < |nodes| :: OwnKey(e, nodes[i]) == ReadUuid(rows[i], OwnColumn(e))
  }

  function WithEdges(n: Node, edges: map<Edge, Node>): Node {
    n.(edges := n.edges + edges)
  }

  // A run returns the join on the keys as they are read.
  lemma {:induction false} ExecByKey(p: Plan, d: Driver)
    requires Permutes(d) && Keyed(d)
    requires WellFormed(p.table, p.kids) && UnwindowedKids(p.kids)
    requires Exec(p, d).result.Ok?
    ensures Exec(p, d).result.value == AllByKey(p, d)
    decreases Size(p)
  {
    hide NodeByKey, EdgesByKey, TableColumns, SpecColumns, Source, Target, Exec, LoadKids, Prepare, Traverse, Rows;
    hide Selected, Chosen, KidEdges, WellFormed, UnwindowedKids, Filter, Distinct, CarryKeys, KeyColumn;
    var spec := SpecOf(Prepare(p).plan);
    PrepareAdds(p);
    FetchedRows(p, d);
    ChosenIs(p, d);
    ExecLoads(p, d);
    var nodes := Bare(Rows(d, spec), KidEdges(p.kids));
    var selected := Selected(d, spec);
    if nodes != [] {
      LoadKidsByKey(p.table, p.kids, d, nodes, selected);
      var loaded := LoadKids(p.kids, d, nodes).result.value;
      forall i | 0 <= i < |selected| ensures loaded[i] == NodeByKey(p, d, selected[i]) {
        BareWithEdges(p, d, selected[i]);
      }
    }
  }

  lemma BareWithEdges(p: Plan, d: Driver, row: Row)
    ensures var columns := SpecColumns(p.table, p.fields, p.kids);
            WithEdges(Node(Project(row, columns), KidEdges(p.kids), map[]), EdgesByKey(p.kids, d, row)) == NodeByKey(p, d, row)
  {
    assert map[] + EdgesByKey(p.kids, d, row) == EdgesByKey(p.kids, d, row);
  }

  // A run that succeeds has fetched its rows and, if there are any, loaded their edges.
  lemma ExecLoads(p: Plan, d: Driver)
    requires Exec(p, d).result.Ok?
    ensures var rows := Rows(d, SpecOf(Prepare(p).plan));
            Exec(p, d).result == if rows == [] then Ok([]) else LoadKids(p.kids, d, Bare(rows, KidEdges(p.kids))).result
  {
    PrepareAdds(p);
  }

  // The rows fetched are the selected rows, cut down to columns that include every key needed.
  lemma FetchedRows(p: Plan, d: Driver)
    requires Permutes(d) && Keyed(d) && WellFormed(p.table, p.kids)
    ensures var spec := SpecOf(Prepare(p).plan);
            && Rows(d, spec) == ProjectAll(Selected(d, spec), spec.columns)
            && CarryKeys(p.kids, Bare(Rows(d, spec), KidEdges(p.kids)), Selected(d, spec))
            && KeyColumn(Selected(d, spec), Id)
  {
    var spec := SpecOf(Prepare(p).plan);
    PrepareAdds(p);
    ColumnsCarryId(p.table, p.fields, p.kids);
    RowsAreProjections(d, spec);
    MatchingKeyed(d, spec, Id);
    forall e | e in KidEdges(p.kids) ensures OwnColumn(e) in spec.columns {
      KidEdgesBelong(p.table, p.kids, e);
      ColumnsCarryKeys(p.table, p.fields, p.kids, e);
    }
  }

  lemma {:induction false} KidEdgesBelong(table: Table, ks: Kids, e: Edge)
    requires WellFormed(table, ks) && e in KidEdges(ks)
    ensures Source(e) == table
    decreases ks
  {
    if ks.edge != e {
      KidEdgesBelong(table, ks.rest, e);
    }
  }

  lemma {:induction false} LoadKidsByKey(table: Table, ks: Kids, d: Driver, nodes: seq<Node>, rows: seq<Row>)
    requires Permutes(d) && Keyed(d)
    requires WellFormed(table, ks) && UnwindowedKids(ks)
    requires CarryKeys(ks, nodes, rows) && KeyColumn(rows, Id)
    requires LoadKids(ks, d, nodes).result.Ok?
    ensures var loaded := LoadKids(ks, d, nodes).result.value;
            && |loaded| == |nodes|
            && forall i | 0 <= i < |nodes| :: loaded[i] == WithEdges(nodes[i], EdgesByKey(ks, d, rows[i]))
    decreases KidsSize(ks)
  {
    hide NodeByKey, EdgeByKey, Source, Target, SentKeys, AllByKey, Exec;
    match ks {
      case NoKids =>
        forall i | 0 <= i < |nodes| ensures nodes[i] == WithEdges(nodes[i], EdgesByKey(ks, d, rows[i])) {
          assert nodes[i].edges + map[] == nodes[i].edges;
        }
      case Kid(e, child, rest) =>
        var r := Restrict(e, child, SentKeys(e, nodes));
        var far := Exec(r, d).result.value;
        var attached := Attach(e, nodes, far);
        ExecByKey(r, d);
        forall i | 0 <= i < |nodes|
          ensures attached[i] == WithEdges(nodes[i], EdgeByKey(e, child, d, rows[i]))
        {
          AttachByKey(e, table, child, d, nodes, rows, i);
        }
        LoadKidsByKey(table, rest, d, attached, rows);
        forall i | 0 <= i < |nodes|
          ensures WithEdges(attached[i], EdgesByKey(rest, d, rows[i])) == WithEdges(nodes[i], EdgesByKey(ks, d, rows[i]))
        {
          WithEdgesTwice(nodes[i], EdgeByKey(e, child, d, rows[i]), EdgesByKey(rest, d, rows[i]));
        }
    }
  }

  lemma WithEdgesTwice(n: Node, a: map<Edge, Node>, b: map<Edge, Node>)
    ensures WithEdges(WithEdges(n, a), b) == WithEdges(n, a + b)
  {
    assert n.edges + a + b == n.edges + (a + b);
  }

  // No row has the zero key that a NULL reads as, so looking up the key read is looking up the value.
  lemma NaiveEdgeByKey(e: Edge, table: Table, child: Plan, d: Driver, row: Row)
    requires Keyed(d) && NoZeroIds(d) && Source(e) == table && child.table == Target(e)
    requires KeyOnTarget(e) ==> Id in row && row[Id].UuidV?
    ensures NaiveEdge(e, child, d, row)
         == match Partner(e, child, d, ReadUuid(row, OwnColumn(e)))
            case None => map[]
            case Some(partner) => map[e := NaiveNode(Widen(e, child), d, partner)]
  {
    hide TableColumns, Filter;
    var key := ReadUuid(row, OwnColumn(e));
    FarKeyed(e, table, d);
    if key == ZERO_UUID && !KeyOnTarget(e) && Partner(e, child, d, key).Some? {
      var partner := Partner(e, child, d, key).value;
      PartnerIs(e, child, d, key, partner);
      assert false;
    }
  }

  lemma FarKeyed(e: Edge, table: Table, d: Driver)
    requires Keyed(d) && Source(e) == table
    ensures KeyColumn(d.tables(Target(e)), FarColumn(e))
  {
  }

  // The row of a one-to-one edge is the only one with its key, so the index holds it.
  lemma KeyedIndexed(e: Edge, nodes: seq<Node>, rows: seq<Row>, i: nat)
    requires |nodes| == |rows| && KeyColumn(rows, Id) && i < |nodes|
    requires forall k | 0 <= k < |nodes| :: OwnKey(e, nodes[k]) == ReadUuid(rows[k], OwnColumn(e))
    ensures Indexed(e, nodes, i)
  {
  }

  // The edge found in the batch's results is the edge looked up for the row alone, by the key that is read.
  lemma BatchByKey(e: Edge, table: Table, child: Plan, d: Driver, keys: seq<Uuid>, row: Row)
    requires Permutes(d) && Keyed(d)
    requires Source(e) == table && child.table == Target(e) && Unwindowed(child)
    requires ReadUuid(row, OwnColumn(e)) in keys
    ensures var far := AllByKey(Restrict(e, child, keys), d);
            var j := LastWithKey(e, far, ReadUuid(row, OwnColumn(e)));
            EdgeByKey(e, child, d, row) == if j >= 0 then map[e := far[j]] else map[]
  {
    hide Source, Target, OwnColumn, FarColumn, SpecColumns, Partner, Filter, Restrict, LastWithKey;
    var matching := Matching(d, RestrictedSpec(e, child, keys));
    var far := NodesByKey(Widen(e, child), d, matching);
    BatchIsMatching(e, child, d, keys);
    FarKeyed(e, table, d);
    LookupIsPartner(e, table, child, d, keys, matching, far, ReadUuid(row, OwnColumn(e)));
  }

  // And so, when no row has the zero id, it is the edge of the row.
  lemma BatchLookup(e: Edge, table: Table, child: Plan, d: Driver, keys: seq<Uuid>, row: Row)
    requires Permutes(d) && Keyed(d) && NoZeroIds(d)
    requires Source(e) == table && child.table == Target(e) && Unwindowed(child) && WellFormed(child.table, child.kids)
    requires KeyOnTarget(e) ==> Id in row && row[Id].UuidV?
    requires ReadUuid(row, OwnColumn(e)) in keys
    ensures var far := AllByKey(Restrict(e, child, keys), d);
            var j := LastWithKey(e, far, ReadUuid(row, OwnColumn(e)));
            NaiveEdge(e, child, d, row) == if j >= 0 then map[e := far[j]] else map[]
  {
    hide NaiveEdge, EdgeByKey, AllByKey, LastWithKey, Restrict;
    BatchByKey(e, table, child, d, keys, row);
    EdgeByKeyIsNaive(e, table, child, d, row);
  }

  lemma WithOneEdge(n: Node, e: Edge, far: Node)
    ensures WithEdges(n, map[e := far]) == n.(edges := n.edges[e := far])
    ensures WithEdges(n, map[]) == n
  {
    assert n.edges + map[e := far] == n.edges[e := far];
    assert n.edges + map[] == n.edges;
  }

  lemma AttachByKey(e: Edge, table: Table, child: Plan, d: Driver, nodes: seq<Node>, rows: seq<Row>, i: nat)
    requires Permutes(d) && Keyed(d)
    requires Source(e) == table && child.table == Target(e) && Unwindowed(child)
    requires |nodes| == |rows| && KeyColumn(rows, Id) && i < |nodes|
    requires forall k | 0 <= k < |nodes| :: OwnKey(e, nodes[k]) == ReadUuid(rows[k], OwnColumn(e))
    ensures AttachOne(e, nodes, AllByKey(Restrict(e, child, SentKeys(e, nodes)), d), i)
         == WithEdges(nodes[i], EdgeByKey(e, child, d, rows[i]))
  {
    hide Exec, NodeByKey, EdgeByKey, Source, Target, OwnColumn, FarColumn, SpecColumns, Partner, SentKeys, Restrict;
    SentKeysMembers(e, nodes, i);
    BatchByKey(e, table, child, d, SentKeys(e, nodes), rows[i]);
    KeyedIndexed(e, nodes, rows, i);
    var far := AllByKey(Restrict(e, child, SentKeys(e, nodes)), d);
    var j := LastWithKey(e, far, OwnKey(e, nodes[i]));
    WithOneEdge(nodes[i], e, if j >= 0 then far[j] else nodes[i]);
  }

  lemma BatchIsMatching(e: Edge, child: Plan, d: Driver, keys: seq<Uuid>)
    requires Unwindowed(child)
    ensures AllByKey(Restrict(e, child, keys), d)
         == NodesByKey(Widen(e, child), d, Matching(d, RestrictedSpec(e, child, keys)))
  {
    var r := Restrict(e, child, keys);
    PrepareAdds(r);
    forall row ensures NodeByKey(r, d, row) == NodeByKey(Widen(e, child), d, row) {
      RestrictionByKey(e, child, keys, d, row);
    }
  }

  // ----- the theorem -----

  // No row has the zero id that a NULL reads as, so the join on the keys read is the join.
  lemma {:induction false} NodeByKeyIsNaive(p: Plan, d: Driver, row: Row)
    requires Keyed(d) && NoZeroIds(d) && WellFormed(p.table, p.kids) && Id in row && row[Id].UuidV?
    ensures NodeByKey(p, d, row) == NaiveNode(p, d, row)
    decreases Size(p)
  {
    hide Source, Target, SpecColumns;
    EdgesByKeyIsNaive(p.table, p.kids, d, row);
  }

  lemma {:induction false} EdgesByKeyIsNaive(table: Table, ks: Kids, d: Driver, row: Row)
    requires Keyed(d) && NoZeroIds(d) && WellFormed(table, ks) && Id in row && row[Id].UuidV?
    ensures EdgesByKey(ks, d, row) == NaiveEdges(ks, d, row)
    decreases KidsSize(ks)
  {
    hide Source, Target, EdgeByKey, NaiveEdge;
    match ks {
      case NoKids =>
      case Kid(e, child, rest) =>
        EdgeByKeyIsNaive(e, table, child, d, row);
        EdgesByKeyIsNaive(table, rest, d, row);
    }
  }

  lemma {:induction false} EdgeByKeyIsNaive(e: Edge, table: Table, child: Plan, d: Driver, row: Row)
    requires Keyed(d) && NoZeroIds(d) && Source(e) == table && child.table == Target(e)
    requires WellFormed(child.table, child.kids) && (KeyOnTarget(e) ==> Id in row && row[Id].UuidV?)
    ensures EdgeByKey(e, child, d, row) == NaiveEdge(e, child, d, row)
    decreases 1 + Size(child), 0
  {
    hide NodeByKey, NaiveNode, Filter;
    var key := ReadUuid(row, OwnColumn(e));
    NaiveEdgeByKey(e, table, child, d, row);
    if Partner(e, child, d, key).Some? {
      var partner := Partner(e, child, d, key).value;
      FarKeyed(e, table, d);
      PartnerIs(e, child, d, key, partner);
      assert Size(Widen(e, child)) == Size(child) && Widen(e, child).kids == child.kids;
      NodeByKeyIsNaive(Widen(e, child), d, partner);
    }
  }

  lemma ExecIsNaive(p: Plan, d: Driver)
    requires Permutes(d) && Keyed(d) && NoZeroIds(d)
    requires WellFormed(p.table, p.kids) && UnwindowedKids(p.kids)
    requires Exec(p, d).result.Ok?
    ensures Exec(p, d).result.value == NaiveAll(p, d)
  {
    hide NaiveNode, NodeByKey, Exec, Rows, Selected, Chosen, Prepare, WellFormed, UnwindowedKids;
    ExecByKey(p, d);
    FetchedRows(p, d);
    ChosenIs(p, d);
    forall row | row in Chosen(p, d) ensures NodeByKey(p, d, row) == NaiveNode(p, d, row) {
      NodeByKeyIsNaive(p, d, row);
    }
  }

  lemma LoadKidsIsNaive(table: Table, ks: Kids, d: Driver, nodes: seq<Node>, rows: seq<Row>)
    requires Permutes(d) && Keyed(d) && NoZeroIds(d)
    requires WellFormed(table, ks) && UnwindowedKids(ks)
    requires CarryKeys(ks, nodes, rows) && KeyColumn(rows, Id)
    requires LoadKids(ks, d, nodes).result.Ok?
    ensures var loaded := LoadKids(ks, d, nodes).result.value;
            && |loaded| == |nodes|
            && forall i | 0 <= i < |nodes| :: loaded[i] == WithEdges(nodes[i], NaiveEdges(ks, d, rows[i]))
  {
    hide NaiveEdges, EdgesByKey, LoadKids, WellFormed, UnwindowedKids, CarryKeys;
    LoadKidsByKey(table, ks, d, nodes, rows);
    assert |nodes| == |rows| by { CarriedLength(ks, nodes, rows); }
    forall i | 0 <= i < |nodes| ensures EdgesByKey(ks, d, rows[i]) == NaiveEdges(ks, d, rows[i]) {
      EdgesByKeyIsNaive(table, ks, d, rows[i]);
    }
  }

  lemma CarriedLength(ks: Kids, nodes: seq<Node>, rows: seq<Row>)
    requires CarryKeys(ks, nodes, rows)
    ensures |nodes| == |rows|
  {
  }
}
