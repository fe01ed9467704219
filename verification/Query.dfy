/** The query builders: objects that are narrowed, executed, cloned and reused in place. */
module Builders {
  import opened Schema
  import opened Driver
  import opened Plans
  import opened Loaders
  import opened Terminals
  import opened Edges

  // The child queries in loading order.
  function KidsOf(edges: seq<Edge>, plans: map<Edge, Plan>): Kids {
    if edges == [] then NoKids
    else
      var rest := KidsOf(edges[1..], plans);
      if edges[0] in plans then Kid(edges[0], plans[edges[0]], rest) else rest
  }

  type EdgeList = edges: seq<Edge> | NoRepeats(edges) witness []

  class Query {
    const table: Table
    const edges: EdgeList               // of the table, in loading order
    var inters: seq<Interceptor>
    var predicates: seq<Predicate>
    var fields: seq<Column>
    var unique: Option<bool>
    var limit: Option<nat>
    var offset: Option<nat>
    var order: seq<OrderTerm>
    var kids: map<Edge, Query>          // the eager-loaded edges

    ghost var Below: set<Query>         // the builders of the child queries, at every depth
    ghost var plans: map<Edge, Plan>    // what the child queries ask for

    ghost predicate Valid()
      reads `kids, `plans, `Below, Below
      decreases Below
    {
      && this !in Below
      && (forall e :: e in plans <==> e in kids)
      && (forall e | e in kids :: kids[e] in Below && kids[e].Below < Below && this !in kids[e].Below)
      && (forall e | e in kids :: kids[e].Valid() && plans[e] == kids[e].AsPlan())
      && (forall e, f | e in kids && f in kids && e != f :: kids[e].Tree() !! kids[f].Tree())
    }

    ghost function Tree(): set<Query>
      reads `Below
    {
      {this} + Below
    }

    // The tree of builders as a value.
    ghost function AsPlan(): Plan
      reads this
    {
      Plan(table, inters, predicates, fields, unique, limit, offset, order, KidsOf(edges, plans))
    }

    // What a change elsewhere leaves of this tree.
    twostate predicate Same()
      reads this, Below
    {
      Valid() && AsPlan() == old(AsPlan()) && Below == old(Below)
    }

    twostate lemma Untouched()
      requires old(Valid())
      requires unchanged(this) && forall q: Query | q in old(Below) :: unchanged(q)
      ensures Same()
    {
    }

    lemma KidFacts(e: Edge)
      requires Valid() && e in kids
      ensures e in plans && kids[e].Valid() && plans[e] == kids[e].AsPlan()
      ensures kids[e] in Below && kids[e].Below < Below && this !in kids[e].Tree() && kids[e].Tree() <= Below
    {
    }

    constructor (table: Table, edges: EdgeList, inters: seq<Interceptor>)
      ensures Valid() && Below == {}
      ensures this.table == table && this.edges == edges && plans == map[]
      ensures AsPlan() == Plan(table, inters, [], [], None, None, None, [], NoKids)
    {
      this.table, this.inters, this.edges := table, inters, edges;
      predicates, fields, unique, limit, offset, order, kids := [], [], None, None, None, [], map[];
      Below, plans := {}, map[];
      new;
      NoPlansNoKids(edges, plans);
    }

    static lemma {:induction false} NoPlansNoKids(edges: seq<Edge>, plans: map<Edge, Plan>)
      requires plans == map[]
      ensures KidsOf(edges, plans) == NoKids
    {
      if edges != [] {
        NoPlansNoKids(edges[1..], plans);
      }
    }

    // ----- narrowing -----

    method Where(ps: seq<Predicate>)
      requires Valid()
      modifies `predicates
      ensures Valid()
      ensures AsPlan() == old(AsPlan()).(predicates := old(predicates) + ps)
    {
      predicates := predicates + ps;
    }

    method Limit(n: nat)
      requires Valid()
      modifies `limit
      ensures Valid()
      ensures AsPlan() == old(AsPlan()).(limit := Some(n))
    {
      limit := Some(n);
    }

    method Offset(n: nat)
      requires Valid()
      modifies `offset
      ensures Valid()
      ensures AsPlan() == old(AsPlan()).(offset := Some(n))
    {
      offset := Some(n);
    }

    method Unique(b: bool)
      requires Valid()
      modifies `unique
      ensures Valid()
      ensures AsPlan() == old(AsPlan()).(unique := Some(b))
    {
      unique := Some(b);
    }

    method Order(terms: seq<OrderTerm>)
      requires Valid()
      modifies `order
      ensures Valid()
      ensures AsPlan() == old(AsPlan()).(order := old(order) + terms)
    {
      order := order + terms;
    }

    method Select(columns: seq<Column>)
      requires Valid()
      modifies `fields
      ensures Valid()
      ensures AsPlan() == old(AsPlan()).(fields := old(fields) + columns)
    {
      fields := fields + columns;
    }

    // Adds the join key to a field selection that lacks it.
    method AppendFieldOnce(column: Column)
      requires Valid()
      modifies `fields
      ensures Valid()
      ensures AsPlan() == old(AsPlan()).(fields := AddOnce(old(fields), column))
    {
      if column !in fields {
        fields := fields + [column];
      }
    }

    // Eager-loads the edge with the query, in place of any query it had.
    method With(e: Edge, query: Query)
      requires Valid() && query.Valid() && Tree() !! query.Tree() && query.table == Target(e)
      modifies `kids, `plans, `Below
      ensures Valid() && Below == old(Below) + query.Tree()
      ensures plans == old(plans)[e := old(query.AsPlan())]
      ensures AsPlan() == old(AsPlan()).(kids := KidsOf(edges, plans))
      ensures Replaces(edges, old(AsPlan()).kids, AsPlan().kids, e, old(query.AsPlan()))
    {
      hide Valid, Forest, KidsOf, ChildOf, KidEdges;
      PlanPut(edges, plans, e, query.AsPlan());
      KidsForest();
      ForestGrows(kids, Below, e, query);
      kids, plans, Below := kids[e := query], plans[e := query.AsPlan()], Below + query.Tree();
      FromForest();
    }

    lemma KidsForest()
      requires Valid()
      ensures Forest(kids, Below) && this !in Below
      ensures forall f | f in kids :: f in plans && plans[f] == kids[f].AsPlan() && kids[f] != this
      ensures forall f | f in plans :: f in kids
    {
    }

    lemma FromForest()
      requires Forest(kids, Below) && this !in Below
      requires forall f | f in kids :: f in plans && plans[f] == kids[f].AsPlan()
      requires forall f | f in plans :: f in kids
      ensures Valid()
    {
    }

    // ----- copying -----

    // A copy that shares no builder with the original, at any depth.
    method Clone() returns (c: Query)
      requires Valid()
      ensures c.Valid() && fresh(c.Tree())
      ensures c.AsPlan() == AsPlan() && c.edges == edges && c.table == table
      decreases Below, 1
    {
      hide Valid;
      var copies, below := CloneKids(0);
      ghost var copied := map e | e in copies :: plans[e];
      c := new Query.Literal(this, copies, below, copied);
      KidsOfSame(edges, copied, plans);
    }

    method CloneKids(i: nat) returns (copies: map<Edge, Query>, ghost below: set<Query>)
      requires Valid() && i <= |edges|
      ensures Forest(copies, below) && fresh(below)
      ensures forall e | e in copies :: e in plans && copies[e].AsPlan() == plans[e]
      ensures forall e | e in edges[i..] && e in plans :: e in copies
      decreases Below, 0, |edges| - i
    {
      hide Valid, Forest;
      copies, below := map[], {};
      EmptyForest();
      if i < |edges| {
        copies, below := CloneKids(i + 1);
        var e := edges[i];
        if e in kids {
          KidFacts(e);
          var k := kids[e].Clone();
          label Cloned:
          ForestGrows(copies, below, e, k);
          copies, below := copies[e := k], below + k.Tree();
        } else {
          NoKidNoPlan(e);
        }
      }
    }

    lemma NoKidNoPlan(e: Edge)
      requires Valid()
      ensures e in plans <==> e in kids
    {
    }

    // The struct literal that Clone fills with the settings of the original and the copied child builders.
    constructor Literal(q: Query, kids: map<Edge, Query>, ghost below: set<Query>, ghost plans: map<Edge, Plan>)
      requires Forest(kids, below)
      requires forall e :: e in plans <==> e in kids
      requires forall e | e in kids :: plans[e] == kids[e].AsPlan()
      ensures Valid() && Below == below && edges == q.edges && table == q.table
      ensures AsPlan() == Plan(q.table, q.inters, q.predicates, q.fields, q.unique, q.limit, q.offset, q.order,
                               KidsOf(q.edges, plans))
    {
      table, edges, inters, predicates, fields := q.table, q.edges, q.inters, q.predicates, q.fields;
      unique, limit, offset, order := q.unique, q.limit, q.offset, q.order;
      this.kids, this.plans, Below := kids, plans, below;
      new;
      hide Valid, KidsOf, Forest;
      FromForest();
    }

    // ----- running -----

    method PrepareQuery() returns (error: Option<Error>)
      requires Valid()
      modifies `predicates
      ensures Valid()
      ensures AsPlan() == Prepare(old(AsPlan())).plan && error == Prepare(old(AsPlan())).error
    {
      hide Valid;
      for i := 0 to |inters|
        invariant Valid()
        invariant Traverse(old(AsPlan()), inters) == Traverse(AsPlan(), inters[i..])
      {
        match inters[i] {
          case Uninitialized => return Some(UninitializedInterceptor);
          case Refusing(reason) => return Some(TraverserRefused(reason));
          case Wrapper =>
          case Traverser(adds) => Where(adds);
        }
      }
      for i := 0 to |fields|
        invariant InvalidFields(table, fields) == InvalidFields(table, fields[i..])
      {
        if fields[i] !in TableColumns(table) {
          return Some(InvalidField(fields[i]));
        }
      }
      error := None;
    }

    method BuildSpec() returns (spec: QuerySpec)
      requires Valid()
      ensures spec == SpecOf(AsPlan())
    {
      var columns := TableColumns(table);
      if fields != [] {
        columns := [Id];
        for i := 0 to |fields|
          invariant columns + WithoutId(fields[i..]) == [Id] + WithoutId(fields)
        {
          if fields[i] != Id {
            columns := columns + [fields[i]];
          }
        }
        assert fields[|fields|..] == [] && columns + [] == columns && edges[0..] == edges;
        for i := 0 to |edges|
          invariant AddKeys(columns, KidsOf(edges[i..], plans)) == AddKeys([Id] + WithoutId(fields), KidsOf(edges, plans))
        {
          if edges[i] in kids && !KeyOnTarget(edges[i]) {
            columns := AddOnce(columns, OwnColumn(edges[i]));
          }
        }
      }
      spec := QuerySpec(
        table, columns, predicates, order, unique == Some(true),
        if offset.Some? then offset.value else 0,
        if limit.Some? then limit.value else 0);
    }

    // Everything but what the child queries ask for.
    twostate predicate SettingsKept()
      reads this
    {
      && inters == old(inters) && predicates == old(predicates) && fields == old(fields) && unique == old(unique)
      && limit == old(limit) && offset == old(offset) && order == old(order)
      && kids == old(kids) && Below == old(Below)
    }

    // Runs this query as the child query of an edge, narrowed to the keys.
    method RunUnder(e: Edge, keys: seq<Uuid>, d: Driver) returns (r: Result<seq<Entity>, Error>)
      requires Valid()
      modifies Tree()
      ensures Valid() && Below == old(Below)
      ensures AsPlan() == KidRun(e, old(AsPlan()), keys, d).plan
      ensures Returns(r, KidRun(e, old(AsPlan()), keys, d).result)
      ensures r.Ok? ==> fresh(r.value)
      decreases Below, 5
    {
      hide Exec, Valid;
      if KeyOnTarget(e) && fields != [] {
        AppendFieldOnce(FarColumn(e));
      }
      Where([In(FarColumn(e), keys)]);
      r := All(d);
    }

    method RunKid(e: Edge, keys: seq<Uuid>, d: Driver) returns (r: Result<seq<Entity>, Error>)
      requires Valid() && e in kids
      modifies `plans, Below
      ensures Valid() && Below == old(Below) && this !in Below
      ensures plans == old(plans)[e := KidRun(e, old(plans[e]), keys, d).plan]
      ensures Returns(r, KidRun(e, old(plans[e]), keys, d).result)
      ensures r.Ok? ==> fresh(r.value)
      decreases Below, 0, 1
    {
      hide KidRun, KidsOf, Valid, Forest;
      KidFacts(e);
      KidsForest();
      r := RunTree(e, keys, d);
      plans := plans[e := kids[e].AsPlan()];
      FromForest();
    }

    method RunTree(e: Edge, keys: seq<Uuid>, d: Driver) returns (r: Result<seq<Entity>, Error>)
      requires Valid() && e in kids && e in plans
      modifies Below
      ensures Forest(kids, Below) && this !in Below
      ensures kids[e].AsPlan() == KidRun(e, plans[e], keys, d).plan
      ensures forall f :: f in plans <==> f in kids
      ensures forall f | f in kids && f != e :: kids[f].AsPlan() == plans[f]
      ensures Returns(r, KidRun(e, plans[e], keys, d).result)
      ensures r.Ok? ==> fresh(r.value)
      decreases Below, 0, 0
    {
      hide KidRun, KidsOf, Valid, Forest;
      KidFacts(e);
      KidsForest();
      r := kids[e].RunUnder(e, keys, d);
      SiblingsSame(e);
      TreesKept(e);
    }

    // A change inside one child tree touches none of the others,
    twostate lemma SiblingsSame(e: Edge)
      requires old(Valid()) && e in kids && unchanged(this)
      requires forall q | q in old(Below) && q !in old(kids[e].Tree()) :: unchanged(q)
      ensures forall f | f in kids && f != e :: kids[f].Same()
    {
      forall f | f in kids && f != e ensures kids[f].Same() {
        assert old(kids[f].Tree() !! kids[e].Tree() && kids[f].Tree() <= Below && kids[f].Valid());
        kids[f].Untouched();
      }
    }

    // and leaves them all separate.
    twostate lemma TreesKept(e: Edge)
      requires old(Forest(kids, Below)) && e in kids && unchanged(this)
      requires kids[e].Valid() && kids[e].Below == old(kids[e].Below)
      requires forall f | f in kids && f != e :: kids[f].Same()
      ensures Forest(kids, Below)
    {
      assert forall f | f in kids :: kids[f].Tree() == old(kids[f].Tree());
    }

    // Loads one edge of the nodes: the child query under their keys, its results attached to them.
    method LoadEdge(e: Edge, d: Driver, nodes: seq<Entity>) returns (error: Option<Error>)
      requires Valid() && e in kids && e in plans && NoRepeats(nodes)
      modifies `plans, Below, nodes
      ensures Valid() && SettingsKept()
      ensures var run := KidRun(e, old(plans[e]), SentKeys(e, old(Values(nodes))), d);
              && plans == old(plans)[e := run.plan]
              && error == LoadError(e, old(Values(nodes)), run.result)
              && (error.None? ==> Values(nodes) == Attach(e, old(Values(nodes)), run.result.value))
      decreases Below, 1
    {
      hide KidRun, KidsOf, Valid, Attach, Strangers;
      ValuesKeys(e, nodes);
      ghost var before := Values(nodes);
      if KeyOnTarget(e) {
        var fks, nodeids := IndexByKey(e, nodes);
        var far := RunKid(e, fks, d);
        if far.Err? {
          return Some(far.error);
        }
        assert Values(nodes) == before;
        error := ScatterOne(e, nodes, nodeids, Values(far.value));
      } else {
        var ids, nodeids := GroupByKey(e, nodes);
        var far := RunKid(e, ids, d);
        if far.Err? {
          return Some(far.error);
        }
        assert Values(nodes) == before;
        error := Scatter(e, nodes, ids, nodeids, Values(far.value));
      }
    }

    // The loads of the requested edges, in order, until one fails.
    method LoadEdges(d: Driver, nodes: seq<Entity>, i: nat) returns (error: Option<Error>)
      requires Valid() && NoRepeats(nodes) && i <= |edges|
      modifies `plans, Below, nodes
      ensures Valid() && SettingsKept()
      ensures forall e :: e in plans <==> e in old(plans)
      ensures forall e | e in plans && e !in edges[i..] :: plans[e] == old(plans[e])
      ensures var l := LoadKids(KidsOf(edges[i..], old(plans)), d, old(Values(nodes)));
              && KidsOf(edges[i..], plans) == l.kids
              && l.result == if error.Some? then Err(error.value) else Ok(Values(nodes))
      decreases Below, 2, |edges| - i
    {
      hide Exec, Restrict, Attach, SentKeys, Valid;
      if i == |edges| {
        assert KidsOf(edges[i..], plans) == NoKids;
        return None;
      }
      var e := edges[i];
      NoKidNoPlan(e);
      if e in kids {
        error := LoadEdge(e, d, nodes);
        KidsOfSame(edges[i + 1..], old(plans), plans);
        if error.Some? {
          return;
        }
      }
      error := LoadEdges(d, nodes, i + 1);
    }

    method SqlAll(d: Driver) returns (r: Result<seq<Entity>, Error>)
      requires Valid()
      modifies `plans, Below
      ensures Valid() && SettingsKept()
      ensures KidsOf(edges, plans) == RunRows(old(AsPlan()), d).kids
      ensures Returns(r, RunRows(old(AsPlan()), d).result)
      ensures r.Ok? ==> fresh(r.value)
      decreases Below, 3
    {
      hide Valid, LoadKids, SpecOf, QueryNodes, KidsOf, KidEdges;
      var spec := BuildSpec();
      var rows := QueryNodes(d, spec);
      if rows.Err? {
        return Err(rows.error);
      }
      if rows.value == [] {
        r := Ok([]);
        assert Values(r.value) == [];
        return;
      }
      r := DecodeAndLoad(rows.value, d);
    }

    method DecodeAndLoad(rows: seq<Row>, d: Driver) returns (r: Result<seq<Entity>, Error>)
      requires Valid()
      modifies `plans, Below
      ensures Valid() && SettingsKept()
      ensures var ks := KidsOf(edges, old(plans));
              var l := LoadKids(ks, d, Bare(rows, KidEdges(ks)));
              KidsOf(edges, plans) == l.kids && Returns(r, l.result)
      ensures r.Ok? ==> fresh(r.value)
      decreases Below, 2, |edges| + 1
    {
      hide Valid, LoadKids, KidsOf, KidEdges;
      KidsHavePlans();
      KidEdgesOf(edges, plans);
      var nodes := Decode(rows, set e | e in edges && e in kids);
      var error := LoadEdges(d, nodes, 0);
      r := if error.Some? then Err(error.value) else Ok(nodes);
    }

    lemma KidsHavePlans()
      requires Valid()
      ensures (set e | e in edges && e in kids) == set e | e in edges && e in plans
    {
    }

    // Runs the query. It stays narrowed as the run narrowed it.
    method All(d: Driver) returns (r: Result<seq<Entity>, Error>)
      requires Valid()
      modifies Tree()
      ensures Valid() && kids == old(kids) && Below == old(Below)
      ensures AsPlan() == Exec(old(AsPlan()), d).plan
      ensures Returns(r, Exec(old(AsPlan()), d).result)
      ensures r.Ok? ==> fresh(r.value)
      decreases Below, 4
    {
      hide Exec, Valid, KidsOf;
      ghost var before := AsPlan();
      ExecIsRunRows(before, d);
      var error := PrepareQuery();
      if error.Some? {
        return Err(error.value);
      }
      r := SqlAll(d);
    }

    // ----- asking for less than all -----

    method First(d: Driver) returns (r: Result<Entity, Error>)
      requires Valid()
      modifies Tree()
      ensures Valid() && Below == old(Below)
      ensures AsPlan() == FirstOf(old(AsPlan()), d).plan
      ensures ReturnsOne(r, FirstOf(old(AsPlan()), d).result)
    {
      hide Exec, Valid, KidsOf;
      Limit(1);
      var nodes := All(d);
      r := if nodes.Err? then Err(nodes.error) else if nodes.value == [] then Err(NotFound) else Ok(nodes.value[0]);
    }

    method Only(d: Driver) returns (r: Result<Entity, Error>)
      requires Valid()
      modifies Tree()
      ensures Valid() && Below == old(Below)
      ensures AsPlan() == OnlyOf(old(AsPlan()), d).plan
      ensures ReturnsOne(r, OnlyOf(old(AsPlan()), d).result)
    {
      hide Exec, Valid, KidsOf;
      Limit(2);
      var nodes := All(d);
      if nodes.Err? {
        return Err(nodes.error);
      }
      match |nodes.value| {
        case 1 => r := Ok(nodes.value[0]);
        case 0 => r := Err(NotFound);
        case _ => r := Err(NotSingular);
      }
    }

    method IDs(d: Driver) returns (r: Result<seq<Uuid>, Error>)
      requires Valid()
      modifies `fields, `predicates
      ensures Valid()
      ensures AsPlan() == IdsOf(old(AsPlan()), d).plan && r == IdsOf(old(AsPlan()), d).result
    {
      hide Valid, KidsOf, Prepare;
      Select([Id]);
      var error := PrepareQuery();
      if error.Some? {
        return Err(error.value);
      }
      if !d.reachable(table) {
        return Err(DriverFailed);
      }
      if !d.scansIds(fields) {
        return Err(ScanMismatch);
      }
      var spec := BuildSpec();
      r := Ok(RowIds(SelectRows(Matching(d, spec), fields, unique == Some(true), offset, limit)));
    }

    method Exist(d: Driver) returns (r: Result<bool, Error>)
      requires Valid()
      modifies `limit, `fields, `predicates
      ensures Valid()
      ensures AsPlan() == ExistOf(old(AsPlan()), d).plan && r == ExistOf(old(AsPlan()), d).result
    {
      hide Valid, KidsOf, IdsOf;
      Limit(1);
      var ids := IDs(d);
      if ids.Err? {
        return if ids.error.NotFound? then Ok(false) else Err(ids.error);
      }
      r := Ok(ids.value != []);
    }

    // ----- any use of a builder -----

    method Apply(ops: seq<BuilderOp>, d: Driver)
      requires Valid() && edges == EdgesOf(table)
      modifies Tree()
      ensures Valid() && fresh(Below - old(Below))
      ensures AsPlan() == Applied(old(AsPlan()), ops, d)
      decreases ops, 0
    {
      hide Exec, Valid, KidsOf, Put, FirstOf, OnlyOf, IdsOf, ExistOf, Target;
      if ops == [] {
        return;
      }
      ApplyOne(ops[0], d);
      Apply(ops[1..], d);
    }

    method ApplyOne(op: BuilderOp, d: Driver)
      requires Valid() && edges == EdgesOf(table)
      modifies Tree()
      ensures Valid() && fresh(Below - old(Below))
      ensures AsPlan() == AppliedOne(old(AsPlan()), op, d)
      decreases op, 0
    {
      hide Exec, Valid, KidsOf, Put, FirstOf, OnlyOf, IdsOf, ExistOf, Target;
      match op {
        case DoWhere(ps) => Where(ps);
        case DoLimit(n) => Limit(n);
        case DoOffset(n) => Offset(n);
        case DoUnique(b) => Unique(b);
        case DoOrder(terms) => Order(terms);
        case DoSelect(columns) => Select(columns);
        case DoWith(e, inters, opts) => Eager(e, inters, opts, d);
        case DoAll => var _ := All(d);
        case DoFirst => var _ := First(d);
        case DoOnly => var _ := Only(d);
        case DoIDs => var _ := IDs(d);
        case DoExist => var _ := Exist(d);
      }
    }

    // Builds a query for the edge, configures it with the options and eager-loads the edge with it.
    method Eager(e: Edge, inters: seq<Interceptor>, opts: seq<BuilderOp>, d: Driver)
      requires Valid() && edges == EdgesOf(table)
      modifies Tree()
      ensures Valid() && fresh(Below - old(Below))
      ensures AsPlan() == Eagerly(old(AsPlan()), e, inters, opts, d)
      decreases opts, 1
    {
      hide Exec, Valid, Applied;
      EdgesDistinct(Target(e));
      EdgesDistinct(table);
      var query := new Query(Target(e), EdgesOf(Target(e)), inters);
      query.Apply(opts, d);
      PutIsUpdate(edges, plans, e, query.AsPlan());
      With(e, query);
    }

    // Whatever is done to a copy, it does what it would have done to the original, and the original,
    // whose builders are not in the frame of this method, stays as it was.
    method ApplyToClone(ops: seq<BuilderOp>, d: Driver) returns (c: Query)
      requires Valid() && edges == EdgesOf(table)
      ensures c.Valid() && fresh(c.Tree()) && c.AsPlan() == Applied(AsPlan(), ops, d)
      ensures Valid() && AsPlan() == old(AsPlan())
    {
      hide Exec, Valid, Applied, KidsOf;
      c := Clone();
      c.Apply(ops, d);
    }

    // And whatever is then done to the original leaves the copy as it was.
    method CloneThenApply(ops: seq<BuilderOp>, d: Driver) returns (c: Query)
      requires Valid() && edges == EdgesOf(table)
      modifies Tree()
      ensures c.Valid() && fresh(c.Tree()) && c.AsPlan() == old(AsPlan())
      ensures Valid() && AsPlan() == Applied(old(AsPlan()), ops, d)
    {
      hide Exec, Valid, Applied, KidsOf;
      c := Clone();
      Apply(ops, d);
    }
  }

  // What a caller can do with a builder.
  datatype BuilderOp =
    | DoWhere(predicates: seq<Predicate>)
    | DoLimit(limit: nat)
    | DoOffset(offset: nat)
    | DoUnique(unique: bool)
    | DoOrder(terms: seq<OrderTerm>)
    | DoSelect(columns: seq<Column>)
    | DoWith(edge: Edge, inters: seq<Interceptor>, opts: seq<BuilderOp>)
    | DoAll | DoFirst | DoOnly | DoIDs | DoExist

  ghost function Applied(p: Plan, ops: seq<BuilderOp>, d: Driver): Plan
    decreases ops, 0
  {
    if ops == [] then p else Applied(AppliedOne(p, ops[0], d), ops[1..], d)
  }

  ghost function AppliedOne(p: Plan, op: BuilderOp, d: Driver): Plan
    decreases op
  {
    match op
    case DoWhere(ps) => p.(predicates := p.predicates + ps)
    case DoLimit(n) => p.(limit := Some(n))
    case DoOffset(n) => p.(offset := Some(n))
    case DoUnique(b) => p.(unique := Some(b))
    case DoOrder(terms) => p.(order := p.order + terms)
    case DoSelect(columns) => p.(fields := p.fields + columns)
    case DoWith(e, inters, opts) => Eagerly(p, e, inters, opts, d)
    case DoAll => Exec(p, d).plan
    case DoFirst => FirstOf(p, d).plan
    case DoOnly => OnlyOf(p, d).plan
    case DoIDs => IdsOf(p, d).plan
    case DoExist => ExistOf(p, d).plan
  }

  ghost function Eagerly(p: Plan, e: Edge, inters: seq<Interceptor>, opts: seq<BuilderOp>, d: Driver): Plan
    decreases opts, 1
  {
    var child := Applied(Plan(Target(e), inters, [], [], None, None, None, [], NoKids), opts, d);
    p.(kids := Put(EdgesOf(p.table), p.kids, e, child))
  }

  // Puts the query of an edge in its place in loading order.
  function Put(edges: seq<Edge>, ks: Kids, e: Edge, child: Plan): Kids {
    if edges == [] then NoKids
    else
      var mine := ks.Kid? && ks.edge == edges[0];
      var rest := Put(edges[1..], if mine then ks.rest else ks, e, child);
      if edges[0] == e then Kid(e, child, rest)
      else if mine then Kid(edges[0], ks.child, rest)
      else rest
  }

  // The child query of an edge is the one it was given, and an edge without one is not loaded.
  lemma {:induction false} KidsOfAsks(edges: seq<Edge>, plans: map<Edge, Plan>, e: Edge)
    requires e in edges
    ensures var ks := KidsOf(edges, plans);
            (e in KidEdges(ks) <==> e in plans) && (e in plans ==> ChildOf(ks, e) == plans[e])
  {
    if edges[0] != e {
      KidsOfAsks(edges[1..], plans, e);
    } else if e !in plans {
      NotAsked(edges, plans, e);
    }
  }

  // Edge e gets the child query, and every other edge keeps what it had.
  ghost predicate Replaces(edges: seq<Edge>, before: Kids, after: Kids, e: Edge, child: Plan) {
    && (e in edges ==> e in KidEdges(after) && ChildOf(after, e) == child)
    && forall f | f in edges && f != e ::
         && (f in KidEdges(after) <==> f in KidEdges(before))
         && (f in KidEdges(after) ==> ChildOf(after, f) == ChildOf(before, f))
  }

  lemma PlanPut(edges: seq<Edge>, plans: map<Edge, Plan>, e: Edge, child: Plan)
    ensures Replaces(edges, KidsOf(edges, plans), KidsOf(edges, plans[e := child]), e, child)
  {
    hide KidsOf, ChildOf, KidEdges;
    if e in edges {
      KidsOfAsks(edges, plans[e := child], e);
    }
    forall f | f in edges && f != e
      ensures var before, after := KidsOf(edges, plans), KidsOf(edges, plans[e := child]);
              && (f in KidEdges(after) <==> f in KidEdges(before))
              && (f in KidEdges(after) ==> ChildOf(after, f) == ChildOf(before, f))
    {
      KidsOfAsks(edges, plans, f);
      KidsOfAsks(edges, plans[e := child], f);
    }
  }

  lemma {:induction false} NotAsked(edges: seq<Edge>, plans: map<Edge, Plan>, e: Edge)
    requires e !in plans
    ensures e !in KidEdges(KidsOf(edges, plans))
  {
    if edges != [] {
      NotAsked(edges[1..], plans, e);
    }
  }

  lemma {:induction false} KidsWithin(edges: seq<Edge>, plans: map<Edge, Plan>)
    ensures var ks := KidsOf(edges, plans); ks.Kid? ==> ks.edge in edges
  {
    if edges != [] {
      KidsWithin(edges[1..], plans);
    }
  }

  lemma {:induction false} PutIsUpdate(edges: seq<Edge>, plans: map<Edge, Plan>, e: Edge, child: Plan)
    requires NoRepeats(edges)
    ensures Put(edges, KidsOf(edges, plans), e, child) == KidsOf(edges, plans[e := child])
  {
    if edges != [] {
      KidsWithin(edges[1..], plans);
      PutIsUpdate(edges[1..], plans, e, child);
    }
  }

  lemma EdgesDistinct(table: Table)
    ensures NoRepeats(EdgesOf(table))
  {
  }

  // Fetching the rows of a prepared plan and loading their edges.
  ghost function RunRows(q: Plan, d: Driver): KidsRun {
    match QueryNodes(d, SpecOf(q))
    case Err(e) => KidsRun(q.kids, Err(e))
    case Ok(rows) =>
      if rows == [] then KidsRun(q.kids, Ok([])) else LoadKids(q.kids, d, Bare(rows, KidEdges(q.kids)))
  }

  lemma ExecIsRunRows(p: Plan, d: Driver)
    ensures var prepared := Prepare(p);
            Exec(p, d) == if prepared.error.Some? then Run(prepared.plan, Err(prepared.error.value))
                          else Run(prepared.plan.(kids := RunRows(prepared.plan, d).kids), RunRows(prepared.plan, d).result)
  {
    TraverseKeeps(p, p.inters);
  }

  method Decode(rows: seq<Row>, loaded: set<Edge>) returns (nodes: seq<Entity>)
    ensures fresh(nodes) && NoRepeats(nodes)
    ensures Values(nodes) == Bare(rows, loaded)
  {
    nodes := [];
    for i := 0 to |rows|
      invariant fresh(nodes) && NoRepeats(nodes)
      invariant Values(nodes) == Bare(rows[..i], loaded)
    {
      ghost var before := Values(nodes);
      var node := new Entity(rows[i], loaded);
      assert Values(nodes) == before;
      assert Values(nodes + [node]) == before + [node.Value()];
      nodes := nodes + [node];
    }
    assert rows[..|rows|] == rows;
  }

  lemma {:induction false} KidEdgesOf(edges: seq<Edge>, plans: map<Edge, Plan>)
    ensures KidEdges(KidsOf(edges, plans)) == set e | e in edges && e in plans
  {
    if edges != [] {
      KidEdgesOf(edges[1..], plans);
      assert edges == [edges[0]] + edges[1..];
    }
  }

  // What the child query of an edge does when it is run under the keys.
  ghost function KidRun(e: Edge, child: Plan, keys: seq<Uuid>, d: Driver): Run {
    Exec(Restrict(e, child, keys), d)
  }

  // The entities are the nodes, as objects of their own.
  ghost predicate Returns(r: Result<seq<Entity>, Error>, spec: Result<seq<Node>, Error>)
    reads if r.Ok? then r.value else []
  {
    match r
    case Err(error) => spec == Err(error)
    case Ok(nodes) => NoRepeats(nodes) && spec == Ok(Values(nodes))
  }

  ghost predicate ReturnsOne(r: Result<Entity, Error>, spec: Result<Node, Error>)
    reads if r.Ok? then {r.value} else {}
  {
    match r
    case Err(error) => spec == Err(error)
    case Ok(node) => spec == Ok(node.Value())
  }

  function LoadError(e: Edge, nodes: seq<Node>, far: Result<seq<Node>, Error>): Option<Error> {
    match far
    case Err(error) => Some(error)
    case Ok(found) =>
      var strangers := Strangers(e, nodes, found);
      if strangers == [] then None else Some(UnexpectedForeignKey(e, FarKey(e, strangers[0])))
  }

  // Separate trees of builders, with all their builders in the set.
  ghost predicate Forest(kids: map<Edge, Query>, below: set<Query>)
    reads kids.Values, below
  {
    && (forall e | e in kids :: kids[e].Tree() <= below)
    && (forall e | e in kids :: kids[e].Valid())
    && (forall e, f | e in kids && f in kids && e != f :: kids[e].Tree() !! kids[f].Tree())
  }

  lemma EmptyForest()
    ensures Forest(map[], {})
  {
  }

  lemma ForestGrows(kids: map<Edge, Query>, below: set<Query>, e: Edge, k: Query)
    requires Forest(kids, below) && k.Valid() && k.Tree() !! below
    ensures Forest(kids[e := k], below + k.Tree())
  {
  }

  lemma {:induction false} KidsOfSame(edges: seq<Edge>, plans: map<Edge, Plan>, others: map<Edge, Plan>)
    requires forall e | e in edges :: e in plans <==> e in others
    requires forall e | e in edges && e in plans :: plans[e] == others[e]
    ensures KidsOf(edges, plans) == KidsOf(edges, others)
  {
    if edges != [] {
      KidsOfSame(edges[1..], plans, others);
    }
  }
}
