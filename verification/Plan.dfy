/** What a tree of query builders is asked for, as a value, and what running it returns.
  *
  * Exec follows the loaders step by step: one query per edge, restricted to the keys of the rows
  * already fetched, and its results attached to those rows through an index on the key. */
module Plans {
  import opened Schema
  import opened Driver

  datatype Interceptor =
    | Uninitialized                            // a nil entry
    | Wrapper                                  // an interceptor that is not a traverser
    | Traverser(adds: seq<Predicate>)          // a traverser that narrows the query
    | Refusing(reason: nat)                    // a traverser that fails

  datatype Plan = Plan(
    table: Table,
    inters: seq<Interceptor>,
    predicates: seq<Predicate>,
    fields: seq<Column>,
    unique: Option<bool>,
    limit: Option<nat>,
    offset: Option<nat>,
    order: seq<OrderTerm>,
    kids: Kids)

  // The eager-loaded edges with their queries, in loading order.
  datatype Kids = NoKids | Kid(edge: Edge, child: Plan, rest: Kids)

  datatype Node = Node(row: Row, loaded: set<Edge>, edges: map<Edge, Node>)

  function Size(p: Plan): nat {
    1 + KidsSize(p.kids)
  }

  function KidsSize(ks: Kids): nat {
    match ks
    case NoKids => 0
    case Kid(_, child, rest) => 1 + Size(child) + KidsSize(rest)
  }

  function KidEdges(ks: Kids): set<Edge> {
    match ks
    case NoKids => {}
    case Kid(e, _, rest) => {e} + KidEdges(rest)
  }

  // ----- the specification a query is run with -----

  function AddOnce(columns: seq<Column>, c: Column): seq<Column> {
    if c in columns then columns else columns + [c]
  }

  function WithoutId(fields: seq<Column>): seq<Column> {
    if fields == [] then []
    else (if fields[0] == Id then [] else [fields[0]]) + WithoutId(fields[1..])
  }

  // Adds the key columns that the requested edges read.
  function AddKeys(columns: seq<Column>, ks: Kids): seq<Column>
    decreases ks
  {
    match ks
    case NoKids => columns
    case Kid(e, _, rest) => AddKeys(if KeyOnTarget(e) then columns else AddOnce(columns, OwnColumn(e)), rest)
  }

  function SpecColumns(table: Table, fields: seq<Column>, kids: Kids): seq<Column> {
    if fields == [] then TableColumns(table) else AddKeys([Id] + WithoutId(fields), kids)
  }

  function SpecOf(p: Plan): QuerySpec {
    QuerySpec(
      p.table, SpecColumns(p.table, p.fields, p.kids), p.predicates, p.order,
      p.unique == Some(true),
      if p.offset.Some? then p.offset.value else 0,
      if p.limit.Some? then p.limit.value else 0)
  }

  // ----- prepareQuery -----

  datatype Prepared = Prepared(plan: Plan, error: Option<Error>)

  function Traverse(p: Plan, inters: seq<Interceptor>): Prepared
    decreases |inters|
  {
    if inters == [] then Prepared(p, None)
    else match inters[0]
      case Uninitialized => Prepared(p, Some(UninitializedInterceptor))
      case Refusing(reason) => Prepared(p, Some(TraverserRefused(reason)))
      case Wrapper => Traverse(p, inters[1..])
      case Traverser(adds) => Traverse(p.(predicates := p.predicates + adds), inters[1..])
  }

  function InvalidFields(table: Table, fields: seq<Column>): seq<Column> {
    if fields == [] then []
    else (if fields[0] in TableColumns(table) then [] else [fields[0]]) + InvalidFields(table, fields[1..])
  }

  function Prepare(p: Plan): Prepared {
    var t := Traverse(p, p.inters);
    var invalid := InvalidFields(p.table, p.fields);
    if t.error.Some? || invalid == [] then t else Prepared(t.plan, Some(InvalidField(invalid[0])))
  }

  // ----- loading one edge -----

  function OwnKey(e: Edge, n: Node): Uuid {
    ReadUuid(n.row, OwnColumn(e))
  }

  function FarKey(e: Edge, n: Node): Uuid {
    ReadUuid(n.row, FarColumn(e))
  }

  function OwnKeys(e: Edge, nodes: seq<Node>): seq<Uuid> {
    seq(|nodes|, i requires 0 <= i < |nodes| => OwnKey(e, nodes[i]))
  }

  function FirstOccurrences(keys: seq<Uuid>): seq<Uuid> {
    if keys == [] then []
    else
      var n := |keys| - 1;
      AppendOnce(FirstOccurrences(keys[..n]), keys[n])
  }

  function AppendOnce(ids: seq<Uuid>, id: Uuid): seq<Uuid> {
    if id in ids then ids else ids + [id]
  }

  // The keys sent to the child query: without repeats, except on the one-to-one edge.
  function SentKeys(e: Edge, nodes: seq<Node>): seq<Uuid> {
    if KeyOnTarget(e) then OwnKeys(e, nodes) else FirstOccurrences(OwnKeys(e, nodes))
  }

  // A child query that selects columns must also select the key it is joined on.
  function Widen(e: Edge, child: Plan): Plan {
    if KeyOnTarget(e) && child.fields != [] then child.(fields := AddOnce(child.fields, FarColumn(e))) else child
  }

  function Restrict(e: Edge, child: Plan, keys: seq<Uuid>): (r: Plan)
    ensures Size(r) == Size(child)
  {
    var wide := Widen(e, child);
    wide.(predicates := wide.predicates + [In(FarColumn(e), keys)])
  }

  // Index of the last result with the key, or -1.
  function LastWithKey(e: Edge, far: seq<Node>, key: Uuid): (j: int)
    ensures -1 <= j < |far|
    ensures j >= 0 ==> FarKey(e, far[j]) == key
    ensures forall k | j < k < |far| :: FarKey(e, far[k]) != key
  {
    if far == [] then -1
    else if FarKey(e, far[|far| - 1]) == key then |far| - 1
    else LastWithKey(e, far[..|far| - 1], key)
  }

  // On the one-to-one edge the index holds one node per key, the last one stored.
  predicate Indexed(e: Edge, nodes: seq<Node>, i: nat)
    requires i < |nodes|
  {
    KeyOnTarget(e) ==> forall j | i < j < |nodes| :: OwnKey(e, nodes[j]) != OwnKey(e, nodes[i])
  }

  // What the index finds for a node.
  function Found(e: Edge, nodes: seq<Node>, far: seq<Node>, i: nat): Option<Node>
    requires i < |nodes|
  {
    var j := LastWithKey(e, far, OwnKey(e, nodes[i]));
    if j >= 0 && Indexed(e, nodes, i) then Some(far[j]) else None
  }

  function SetEdge(n: Node, e: Edge, far: Option<Node>): Node {
    if far.Some? then n.(edges := n.edges[e := far.value]) else n
  }

  function AttachOne(e: Edge, nodes: seq<Node>, far: seq<Node>, i: nat): Node
    requires i < |nodes|
  {
    SetEdge(nodes[i], e, Found(e, nodes, far, i))
  }

  function Attach(e: Edge, nodes: seq<Node>, far: seq<Node>): seq<Node> {
    seq(|nodes|, i requires 0 <= i < |nodes| => AttachOne(e, nodes, far, i))
  }

  // The results whose key no node has.
  function Strangers(e: Edge, nodes: seq<Node>, far: seq<Node>): seq<Node> {
    if far == [] then []
    else (if FarKey(e, far[0]) in OwnKeys(e, nodes) then [] else [far[0]]) + Strangers(e, nodes, far[1..])
  }

  // ----- running a plan -----

  datatype Run = Run(plan: Plan, result: Result<seq<Node>, Error>)

  datatype KidsRun = KidsRun(kids: Kids, result: Result<seq<Node>, Error>)

  function Bare(rows: seq<Row>, loaded: set<Edge>): seq<Node> {
    seq(|rows|, i requires 0 <= i < |rows| => Node(rows[i], loaded, map[]))
  }

  lemma {:induction false} TraverseKeeps(p: Plan, inters: seq<Interceptor>)
    ensures var q := Traverse(p, inters).plan; q == p.(predicates := q.predicates)
    decreases |inters|
  {
    if inters != [] {
      match inters[0] {
        case Traverser(adds) => TraverseKeeps(p.(predicates := p.predicates + adds), inters[1..]);
        case Wrapper => TraverseKeeps(p, inters[1..]);
        case _ =>
      }
    }
  }

  function Exec(p: Plan, d: Driver): Run
    decreases Size(p)
  {
    var prepared := Prepare(p);
    var q := prepared.plan;
    if prepared.error.Some? then Run(q, Err(prepared.error.value))
    else
      match QueryNodes(d, SpecOf(q))
      case Err(e) => Run(q, Err(e))
      case Ok(rows) =>
        if rows == [] then Run(q, Ok([]))
        else
          TraverseKeeps(p, p.inters);
          var l := LoadKids(q.kids, d, Bare(rows, KidEdges(q.kids)));
          Run(q.(kids := l.kids), l.result)
  }

  function LoadKids(ks: Kids, d: Driver, nodes: seq<Node>): KidsRun
    decreases KidsSize(ks)
  {
    match ks
    case NoKids => KidsRun(NoKids, Ok(nodes))
    case Kid(e, child, rest) =>
      var run := Exec(Restrict(e, child, SentKeys(e, nodes)), d);
      match run.result
      case Err(error) => KidsRun(Kid(e, run.plan, rest), Err(error))
      case Ok(far) =>
        var strangers := Strangers(e, nodes, far);
        if strangers != [] then
          KidsRun(Kid(e, run.plan, rest), Err(UnexpectedForeignKey(e, FarKey(e, strangers[0]))))
        else
          var l := LoadKids(rest, d, Attach(e, nodes, far));
          KidsRun(Kid(e, run.plan, l.kids), l.result)
  }
}
