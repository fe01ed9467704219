/** Whatever is done to a query builder, what it asks for is well formed, and so its runs are joins. */
module WellBuilt {
  import opened Schema
  import opened Driver
  import opened Plans
  import opened Join
  import opened Rerun
  import opened Success
  import opened Loaders
  import opened Terminals
  import opened Edges
  import opened Builders
  import opened Asked
  import opened Migrations

  // The child queries are some of the edges, in loading order.
  predicate Within(edges: seq<Edge>, ks: Kids)
    decreases edges
  {
    match ks
    case NoKids => true
    case Kid(e, _, rest) => edges != [] && if e == edges[0] then Within(edges[1..], rest) else Within(edges[1..], ks)
  }

  // Every child query is for an edge of its table, reads the table the edge leads to, and is the edge's only one.
  predicate Built(p: Plan) {
    WellFormed(p.table, p.kids) && Within(EdgesOf(p.table), p.kids)
  }

  lemma {:induction false} PutBuilt(table: Table, edges: seq<Edge>, ks: Kids, e: Edge, child: Plan)
    requires Within(edges, ks) && WellFormed(table, ks) && forall f | f in edges :: Source(f) == table
    requires child.table == Target(e) && WellFormed(child.table, child.kids)
    ensures Within(edges, Put(edges, ks, e, child)) && WellFormed(table, Put(edges, ks, e, child))
  {
    hide Source, Target;
    if edges != [] {
      var mine := ks.Kid? && ks.edge == edges[0];
      var rest := if mine then ks.rest else ks;
      PutBuilt(table, edges[1..], rest, e, child);
      WithinMore(edges, Put(edges[1..], rest, e, child));
    }
  }

  lemma {:induction false} WithinMore(edges: seq<Edge>, ks: Kids)
    requires edges != [] && Within(edges[1..], ks)
    ensures Within(edges, ks)
    decreases |edges|, 0
  {
    if ks.Kid? && ks.edge == edges[0] {
      WithinTail(edges[1..], ks);
    }
  }

  lemma {:induction false} WithinTail(edges: seq<Edge>, ks: Kids)
    requires ks.Kid? && Within(edges, ks)
    ensures Within(edges, ks.rest)
    decreases |edges|, 1
  {
    if ks.edge == edges[0] {
      WithinMore(edges, ks.rest);
    } else {
      WithinTail(edges[1..], ks);
      WithinMore(edges, ks.rest);
    }
  }

  lemma {:induction false} WithinOnce(edges: seq<Edge>, ks: Kids)
    requires NoRepeats(edges) && Within(edges, ks)
    ensures OncePerEdge(ks) && forall e | e in KidEdges(ks) :: e in edges
    decreases edges
  {
    if ks.Kid? {
      WithinOnce(edges[1..], if ks.edge == edges[0] then ks.rest else ks);
      assert ks.edge == edges[0] ==> edges[0] !in edges[1..];
    }
  }

  lemma {:induction false} LoadKidsWithin(edges: seq<Edge>, ks: Kids, d: Driver, nodes: seq<Node>)
    requires Within(edges, ks)
    ensures Within(edges, LoadKids(ks, d, nodes).kids)
    decreases |edges|
  {
    hide Exec, Restrict, SentKeys, Strangers, Attach;
    if ks.Kid? {
      if ks.edge == edges[0] {
        var far := Exec(Restrict(ks.edge, ks.child, SentKeys(ks.edge, nodes)), d).result;
        if far.Ok? {
          LoadKidsWithin(edges[1..], ks.rest, d, Attach(ks.edge, nodes, far.value));
        }
      } else {
        LoadKidsWithin(edges[1..], ks, d, nodes);
      }
    }
  }

  lemma ExecBuilt(p: Plan, d: Driver)
    requires Built(p)
    ensures Built(Exec(p, d).plan) && Exec(p, d).plan.table == p.table
  {
    hide EdgesOf, WellFormed;
    ExecKeepsShape(p, d);
    ExecKeepsWindow(p, d);
    PrepareAdds(p);
    var rows := Rows(d, SpecOf(Prepare(p).plan));
    LoadKidsWithin(EdgesOf(p.table), p.kids, d, Bare(rows, KidEdges(p.kids)));
  }

  lemma {:induction false} AppliedBuilt(p: Plan, ops: seq<BuilderOp>, d: Driver)
    requires Built(p)
    ensures Built(Applied(p, ops, d)) && Applied(p, ops, d).table == p.table
    decreases ops, 0
  {
    hide Built, AppliedOne;
    if ops != [] {
      AppliedOneBuilt(p, ops[0], d);
      AppliedBuilt(AppliedOne(p, ops[0], d), ops[1..], d);
    }
  }

  lemma {:induction false} AppliedOneBuilt(p: Plan, op: BuilderOp, d: Driver)
    requires Built(p)
    ensures Built(AppliedOne(p, op, d)) && AppliedOne(p, op, d).table == p.table
    decreases op
  {
    hide Exec, Put, Target, EdgesOf, Within, WellFormed, Prepare;
    match op {
      case DoWith(e, inters, opts) =>
        var child := Plan(Target(e), inters, [], [], None, None, None, [], NoKids);
        NewBuilt(child);
        AppliedBuilt(child, opts, d);
        EdgesBelong(p.table);
        PutBuilt(p.table, EdgesOf(p.table), p.kids, e, Applied(child, opts, d));
      case DoAll => ExecBuilt(p, d);
      case DoFirst => ExecBuilt(p.(limit := Some(1)), d);
      case DoOnly => ExecBuilt(p.(limit := Some(2)), d);
      case DoIDs => PrepareAdds(p.(fields := p.fields + [Id]));
      case DoExist => PrepareAdds(p.(limit := Some(1), fields := p.fields + [Id]));
      case _ =>
    }
  }

  lemma NewBuilt(p: Plan)
    requires p.kids == NoKids
    ensures Built(p)
  {
  }

  lemma EdgesBelong(table: Table)
    ensures forall e | e in EdgesOf(table) :: Source(e) == table
  {
  }

  // ----- what was requested is what is loaded -----

  // The edges of the table that some call asks to load.
  ghost function Requested(ops: seq<BuilderOp>, table: Table): set<Edge> {
    set k | 0 <= k < |ops| && ops[k].DoWith? && Source(ops[k].edge) == table :: ops[k].edge
  }

  lemma RequestedFirst(ops: seq<BuilderOp>, table: Table)
    requires ops != []
    ensures Requested(ops, table) ==
              Requested(ops[1..], table)
              + if ops[0].DoWith? && Source(ops[0].edge) == table then {ops[0].edge} else {}
  {
    hide Source;
    assert forall k | 1 <= k < |ops| :: ops[k] == ops[1..][k - 1];
  }

  lemma {:induction false} PutEdges(edges: seq<Edge>, ks: Kids, e: Edge, child: Plan)
    requires Within(edges, ks)
    ensures KidEdges(Put(edges, ks, e, child)) == KidEdges(ks) + if e in edges then {e} else {}
  {
    if edges != [] {
      var mine := ks.Kid? && ks.edge == edges[0];
      PutEdges(edges[1..], if mine then ks.rest else ks, e, child);
    }
  }

  // Whatever is done to a builder, it loads exactly the edges that it loaded and those asked for since.
  lemma {:induction false} AppliedEdges(p: Plan, ops: seq<BuilderOp>, d: Driver)
    requires Built(p)
    ensures KidEdges(Applied(p, ops, d).kids) == KidEdges(p.kids) + Requested(ops, p.table)
    decreases |ops|
  {
    hide Built, AppliedOne, Requested, KidEdges;
    if ops == [] {
      assert Requested(ops, p.table) == {} by { NoneRequested(p.table); }
    } else {
      AppliedOneEdges(p, ops[0], d);
      AppliedOneBuilt(p, ops[0], d);
      AppliedEdges(AppliedOne(p, ops[0], d), ops[1..], d);
      RequestedFirst(ops, p.table);
    }
  }

  lemma NoneRequested(table: Table)
    ensures Requested([], table) == {}
  {
  }

  lemma AppliedOneEdges(p: Plan, op: BuilderOp, d: Driver)
    requires Built(p)
    ensures KidEdges(AppliedOne(p, op, d).kids) ==
              KidEdges(p.kids) + if op.DoWith? && Source(op.edge) == p.table then {op.edge} else {}
  {
    hide Exec, Put, Target, Source, EdgesOf, WellFormed, Prepare, KidEdges;
    match op {
      case DoWith(e, inters, opts) =>
        var child := Plan(Target(e), inters, [], [], None, None, None, [], NoKids);
        PutEdges(EdgesOf(p.table), p.kids, e, Applied(child, opts, d));
        EveryEdgeLoads(e, p.table);
      case DoAll => ExecKeepsShape(p, d);
      case DoFirst => ExecKeepsShape(p.(limit := Some(1)), d);
      case DoOnly => ExecKeepsShape(p.(limit := Some(2)), d);
      case DoIDs => PrepareAdds(p.(fields := p.fields + [Id]));
      case DoExist => PrepareAdds(p.(limit := Some(1), fields := p.fields + [Id]));
      case _ =>
    }
  }

  // Asking for an edge gives it exactly the query described, and changes no other edge.
  lemma EagerAsks(p: Plan, e: Edge, inters: seq<Interceptor>, opts: seq<BuilderOp>, d: Driver)
    requires Built(p) && Source(e) == p.table
    ensures var after, child := Eagerly(p, e, inters, opts, d), Plan(Target(e), inters, [], [], None, None, None, [], NoKids);
            && after == p.(kids := after.kids)
            && Replaces(EdgesOf(p.table), p.kids, after.kids, e, Applied(child, opts, d))
  {
    hide Applied, Target, EdgesOf, WellFormed;
    var child := Plan(Target(e), inters, [], [], None, None, None, [], NoKids);
    EveryEdgeLoads(e, p.table);
    EdgesDistinct(p.table);
    PutReplaces(EdgesOf(p.table), p.kids, e, Applied(child, opts, d));
  }

  lemma {:induction false} PutReplaces(edges: seq<Edge>, ks: Kids, e: Edge, child: Plan)
    requires Within(edges, ks) && NoRepeats(edges)
    ensures Replaces(edges, ks, Put(edges, ks, e, child), e, child)
  {
    hide Replaces, NoRepeats;
    if edges == [] {
      NothingReplaced(ks, Put(edges, ks, e, child), e, child);
    } else {
      var mine := ks.Kid? && ks.edge == edges[0];
      var rest := if mine then ks.rest else ks;
      Distinct(edges);
      PutReplaces(edges[1..], rest, e, child);
      PutEdges(edges[1..], rest, e, child);
      WithinOnce(edges[1..], rest);
      ReplacesStep(edges, ks, Put(edges[1..], rest, e, child), e, child);
    }
  }

  lemma NothingReplaced(ks: Kids, after: Kids, e: Edge, child: Plan)
    ensures Replaces([], ks, after, e, child)
  {
  }

  lemma Distinct(edges: seq<Edge>)
    requires NoRepeats(edges) && edges != []
    ensures edges[0] !in edges[1..] && NoRepeats(edges[1..])
  {
  }

  lemma ReplacesStep(edges: seq<Edge>, ks: Kids, after: Kids, e: Edge, child: Plan)
    requires edges != [] && edges[0] !in edges[1..]
    requires var rest := if ks.Kid? && ks.edge == edges[0] then ks.rest else ks;
             && Replaces(edges[1..], rest, after, e, child)
             && edges[0] !in KidEdges(rest) && (edges[0] in KidEdges(after) ==> edges[0] == e && e in edges[1..])
    ensures var mine := ks.Kid? && ks.edge == edges[0];
            Replaces(edges, ks, if edges[0] == e then Kid(e, child, after)
                                else if mine then Kid(edges[0], ks.child, after)
                                else after, e, child)
  {
    assert forall f :: f in edges <==> f == edges[0] || f in edges[1..];
  }

  // Makes a query, does anything to it, and runs it: the run succeeds exactly when all queries that it reaches can
  // be served, every edge requested is loaded for every node, and the result is the join of what the builder then asks
  // for, on the keys as they are read.
  method Joined(table: Table, inters: seq<Interceptor>, ops: seq<BuilderOp>, d: Driver)
    returns (q: Query, r: Result<seq<Entity>, Error>, ghost asked: Plan)
    ensures fresh(q.Tree()) && q.Valid()
    ensures asked == Applied(Plan(table, inters, [], [], None, None, None, [], NoKids), ops, d)
    ensures OncePerEdge(asked.kids) && KidEdges(asked.kids) == Requested(ops, table)
    ensures r.Ok? ==> forall i | 0 <= i < |r.value| :: r.value[i].loaded == Requested(ops, table)
    ensures Permutes(d) ==> (r.Ok? <==> forall p | Reaches(asked, d, p) :: Served(p, d))
    ensures Permutes(d) && Keyed(d) && UnwindowedKids(asked.kids) && r.Ok? ==>
              && Returns(r, Ok(AllByKey(asked, d)))
              && (NoZeroIds(d) ==> Returns(r, Ok(NaiveAll(asked, d))))
  {
    hide Query.Valid, Applied, Exec, KidsOf, NaiveAll, AllByKey, UnwindowedKids, EdgesOf, Reaches, Served;
    EdgesDistinct(table);
    q := new Query(table, EdgesOf(table), inters);
    ghost var start := q.AsPlan();
    q.Apply(ops, d);
    asked := q.AsPlan();
    NewBuilt(start);
    AppliedBuilt(start, ops, d);
    WithinOnce(EdgesOf(table), asked.kids);
    AppliedEdges(start, ops, d);
    r := q.All(d);
    if r.Ok? {
      RunLoaded(asked, d);
      ReturnedLoaded(r.value, Exec(asked, d).result.value);
    }
    if Permutes(d) {
      RunsExactly(asked, d);
    }
    if Permutes(d) && Keyed(d) && UnwindowedKids(asked.kids) && r.Ok? {
      ExecByKey(asked, d);
      if NoZeroIds(d) {
        ExecIsNaive(asked, d);
      }
    }
  }

  lemma ReturnedLoaded(nodes: seq<Entity>, values: seq<Node>)
    requires Values(nodes) == values
    ensures |nodes| == |values| && forall i | 0 <= i < |nodes| :: nodes[i].loaded == values[i].loaded
  {
    assert forall i | 0 <= i < |nodes| :: Values(nodes)[i] == nodes[i].Value();
  }
}
