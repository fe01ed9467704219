/** Running a plan leaves its child queries narrowed to the keys of that run. Over an unchanged store
  * that changes nothing however often it is run; over a changed one it hides the new keys. */
module Rerun {
  import opened Schema
  import opened Driver
  import opened Plans
  import opened Join

  // ----- nodes keep their rows -----

  lemma {:induction false} LoadKidsRows(ks: Kids, d: Driver, nodes: seq<Node>)
    requires LoadKids(ks, d, nodes).result.Ok?
    ensures var loaded := LoadKids(ks, d, nodes).result.value;
            |loaded| == |nodes| && forall i | 0 <= i < |nodes| :: loaded[i].row == nodes[i].row
    decreases KidsSize(ks)
  {
    match ks {
      case NoKids =>
      case Kid(e, child, rest) =>
        LoadKidsRows(rest, d, Attach(e, nodes, Exec(Restrict(e, child, SentKeys(e, nodes)), d).result.value));
    }
  }

  lemma ExecRows(p: Plan, d: Driver)
    requires Exec(p, d).result.Ok?
    ensures var rows := Rows(d, SpecOf(Prepare(p).plan));
            var nodes := Exec(p, d).result.value;
            |nodes| == |rows| && forall i | 0 <= i < |rows| :: nodes[i].row == rows[i]
  {
    ExecLoads(p, d);
    var rows := Rows(d, SpecOf(Prepare(p).plan));
    if rows != [] {
      LoadKidsRows(p.kids, d, Bare(rows, KidEdges(p.kids)));
    }
  }

  // ----- the unexpected foreign-key error -----

  // Every row returned is a projection of a matching row.
  lemma RowsMatch(d: Driver, spec: QuerySpec, row: Row) returns (source: Row)
    requires row in Rows(d, spec)
    ensures source in Matching(d, spec) && row == Project(source, spec.columns)
  {
    var rows := ProjectAll(Matching(d, spec), spec.columns);
    DistinctMembers(rows, row);
    var i :| 0 <= i < |rows| && rows[i] == row;
    source := Matching(d, spec)[i];
  }

  lemma {:induction false} NoStrangers(e: Edge, nodes: seq<Node>, far: seq<Node>)
    requires forall n | n in far :: FarKey(e, n) in OwnKeys(e, nodes)
    ensures Strangers(e, nodes, far) == []
  {
    if far != [] {
      assert far[0] in far && forall n | n in far[1..] :: n in far;
      NoStrangers(e, nodes, far[1..]);
    }
  }

  lemma SentKeysAreOwn(e: Edge, nodes: seq<Node>, key: Uuid)
    ensures key in SentKeys(e, nodes) <==> key in OwnKeys(e, nodes)
  {
    FirstOccurrencesMembers(OwnKeys(e, nodes), key);
  }

  // A child query returns no key it was not asked for, whatever fields it selects.
  lemma ChildKeysExpected(e: Edge, table: Table, child: Plan, d: Driver, nodes: seq<Node>)
    requires Permutes(d) && Source(e) == table && child.table == Target(e)
    requires Exec(Restrict(e, child, SentKeys(e, nodes)), d).result.Ok?
    ensures Strangers(e, nodes, Exec(Restrict(e, child, SentKeys(e, nodes)), d).result.value) == []
  {
    hide Exec, Source, Target, OwnColumn, TableColumns;
    var keys := SentKeys(e, nodes);
    var r := Restrict(e, child, keys);
    var spec := RestrictedSpec(e, child, keys);
    var far := Exec(r, d).result.value;
    ExecRows(r, d);
    PrepareAdds(r);
    ColumnsCarryFarKey(e, table, child);
    forall n | n in far ensures FarKey(e, n) in OwnKeys(e, nodes) {
      var i :| 0 <= i < |far| && far[i] == n;
      assert n.row in Rows(d, spec);
      var source := RowsMatch(d, spec, n.row);
      RestrictedMembers(e, child, keys, d, source);
      SentKeysAreOwn(e, nodes, ReadUuid(source, FarColumn(e)));
    }
    NoStrangers(e, nodes, far);
  }

  ghost predicate Unexpected(r: Result<seq<Node>, Error>) {
    r.Err? && r.error.UnexpectedForeignKey?
  }

  lemma {:induction false} NeverUnexpected(p: Plan, d: Driver)
    requires Permutes(d) && WellFormed(p.table, p.kids)
    ensures !Unexpected(Exec(p, d).result)
    decreases Size(p)
  {
    PrepareAdds(p);
    PrepareErrors(p);
    var rows := Rows(d, SpecOf(Prepare(p).plan));
    LoadKidsNeverUnexpected(p.table, p.kids, d, Bare(rows, KidEdges(p.kids)));
  }

  lemma {:induction false} TraverseErrors(p: Plan, inters: seq<Interceptor>)
    ensures var e := Traverse(p, inters).error; e.Some? ==> !e.value.UnexpectedForeignKey?
    decreases |inters|
  {
    if inters != [] {
      match inters[0] {
        case Traverser(adds) => TraverseErrors(p.(predicates := p.predicates + adds), inters[1..]);
        case Wrapper => TraverseErrors(p, inters[1..]);
        case _ =>
      }
    }
  }

  lemma PrepareErrors(p: Plan)
    ensures var e := Prepare(p).error; e.Some? ==> !e.value.UnexpectedForeignKey?
  {
    TraverseErrors(p, p.inters);
  }

  lemma {:induction false} LoadKidsNeverUnexpected(table: Table, ks: Kids, d: Driver, nodes: seq<Node>)
    requires Permutes(d) && WellFormed(table, ks)
    ensures !Unexpected(LoadKids(ks, d, nodes).result)
    decreases KidsSize(ks)
  {
    match ks {
      case NoKids =>
      case Kid(e, child, rest) =>
        var r := Restrict(e, child, SentKeys(e, nodes));
        NeverUnexpected(r, d);
        if Exec(r, d).result.Ok? {
          ChildKeysExpected(e, table, child, d, nodes);
          LoadKidsNeverUnexpected(table, rest, d, Attach(e, nodes, Exec(r, d).result.value));
        }
    }
  }

  // ----- running again over the same store -----

  // q is p after some runs over d: it selects the same rows, and so do its children under the keys of p's rows.
  ghost predicate Stable(p: Plan, q: Plan, d: Driver)
    decreases Size(p)
  {
    && q == p.(predicates := q.predicates, kids := q.kids)
    && Filter(d.tables(p.table), Wanted(p)) == Filter(d.tables(p.table), Wanted(q))
    && KidsStable(p.kids, q.kids, d, Bare(Rows(d, SpecOf(Prepare(p).plan)), KidEdges(p.kids)))
  }

  ghost predicate KidsStable(ks: Kids, ls: Kids, d: Driver, nodes: seq<Node>)
    decreases KidsSize(ks)
  {
    match ks
    case NoKids => ls.NoKids?
    case Kid(e, child, rest) =>
      && ls.Kid? && ls.edge == e
      && Stable(Restrict(e, child, SentKeys(e, nodes)), Restrict(e, ls.child, SentKeys(e, nodes)), d)
      && KidsStable(rest, ls.rest, d, nodes)
  }

  lemma {:induction false} StableSelf(p: Plan, d: Driver)
    ensures Stable(p, p, d)
    decreases Size(p)
  {
    KidsStableSelf(p.kids, d, Bare(Rows(d, SpecOf(Prepare(p).plan)), KidEdges(p.kids)));
  }

  lemma {:induction false} KidsStableSelf(ks: Kids, d: Driver, nodes: seq<Node>)
    ensures KidsStable(ks, ks, d, nodes)
    decreases KidsSize(ks)
  {
    match ks {
      case NoKids =>
      case Kid(e, child, rest) =>
        StableSelf(Restrict(e, child, SentKeys(e, nodes)), d);
        KidsStableSelf(rest, d, nodes);
    }
  }

  lemma {:induction false} StableColumns(columns: seq<Column>, ks: Kids, ls: Kids, d: Driver, nodes: seq<Node>)
    requires KidsStable(ks, ls, d, nodes)
    ensures AddKeys(columns, ks) == AddKeys(columns, ls) && KidEdges(ks) == KidEdges(ls)
    decreases ks
  {
    match ks {
      case NoKids =>
      case Kid(e, _, rest) =>
        StableColumns(if KeyOnTarget(e) then columns else AddOnce(columns, OwnColumn(e)), rest, ls.rest, d, nodes);
    }
  }

  lemma {:induction false} TraverseErrorSame(p: Plan, q: Plan, inters: seq<Interceptor>)
    ensures Traverse(p, inters).error == Traverse(q, inters).error
    decreases |inters|
  {
    if inters != [] {
      match inters[0] {
        case Traverser(adds) =>
          TraverseErrorSame(p.(predicates := p.predicates + adds), q.(predicates := q.predicates + adds), inters[1..]);
        case Wrapper => TraverseErrorSame(p, q, inters[1..]);
        case _ =>
      }
    }
  }

  lemma StableFetch(p: Plan, q: Plan, d: Driver)
    requires Stable(p, q, d)
    ensures Prepare(p).error == Prepare(q).error
    ensures QueryNodes(d, SpecOf(Prepare(p).plan)) == QueryNodes(d, SpecOf(Prepare(q).plan))
    ensures KidEdges(p.kids) == KidEdges(q.kids)
  {
    PrepareAdds(p);
    PrepareAdds(q);
    TraverseErrorSame(p, q, p.inters);
    StableColumns([Id] + WithoutId(p.fields), p.kids, q.kids, d, Bare(Rows(d, SpecOf(Prepare(p).plan)), KidEdges(p.kids)));
  }

  // Predicates a traverser adds again change nothing.
  lemma WantedAgain(p: Plan, d: Driver)
    ensures Filter(d.tables(p.table), Wanted(p) + Adds(p.inters)) == Filter(d.tables(p.table), Wanted(p))
  {
    forall row | row in d.tables(p.table)
      ensures AllHold(Wanted(p) + Adds(p.inters), row) <==> AllHold(Wanted(p), row)
    {
      AllHoldAppend(Wanted(p), Adds(p.inters), row);
      AllHoldAppend(p.predicates, Adds(p.inters), row);
    }
    FilterSame(d.tables(p.table), Wanted(p) + Adds(p.inters), Wanted(p));
  }

  // A run gives the same result as the first one, and leaves a query that will do so again.
  lemma {:induction false} StableRun(p: Plan, q: Plan, d: Driver)
    requires Stable(p, q, d)
    ensures Exec(q, d).result == Exec(p, d).result
    ensures Stable(p, Exec(q, d).plan, d)
    decreases Size(p)
  {
    StableFetch(p, q, d);
    PrepareAdds(p);
    PrepareAdds(q);
    WantedAgain(q, d);
    var nodes := Bare(Rows(d, SpecOf(Prepare(p).plan)), KidEdges(p.kids));
    SameRowsSelf(nodes);
    KidsStableRun(p.kids, q.kids, d, nodes, nodes);
  }

  ghost predicate SameRows(nodes: seq<Node>, others: seq<Node>) {
    |nodes| == |others| && forall i | 0 <= i < |nodes| :: nodes[i].row == others[i].row
  }

  lemma SameRowsSelf(nodes: seq<Node>)
    ensures SameRows(nodes, nodes)
  {
  }

  lemma SameSentKeys(e: Edge, nodes: seq<Node>, others: seq<Node>)
    requires SameRows(nodes, others)
    ensures SentKeys(e, nodes) == SentKeys(e, others)
  {
    assert OwnKeys(e, nodes) == OwnKeys(e, others);
  }

  lemma {:induction false} KidsStableRun(ks: Kids, ls: Kids, d: Driver, nodes: seq<Node>, loaded: seq<Node>)
    requires KidsStable(ks, ls, d, nodes) && SameRows(nodes, loaded)
    ensures LoadKids(ls, d, loaded).result == LoadKids(ks, d, loaded).result
    ensures KidsStable(ks, LoadKids(ls, d, loaded).kids, d, nodes)
    decreases KidsSize(ks)
  {
    match ks {
      case NoKids =>
      case Kid(e, child, rest) =>
        SameSentKeys(e, nodes, loaded);
        var keys := SentKeys(e, nodes);
        var r := Restrict(e, child, keys);
        var s := Restrict(e, ls.child, keys);
        StableRun(r, s, d);
        StableRestrict(e, child, keys, Exec(s, d).plan, d);
        var far := Exec(s, d).result;
        if far.Ok? && Strangers(e, loaded, far.value) == [] {
          KidsStableRun(rest, ls.rest, d, nodes, Attach(e, loaded, far.value));
        }
    }
  }

  // Restricting a query that has already run under the same keys changes nothing.
  lemma StableRestrict(e: Edge, child: Plan, keys: seq<Uuid>, again: Plan, d: Driver)
    requires Stable(Restrict(e, child, keys), again, d)
    ensures Stable(Restrict(e, child, keys), Restrict(e, again, keys), d)
  {
    var r := Restrict(e, child, keys);
    var s := Restrict(e, again, keys);
    var rows := d.tables(child.table);
    forall row | row in rows ensures AllHold(Wanted(again), row) <==> AllHold(Wanted(s), row) {
      FilterMembers(rows, Wanted(r), row);
      FilterMembers(rows, Wanted(again), row);
      WantedRestricted(e, child, keys, row);
      WantedRestricted(e, again, keys, row);
    }
    FilterSame(rows, Wanted(again), Wanted(s));
  }

  lemma WantedRestricted(e: Edge, child: Plan, keys: seq<Uuid>, row: Row)
    ensures AllHold(Wanted(Restrict(e, child, keys)), row)
       <==> AllHold(Wanted(child), row) && Holds(In(FarColumn(e), keys), row)
  {
    var restriction := [In(FarColumn(e), keys)];
    AllHoldAppend(child.predicates + restriction, Adds(child.inters), row);
    AllHoldAppend(child.predicates, restriction, row);
    AllHoldAppend(child.predicates, Adds(child.inters), row);
    assert AllHold(restriction, row) <==> Holds(restriction[0], row);
  }

  function After(p: Plan, d: Driver, runs: nat): Plan {
    if runs == 0 then p else Exec(After(p, d, runs - 1), d).plan
  }

  lemma {:induction false} AfterStable(p: Plan, d: Driver, runs: nat)
    ensures Stable(p, After(p, d, runs), d)
  {
    if runs == 0 {
      StableSelf(p, d);
    } else {
      AfterStable(p, d, runs - 1);
      StableRun(p, After(p, d, runs - 1), d);
    }
  }

  lemma RerunIsStable(p: Plan, d: Driver, runs: nat)
    ensures Exec(After(p, d, runs), d).result == Exec(p, d).result
  {
    AfterStable(p, d, runs);
    StableRun(p, After(p, d, runs), d);
  }

  // ----- running again over a changed store -----

  // The child query as a first run over another store left it.
  function Stale(e: Edge, child: Plan, keys: seq<Uuid>, d: Driver): Plan {
    Exec(Restrict(e, child, keys), d).plan
  }

  lemma ExecKeepsWindow(p: Plan, d: Driver)
    ensures var q := Exec(p, d).plan; q == p.(predicates := Wanted(p), kids := q.kids)
  {
    PrepareAdds(p);
  }

  // After a run under some keys, a key's partner is found exactly when it was among them.
  lemma StalePartner(e: Edge, child: Plan, keys: seq<Uuid>, before: Driver, now: Driver, key: Uuid)
    requires KeyColumn(now.tables(child.table), FarColumn(e))
    ensures Partner(e, Stale(e, child, keys, before), now, key)
         == if key in keys then Partner(e, child, now, key) else None
  {
    var stale := Stale(e, child, keys, before);
    var r := Restrict(e, child, keys);
    ExecKeepsWindow(r, before);
    forall row ensures AllHold(Wanted(stale), row)
                  <==> AllHold(Wanted(child), row) && Holds(In(FarColumn(e), keys), row) {
      AllHoldAppend(Wanted(r), Adds(r.inters), row);
      AllHoldAppend(r.predicates, Adds(r.inters), row);
      WantedRestricted(e, child, keys, row);
    }
    forall row ensures Partner(e, stale, now, key) == Some(row)
                  <==> key in keys && Partner(e, child, now, key) == Some(row) {
      PartnerIs(e, stale, now, key, row);
      PartnerIs(e, child, now, key, row);
      PartnerMembers(e, child, now, key, row);
    }
    var a, b := Partner(e, stale, now, key), Partner(e, child, now, key);
    assert a.Some? ==> Partner(e, stale, now, key) == Some(a.value);
    assert b.Some? ==> Partner(e, child, now, key) == Some(b.value);
  }

  // A run keeps the shape of the query tree.
  lemma {:induction false} ExecKeepsShape(p: Plan, d: Driver)
    ensures var q := Exec(p, d).plan;
            && KidEdges(q.kids) == KidEdges(p.kids)
            && (WellFormed(p.table, p.kids) ==> WellFormed(q.table, q.kids))
            && (UnwindowedKids(p.kids) ==> UnwindowedKids(q.kids))
    decreases Size(p)
  {
    PrepareAdds(p);
    LoadKidsKeepsShape(p.table, p.kids, d, Bare(Rows(d, SpecOf(Prepare(p).plan)), KidEdges(p.kids)));
  }

  lemma {:induction false} LoadKidsKeepsShape(table: Table, ks: Kids, d: Driver, nodes: seq<Node>)
    ensures var ls := LoadKids(ks, d, nodes).kids;
            && KidEdges(ls) == KidEdges(ks)
            && (WellFormed(table, ks) ==> WellFormed(table, ls))
            && (UnwindowedKids(ks) ==> UnwindowedKids(ls))
    decreases KidsSize(ks)
  {
    hide Source, Target, EdgesOf, Prepare;
    match ks {
      case NoKids =>
      case Kid(e, child, rest) =>
        var r := Restrict(e, child, SentKeys(e, nodes));
        ExecKeepsShape(r, d);
        ExecKeepsWindow(r, d);
        if Exec(r, d).result.Ok? {
          LoadKidsKeepsShape(table, rest, d, Attach(e, nodes, Exec(r, d).result.value));
        }
    }
  }

  // The keys a run sends for an edge are those of the rows it fetched.
  function FetchedKeys(e: Edge, p: Plan, d: Driver): seq<Uuid> {
    SentKeys(e, Bare(Rows(d, SpecOf(Prepare(p).plan)), KidEdges(p.kids)))
  }

  lemma {:induction false} EdgesByKeyWithin(ks: Kids, d: Driver, row: Row, e: Edge)
    requires e !in KidEdges(ks)
    ensures e !in EdgesByKey(ks, d, row)
    decreases ks
  {
    match ks {
      case NoKids =>
      case Kid(_, _, rest) => EdgesByKeyWithin(rest, d, row, e);
    }
  }
}
