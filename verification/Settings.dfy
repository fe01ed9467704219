/** The settings of a query builder as they lie in memory: slices that appending may write behind, and a shared
  * context. What the setters of one builder do to another depends on what they share. */
module QuerySettings {
  import opened Schema
  import opened Driver
  import opened Plans
  import opened Slices
  import opened Builders

  class Context {
    var fields: Slice<Column>
    var unique: Option<bool>
    var limit: Option<nat>
    var offset: Option<nat>

    constructor (fields: Slice<Column>, unique: Option<bool>, limit: Option<nat>, offset: Option<nat>)
      ensures this.fields == fields && this.unique == unique && this.limit == limit && this.offset == offset
    {
      this.fields, this.unique, this.limit, this.offset := fields, unique, limit, offset;
    }

    method Clone() returns (c: Context)
      requires fields.Valid()
      ensures fresh(c) && c.fields.Valid() && fresh(c.fields.backing) && c.fields.Contents() == fields.Contents()
      ensures c.unique == unique && c.limit == limit && c.offset == offset
    {
      var columns := Copy(fields);
      c := new Context(columns, unique, limit, offset);
    }
  }

  // The calls that only change settings.
  predicate Sets(op: BuilderOp) {
    op.DoWhere? || op.DoLimit? || op.DoOffset? || op.DoUnique? || op.DoOrder? || op.DoSelect?
  }

  ghost predicate Apart(a: object, b: object, c: object, d: object) {
    a != b && a != c && a != d && b != c && b != d && c != d
  }

  class Settings {
    const table: Table
    var ctx: Context
    var order: Slice<OrderTerm>
    var inters: Slice<Interceptor>
    var predicates: Slice<Predicate>

    // Everything that changing the settings may write to.
    ghost function Repr(): set<object>
      reads this, ctx
    {
      {this, ctx, ctx.fields.backing, order.backing, inters.backing, predicates.backing}
    }

    ghost predicate Valid()
      reads this, ctx
    {
      && ctx.fields.Valid() && order.Valid() && inters.Valid() && predicates.Valid()
      && Apart(ctx.fields.backing, order.backing, inters.backing, predicates.backing)
    }

    // What is asked for, without eager-loaded edges.
    ghost function AsPlan(): Plan
      requires Valid()
      reads this, ctx, Repr()
    {
      Plan(table, inters.Contents(), predicates.Contents(), ctx.fields.Contents(), ctx.unique, ctx.limit, ctx.offset,
           order.Contents(), NoKids)
    }

    constructor (table: Table, ctx: Context, order: Slice<OrderTerm>, inters: Slice<Interceptor>,
                 predicates: Slice<Predicate>)
      ensures this.table == table && this.ctx == ctx
      ensures this.order == order && this.inters == inters && this.predicates == predicates
    {
      this.table, this.ctx, this.order, this.inters, this.predicates := table, ctx, order, inters, predicates;
    }

    // A copy of every slice and of the context.
    method Clone() returns (c: Settings)
      requires Valid()
      ensures c.Valid() && fresh(c.Repr()) && c.AsPlan() == AsPlan()
    {
      hide Slice.Contents;
      var context := ctx.Clone();
      var terms := Copy(order);
      var interceptors := Copy(inters);
      var ps := Copy(predicates);
      c := new Settings(table, context, terms, interceptors, ps);
    }

    // The copy shares nothing with the original, which stays as it was.
    method CloneSeparate() returns (c: Settings)
      requires Valid()
      ensures c.Valid() && fresh(c.Repr()) && c.AsPlan() == AsPlan()
      ensures Valid() && Repr() == old(Repr()) && AsPlan() == old(AsPlan()) && Repr() !! c.Repr()
    {
      hide AsPlan, Valid;
      c := Clone();
    }

    method Set(op: BuilderOp, ghost d: Driver)
      requires Valid() && Sets(op)
      modifies Repr()
      ensures Valid() && fresh(Repr() - old(Repr())) && AsPlan() == AppliedOne(old(AsPlan()), op, d)
    {
      match op {
        case DoWhere(ps) => predicates := Append(predicates, ps);
        case DoLimit(n) => ctx.limit := Some(n);
        case DoOffset(n) => ctx.offset := Some(n);
        case DoUnique(b) => ctx.unique := Some(b);
        case DoOrder(terms) => order := Append(order, terms);
        case DoSelect(columns) =>
          var fields := Append(ctx.fields, columns);
          ctx.fields := fields;
      }
    }
  }

  // The calls made on one of two builders.
  function Mine(calls: seq<(bool, BuilderOp)>, copy: bool): seq<BuilderOp> {
    if calls == [] then []
    else
      var earlier := Mine(calls[..|calls| - 1], copy);
      if calls[|calls| - 1].0 == copy then earlier + [calls[|calls| - 1].1] else earlier
  }

  lemma NoneMine(calls: seq<(bool, BuilderOp)>)
    requires calls == []
    ensures Mine(calls, false) == Mine(calls, true) == []
  {
  }

  lemma OneMine(calls: seq<(bool, BuilderOp)>)
    requires calls != []
    ensures var k := |calls| - 1;
            && Mine(calls, calls[k].0) == Mine(calls[..k], calls[k].0) + [calls[k].1]
            && Mine(calls, !calls[k].0) == Mine(calls[..k], !calls[k].0)
  {
  }

  lemma AppliedNone(p: Plan, d: Driver)
    ensures Applied(p, [], d) == p
  {
    hide AppliedOne;
  }

  lemma {:induction false} AppliedMore(p: Plan, ops: seq<BuilderOp>, op: BuilderOp, d: Driver)
    ensures Applied(p, ops + [op], d) == AppliedOne(Applied(p, ops, d), op, d)
    decreases |ops|
  {
    hide AppliedOne;
    if ops == [] {
      assert ([] + [op])[1..] == [];
    } else {
      assert (ops + [op])[1..] == ops[1..] + [op];
      AppliedMore(AppliedOne(p, ops[0], d), ops[1..], op, d);
    }
  }

  // A call on one of two builders that share nothing leaves the other as it is.
  method SetOne(q: Settings, c: Settings, op: BuilderOp, ghost d: Driver)
    requires q.Valid() && c.Valid() && q.Repr() !! c.Repr() && Sets(op)
    modifies q.Repr()
    ensures q.Valid() && c.Valid() && q.Repr() !! c.Repr() && c.Repr() == old(c.Repr())
    ensures forall o | o in q.Repr() :: o in old(q.Repr()) || fresh(o)
    ensures q.AsPlan() == AppliedOne(old(q.AsPlan()), op, d) && c.AsPlan() == old(c.AsPlan())
  {
    hide Applied, AppliedOne, Settings.AsPlan, Settings.Valid;
    q.Set(op, d);
  }

  // A builder and its copy, with calls on both in any order: each asks for what its own calls make of what the
  // builder asked for, as if the other were not there.
  method CloneApart(q: Settings, calls: seq<(bool, BuilderOp)>, ghost d: Driver) returns (c: Settings)
    requires q.Valid() && forall k | 0 <= k < |calls| :: Sets(calls[k].1)
    modifies q.Repr()
    ensures q.Valid() && c.Valid() && q.Repr() !! c.Repr()
    ensures q.AsPlan() == Applied(old(q.AsPlan()), Mine(calls, false), d)
    ensures c.AsPlan() == Applied(old(q.AsPlan()), Mine(calls, true), d)
  {
    hide Applied, AppliedOne, Settings.AsPlan, Settings.Valid, Settings.Repr, Mine;
    c := q.CloneSeparate();
    NoneMine(calls[..0]);
    AppliedNone(q.AsPlan(), d);
    for i := 0 to |calls|
      invariant q.Valid() && c.Valid() && q.Repr() !! c.Repr()
      invariant forall o | o in c.Repr() :: fresh(o)
      invariant forall o | o in q.Repr() :: o in old(q.Repr()) || fresh(o)
      invariant q.AsPlan() == Applied(old(q.AsPlan()), Mine(calls[..i], false), d)
      invariant c.AsPlan() == Applied(old(q.AsPlan()), Mine(calls[..i], true), d)
    {
      var (copy, op) := calls[i];
      assert calls[..i + 1][..i] == calls[..i] && calls[..i + 1][i] == calls[i];
      OneMine(calls[..i + 1]);
      AppliedMore(old(q.AsPlan()), Mine(calls[..i], copy), op, d);
      if copy {
        SetOne(c, q, op, d);
      } else {
        SetOne(q, c, op, d);
      }
    }
    assert calls[..|calls|] == calls;
  }
}
