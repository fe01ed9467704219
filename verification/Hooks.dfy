/** Composing hooks and interceptors around an operation, and saving one component through them.
  *
  * A hook turns the next mutator into a mutator; the state it acts on is a parameter.
  */
module Hooks {
  import opened Schema
  import opened Codec
  import opened Create

  type Mutator<!S> = (S, Mutation) -> (S, Outcome)

  type Wrapper<!A> = A -> A

  // The innermost one wrapped by all, the first outermost.
  function Fold<A>(hooks: seq<Wrapper<A>>, next: A): A {
    if hooks == [] then next else hooks[0](Fold(hooks[1..], next))
  }

  lemma {:induction false} FoldConcat<A>(a: seq<Wrapper<A>>, b: seq<Wrapper<A>>, next: A)
    ensures Fold(a + b, next) == Fold(a, Fold(b, next))
  {
    if a == [] {
      assert a + b == b;
    } else {
      FoldConcat(a[1..], b, next);
      assert (a + b)[1..] == a[1..] + b;
    }
  }

  function Reported(result: Result<Fields, Error>): Outcome {
    match result
    case Ok(f) => Fine(Created(f))
    case Err(e) => Fail(e)
  }

  // The innermost mutator: the builder's mutation becomes a copy of the one handed down, and the operation runs.
  function Base<S>(exec: S -> (S, Result<Fields, Error>), copy: (S, Mutation) -> S): Mutator<S> {
    (s: S, m: Mutation) =>
      if !m.ofComponents then (s, Fail(UnexpectedMutation))
      else var (r, result) := exec(copy(s, m)); (r, Reported(result))
  }

  // What the operation gives back when its mutator has answered: only an entity will do.
  function Asserted(o: Outcome): Result<Fields, Error> {
    match o
    case Fail(e) => Err(e)
    case Fine(Created(f)) => Ok(f)
    case Fine(_) => Err(UnexpectedNode)
  }

  predicate AnyNil<A>(hooks: seq<Option<Wrapper<A>>>) {
    exists k :: 0 <= k < |hooks| && hooks[k].None?
  }

  function Wrappers<A>(hooks: seq<Option<Wrapper<A>>>): (w: seq<Wrapper<A>>)
    requires !AnyNil(hooks)
    ensures |w| == |hooks| && forall k | 0 <= k < |w| :: w[k] == hooks[k].value
  {
    seq(|hooks|, k requires 0 <= k < |hooks| => hooks[k].value)
  }

  // The operation inside its hooks. Without hooks it runs directly; with an uninitialized one it never runs.
  function Hooked<S>(s: S, own: Mutation, exec: S -> (S, Result<Fields, Error>), copy: (S, Mutation) -> S,
                     hooks: seq<Option<Wrapper<Mutator<S>>>>): (S, Result<Fields, Error>)
  {
    if hooks == [] then exec(s)
    else if AnyNil(hooks) then (s, Err(UninitializedHook))
    else
      var (r, o) := Fold(Wrappers(hooks), Base(exec, copy))(s, own);
      (r, Asserted(o))
  }

  /** Runs the operation inside the hooks, on the builder's own mutation. */
  method WithHooks<S>(s: S, own: Mutation, exec: S -> (S, Result<Fields, Error>), copy: (S, Mutation) -> S,
                      hooks: seq<Option<Wrapper<Mutator<S>>>>)
    returns (r: S, result: Result<Fields, Error>)
    ensures (r, result) == Hooked(s, own, exec, copy, hooks)
  {
    if |hooks| == 0 {
      var (t, e) := exec(s);
      return t, e;
    }
    var mut := Base(exec, copy);
    var i := |hooks|;
    while i > 0
      invariant 0 <= i <= |hooks| && forall k | i <= k < |hooks| :: hooks[k].Some?
      invariant mut == Fold(Wrappers(hooks[i..]), Base(exec, copy))
    {
      i := i - 1;
      if hooks[i].None? {
        return s, Err(UninitializedHook);
      }
      assert Wrappers(hooks[i..])[1..] == Wrappers(hooks[i + 1..]);
      mut := hooks[i].value(mut);
    }
    assert hooks[0..] == hooks;
    var (t, o) := mut(s, own);
    return t, Asserted(o);
  }

  // Hooks a followed by hooks b wrap a around b around the operation; a nil hook anywhere, in a or in b, means
  // that nothing runs.
  lemma HookedConcat<S>(s: S, own: Mutation, exec: S -> (S, Result<Fields, Error>), copy: (S, Mutation) -> S,
                        a: seq<Option<Wrapper<Mutator<S>>>>, b: seq<Option<Wrapper<Mutator<S>>>>)
    requires a + b != []
    ensures AnyNil(a) || AnyNil(b) ==> Hooked(s, own, exec, copy, a + b) == (s, Err(UninitializedHook))
    ensures !AnyNil(a) && !AnyNil(b) ==>
              var (r, o) := Fold(Wrappers(a), Fold(Wrappers(b), Base(exec, copy)))(s, own);
              Hooked(s, own, exec, copy, a + b) == (r, Asserted(o))
  {
    if AnyNil(a) {
      var k :| 0 <= k < |a| && a[k].None?;
      assert (a + b)[k].None?;
    } else if AnyNil(b) {
      var k :| 0 <= k < |b| && b[k].None?;
      assert (a + b)[|a| + k].None?;
    } else {
      assert Wrappers(a + b) == Wrappers(a) + Wrappers(b);
      FoldConcat(Wrappers(a), Wrappers(b), Base(exec, copy));
    }
  }

  // Hooks that only pass on change nothing, as long as copying a mutation onto itself changes nothing.
  lemma {:induction false} PassingOn<S>(s: S, own: Mutation, exec: S -> (S, Result<Fields, Error>), copy: (S, Mutation) -> S,
                                        hooks: seq<Option<Wrapper<Mutator<S>>>>)
    requires !AnyNil(hooks) && own.ofComponents && copy(s, own) == s
    requires forall k, next: Mutator<S> | 0 <= k < |hooks| :: hooks[k].value(next) == next
    ensures Hooked(s, own, exec, copy, hooks) == exec(s)
  {
    FoldPasses(Wrappers(hooks), Base(exec, copy));
  }

  lemma {:induction false} FoldPasses<S>(hooks: seq<Wrapper<Mutator<S>>>, next: Mutator<S>)
    requires forall k, next: Mutator<S> | 0 <= k < |hooks| :: hooks[k](next) == next
    ensures Fold(hooks, next) == next
  {
    if hooks != [] {
      FoldPasses(hooks[1..], next);
    }
  }

  // ----- the order in which hooks run -----

  // A hook that notes when it is entered and when it is left.
  function Noting(k: nat): Wrapper<Mutator<seq<Event>>> {
    (next: Mutator<seq<Event>>) =>
      (s: seq<Event>, m: Mutation) =>
        var (r, o) := next(s + [Enter(0, k)], m);
        (r + [Exit(0, k)], o)
  }

  function NotingFrom(k: nat, n: nat): (hooks: seq<Wrapper<Mutator<seq<Event>>>>)
    requires k <= n
    ensures |hooks| == n - k
    decreases n - k
  {
    if k == n then [] else [Noting(k)] + NotingFrom(k + 1, n)
  }

  function Entries(k: nat, n: nat): seq<Event>
    requires k <= n
    decreases n - k
  {
    if k == n then [] else [Enter(0, k)] + Entries(k + 1, n)
  }

  function Exits(k: nat, n: nat): seq<Event>
    requires k <= n
    decreases n - k
  {
    if k == n then [] else Exits(k + 1, n) + [Exit(0, k)]
  }

  // The first hook is entered first and left last, whatever the operation does.
  lemma {:induction false} FirstIsOutermost(k: nat, n: nat, next: Mutator<seq<Event>>, s: seq<Event>, m: Mutation)
    requires k <= n
    ensures var (r, o) := Fold(NotingFrom(k, n), next)(s, m);
            var (t, p) := next(s + Entries(k, n), m);
            r == t + Exits(k, n) && o == p
    decreases n - k
  {
    if k == n {
      assert s + [] == s;
    } else {
      assert NotingFrom(k, n)[1..] == NotingFrom(k + 1, n);
      FirstIsOutermost(k + 1, n, next, s + [Enter(0, k)], m);
      assert s + [Enter(0, k)] + Entries(k + 1, n) == s + Entries(k, n);
    }
  }

  // ----- interceptors -----

  /** What a querier gives back: the type asked for, or some other. */
  datatype Answer<V> = Expected(value: V) | Unexpected

  type Querier<!S, !Q, V> = (S, Q) -> (S, Result<Answer<V>, Error>)

  function Narrowed<V>(answer: Result<Answer<V>, Error>): Result<V, Error> {
    match answer
    case Err(e) => Err(e)
    case Ok(Expected(v)) => Ok(v)
    case Ok(Unexpected) => Err(UnexpectedNode)
  }

  /** Runs a query inside the interceptors, the first one outermost. */
  method WithInterceptors<S, Q, V>(s: S, q: Q, querier: Querier<S, Q, V>, inters: seq<Wrapper<Querier<S, Q, V>>>)
    returns (r: S, result: Result<V, Error>)
    ensures var (t, answer) := Fold(inters, querier)(s, q); r == t && result == Narrowed(answer)
    ensures var answer := Fold(inters, querier)(s, q).1;
            && (forall v :: result == Ok(v) <==> answer == Ok(Expected(v)))
            && (answer.Err? ==> result == Err(answer.error))
            && (answer == Ok(Unexpected) ==> result == Err(UnexpectedNode))
  {
    var qr := querier;
    var i := |inters|;
    while i > 0
      invariant 0 <= i <= |inters|
      invariant qr == Fold(inters[i..], querier)
    {
      i := i - 1;
      assert inters[i..][1..] == inters[i + 1..];
      qr := inters[i](qr);
    }
    assert inters[0..] == inters;
    var (t, answer) := qr(s, q);
    return t, Narrowed(answer);
  }

  // ----- saving one component -----

  /** The state of a single save: the mutations, the rows stored, and what was noted, which hooks do not see. */
  datatype Saving = Saving(muts: map<Mutation, Mut>, rows: seq<CreateSpec>, trace: seq<Event>) {
    function At(m: Mutation): Mut {
      if m in muts then muts[m] else Mut(map[], false)
    }

    function Write(m: Mutation, f: Fields): Saving {
      this.(muts := muts[m := At(m).(fields := f)])
    }

    function Log(event: Event): Saving {
      this.(trace := trace + [event])
    }
  }

  type Refusal = (seq<CreateSpec>, CreateSpec) -> Option<StoreError>

  // The insert of one row: the check, the row, and the marks.
  function SqlSave(own: Mutation, refuses: Refusal): Saving -> (Saving, Result<Fields, Error>) {
    (s: Saving) =>
      var f := s.At(own).fields;
      var failure := Check(f);
      if failure.Some? then (s, Err(Invalid(failure.value)))
      else
        match refuses(s.rows, SpecOf(f))
        case Some(ConstraintFailed) => (s, Err(ConstraintError))
        case Some(StoreFailed) => (s, Err(DriverError))
        case None =>
          var node := NodeOf(f);
          var id := if Id in node then node[Id] else UuidC(ZERO_UUID);
          (s.(muts := s.muts[own := Mut(f[Id := id], true)], rows := s.rows + [SpecOf(f)]), Ok(node))
  }

  function CopyOnto(own: Mutation): (Saving, Mutation) -> Saving {
    (s: Saving, m: Mutation) => s.(muts := s.muts[own := s.At(m)])
  }

  // A hook at work between its calls.
  function Act(hook: Hook, next: Mutator<Saving>, s: Saving, m: Mutation, replies: seq<Outcome>): (Saving, Outcome)
    requires hook.Hook? ==> |replies| <= hook.calls
    decreases if hook.Hook? then hook.calls - |replies| else 0
  {
    match Decide(hook, replies, s.At(m).fields)
    case Return(o) => (s, o)
    case Call(f, other) =>
      var (r, o) := next(s.Write(m, f), if other.Some? then other.value else m);
      Act(hook, next, r, m, replies + [o])
  }

  function Interpret(hook: Hook): Option<Wrapper<Mutator<Saving>>> {
    if hook.NilHook? then None
    else Some((next: Mutator<Saving>) => (s: Saving, m: Mutation) => Act(hook, next, s, m, []))
  }

  function InterpretAll(hooks: seq<Hook>): (r: seq<Option<Wrapper<Mutator<Saving>>>>)
    ensures |r| == |hooks| && forall k | 0 <= k < |r| :: r[k] == Interpret(hooks[k])
  {
    seq(|hooks|, k requires 0 <= k < |hooks| => Interpret(hooks[k]))
  }

  // Saving one component, as a function of the state.
  function Saved(s: Saving, own: Mutation, hooks: seq<Hook>, refuses: Refusal, env: Env): (Saving, Result<Fields, Error>) {
    Hooked(s.Write(own, Defaults(s.At(own).fields, env)), own, SqlSave(own, refuses), CopyOnto(own), InterpretAll(hooks))
  }

  // The rows added are those of fields that pass the check.
  ghost predicate OnlyChecked(before: seq<CreateSpec>, rows: seq<CreateSpec>) {
    && before <= rows
    && forall k | |before| <= k < |rows| :: exists f :: rows[k] == SpecOf(f) && Check(f).None?
  }

  lemma {:induction false} ActPreserves(hook: Hook, next: Mutator<Saving>, s: Saving, m: Mutation, replies: seq<Outcome>,
                                        before: seq<CreateSpec>)
    requires hook.Hook? ==> |replies| <= hook.calls
    requires forall t: Saving, n: Mutation :: OnlyChecked(before, t.rows) ==> OnlyChecked(before, next(t, n).0.rows)
    requires OnlyChecked(before, s.rows)
    ensures OnlyChecked(before, Act(hook, next, s, m, replies).0.rows)
    decreases if hook.Hook? then hook.calls - |replies| else 0
  {
    hide OnlyChecked;
    match Decide(hook, replies, s.At(m).fields)
    case Return(_) =>
    case Call(f, other) =>
      var to := if other.Some? then other.value else m;
      var (r, o) := next(s.Write(m, f), to);
      assert s.Write(m, f).rows == s.rows;
      ActPreserves(hook, next, r, m, replies + [o], before);
  }

  lemma {:induction false} FoldPreserves(hooks: seq<Hook>, next: Mutator<Saving>, before: seq<CreateSpec>)
    requires !AnyNil(InterpretAll(hooks))
    requires forall t: Saving, n: Mutation :: OnlyChecked(before, t.rows) ==> OnlyChecked(before, next(t, n).0.rows)
    ensures forall t: Saving, n: Mutation :: OnlyChecked(before, t.rows) ==>
              OnlyChecked(before, Fold(Wrappers(InterpretAll(hooks)), next)(t, n).0.rows)
  {
    hide OnlyChecked, Act;
    if hooks != [] {
      var inner := InterpretAll(hooks[1..]);
      assert forall k | 0 <= k < |inner| :: inner[k] == InterpretAll(hooks)[k + 1];
      FoldPreserves(hooks[1..], next, before);
      assert Wrappers(InterpretAll(hooks))[1..] == Wrappers(inner);
      var rest := Fold(Wrappers(inner), next);
      assert InterpretAll(hooks)[0] == Interpret(hooks[0]);
      forall s: Saving, m: Mutation | OnlyChecked(before, s.rows)
        ensures OnlyChecked(before, Fold(Wrappers(InterpretAll(hooks)), next)(s, m).0.rows)
      {
        ActPreserves(hooks[0], rest, s, m, [], before);
        assert Fold(Wrappers(InterpretAll(hooks)), next)(s, m) == Act(hooks[0], rest, s, m, []);
      }
    }
  }

  lemma BasePreserves(own: Mutation, refuses: Refusal, before: seq<CreateSpec>, s: Saving, m: Mutation)
    requires OnlyChecked(before, s.rows)
    ensures OnlyChecked(before, Base(SqlSave(own, refuses), CopyOnto(own))(s, m).0.rows)
    ensures OnlyChecked(before, SqlSave(own, refuses)(s).0.rows)
  {
    SqlSavePreserves(own, refuses, before, CopyOnto(own)(s, m));
    SqlSavePreserves(own, refuses, before, s);
    hide Check, NodeOf, SpecOf, OnlyChecked, SqlSave;
  }

  lemma SqlSavePreserves(own: Mutation, refuses: Refusal, before: seq<CreateSpec>, s: Saving)
    requires OnlyChecked(before, s.rows)
    ensures OnlyChecked(before, SqlSave(own, refuses)(s).0.rows)
  {
    hide Check, NodeOf, SpecOf;
    var f := s.At(own).fields;
    var rows := s.rows + [SpecOf(f)];
    if Check(f).None? {
      forall k | |before| <= k < |rows| ensures exists g :: rows[k] == SpecOf(g) && Check(g).None? {
        if k < |s.rows| {
          assert rows[k] == s.rows[k];
        }
      }
      assert OnlyChecked(before, rows);
    }
  }

  // Whatever the hooks do, a single save stores no row whose fields did not pass the check: the mutation
  // handed down is copied onto the builder's before the check looks at it.
  lemma SingleSaveChecks(s: Saving, own: Mutation, hooks: seq<Hook>, refuses: Refusal, env: Env)
    ensures OnlyChecked(s.rows, Saved(s, own, hooks, refuses, env).0.rows)
  {
    hide OnlyChecked, Base, SqlSave, CopyOnto, Defaults;
    var s1 := s.Write(own, Defaults(s.At(own).fields, env));
    assert OnlyChecked(s.rows, s1.rows) by { CheckedStart(s.rows); }
    forall t: Saving, n: Mutation | OnlyChecked(s.rows, t.rows)
      ensures OnlyChecked(s.rows, Base(SqlSave(own, refuses), CopyOnto(own))(t, n).0.rows)
    {
      BasePreserves(own, refuses, s.rows, t, n);
    }
    BasePreserves(own, refuses, s.rows, s1, own);
    var all := InterpretAll(hooks);
    if all != [] && !AnyNil(all) {
      FoldPreserves(hooks, Base(SqlSave(own, refuses), CopyOnto(own)), s.rows);
    }
  }

  lemma CheckedStart(rows: seq<CreateSpec>)
    ensures OnlyChecked(rows, rows)
  {
  }

  lemma {:induction false} FoldForwards(s: Saving, own: Mutation, hooks: seq<Hook>, next: Mutator<Saving>)
    requires ForwardsFrom(hooks, 0) && !AnyNil(InterpretAll(hooks)) && own in s.muts
    ensures Fold(Wrappers(InterpretAll(hooks)), next)(s, own) == next(s.Write(own, EditAll(hooks, s.At(own).fields)), own)
    decreases |hooks|
  {
    if hooks == [] {
      assert s.Write(own, s.At(own).fields) == s;
    } else {
      var hook := hooks[0];
      var inner := InterpretAll(hooks[1..]);
      assert forall k | 0 <= k < |inner| :: inner[k] == InterpretAll(hooks)[k + 1];
      assert Wrappers(InterpretAll(hooks))[1..] == Wrappers(inner);
      var f := s.At(own).fields;
      var s1 := s.Write(own, Edit(hook, f));
      assert Forwards(hook) && InterpretAll(hooks)[0] == Interpret(hook);
      assert forall k | 0 <= k < |hooks[1..]| :: hooks[1..][k] == hooks[k + 1];
      FoldForwards(s1, own, hooks[1..], next);
      var rest := Fold(Wrappers(inner), next);
      var (r, o) := rest(s1, own);
      assert [] + [o] == [o];
      assert Act(hook, rest, r, own, [o]) == (r, o);
      assert Act(hook, rest, s, own, []) == (r, o);
      assert s1.Write(own, EditAll(hooks[1..], s1.At(own).fields)) == s.Write(own, EditAll(hooks, f));
    }
  }

  // A hook that reports success without calling, behind hooks that forward: nothing is stored, and the save succeeds
  // exactly when the hook made up an entity.
  lemma SingleStopped(s: Saving, own: Mutation, hooks: seq<Hook>, h: nat, refuses: Refusal, env: Env, reply: Reply)
    requires h < |hooks| && (forall k | 0 <= k < |hooks| :: hooks[k].Hook?) && ForwardsFrom(hooks[..h], 0)
    requires forall f :: Decide(hooks[h], [], f) == Return(Fine(reply))
    ensures var (r, result) := Saved(s, own, hooks, refuses, env);
            && r.rows == s.rows && r.At(own).done == s.At(own).done
            && (result.Ok? <==> reply.Created?)
            && (result.Err? ==> result.error == UnexpectedNode)
  {
    hide Defaults, SqlSave, CopyOnto, Base, EditAll;
    var s1 := s.Write(own, Defaults(s.At(own).fields, env));
    var base := Base(SqlSave(own, refuses), CopyOnto(own));
    assert !AnyNil(InterpretAll(hooks));
    HooksSplit(hooks, h, base);
    var next := Fold(Wrappers(InterpretAll(hooks[h..])), base);
    FoldForwards(s1, own, hooks[..h], next);
    var s2 := s1.Write(own, EditAll(hooks[..h], s1.At(own).fields));
    StopsFirst(s2, own, hooks[h..], base, reply);
  }

  lemma HooksSplit(hooks: seq<Hook>, h: nat, next: Mutator<Saving>)
    requires h <= |hooks| && !AnyNil(InterpretAll(hooks))
    ensures !AnyNil(InterpretAll(hooks[..h])) && !AnyNil(InterpretAll(hooks[h..]))
    ensures Fold(Wrappers(InterpretAll(hooks)), next)
         == Fold(Wrappers(InterpretAll(hooks[..h])), Fold(Wrappers(InterpretAll(hooks[h..])), next))
  {
    hide Interpret;
    var all, first, rest := InterpretAll(hooks), InterpretAll(hooks[..h]), InterpretAll(hooks[h..]);
    assert forall k | 0 <= k < |first| :: first[k] == all[k];
    assert forall k | 0 <= k < |rest| :: rest[k] == all[h + k];
    assert Wrappers(all) == Wrappers(first) + Wrappers(rest);
    FoldConcat(Wrappers(first), Wrappers(rest), next);
  }

  lemma StopsFirst(s: Saving, own: Mutation, hooks: seq<Hook>, next: Mutator<Saving>, reply: Reply)
    requires hooks != [] && !AnyNil(InterpretAll(hooks))
    requires forall f :: Decide(hooks[0], [], f) == Return(Fine(reply))
    ensures Fold(Wrappers(InterpretAll(hooks)), next)(s, own) == (s, Fine(reply))
  {
    var all := InterpretAll(hooks);
    assert all[0] == Interpret(hooks[0]);
    var rest := Fold(Wrappers(all)[1..], next);
    assert Fold(Wrappers(all), next)(s, own) == Act(hooks[0], rest, s, own, []);
  }

  // With hooks that forward, a single save is the insert of the fields after defaults and edits.
  lemma SingleForwards(s: Saving, own: Mutation, hooks: seq<Hook>, refuses: Refusal, env: Env)
    requires ForwardsFrom(hooks, 0) && own.ofComponents
    ensures Saved(s, own, hooks, refuses, env) ==
      SqlSave(own, refuses)(s.Write(own, EditAll(hooks, Defaults(s.At(own).fields, env))))
  {
    hide Defaults, SqlSave, Act;
    var s1 := s.Write(own, Defaults(s.At(own).fields, env));
    var exec := SqlSave(own, refuses);
    if hooks != [] {
      forall k | 0 <= k < |hooks| ensures InterpretAll(hooks)[k].Some? {
        assert Forwards(hooks[k]);
      }
      FoldForwards(s1, own, hooks, Base(exec, CopyOnto(own)));
      var s2 := s1.Write(own, EditAll(hooks, s1.At(own).fields));
      assert CopyOnto(own)(s2, own) == s2;
      assert s2 == s.Write(own, EditAll(hooks, Defaults(s.At(own).fields, env)));
      RoundTripsResult(exec(s2).1);
    }
  }

  lemma RoundTripsResult(result: Result<Fields, Error>)
    ensures Asserted(Reported(result)) == result
  {
  }

  // ----- what a single save stores and reports -----

  // A row for the fields: each column that was set, under its name, and nothing for the others.
  ghost predicate RowFor(row: CreateSpec, f: Fields) {
    forall c | ColumnKind(c) != UnknownK :: CellIn(row, c) == if c in f then Some(f[c]) else None
  }

  // The outcome of inserting the fields of a mutation that the builder holds as its own: the first failing check, or
  // the refusal of the store, with nothing stored and no mark; or exactly one row for them, the entity, and the mutation marked with its id.
  ghost predicate Inserts(s: Saving, own: Mutation, m: Mut, refuses: Refusal, r: Saving, result: Result<Fields, Error>) {
    var f := m.fields;
    if Check(f).Some? then
      result == Err(Invalid(Check(f).value)) && r.rows == s.rows && r.At(own) == m
    else
      var row := if |r.rows| > |s.rows| then r.rows[|s.rows|] else SpecOf(f);
      && RowFor(row, f)
      && match refuses(s.rows, row)
         case Some(ConstraintFailed) =>
           result == Err(ConstraintError) && r.rows == s.rows && r.At(own) == m
         case Some(StoreFailed) =>
           result == Err(DriverError) && r.rows == s.rows && r.At(own) == m
         case None =>
           && result == Ok(NodeOf(f)) && r.rows == s.rows + [row]
           && r.At(own) == Mut(f[Id := if Id in f then f[Id] else UuidC(0)], true)
  }

  lemma InsertedRow(f: Fields)
    ensures RowFor(SpecOf(f), f)
    ensures (if Id in NodeOf(f) then NodeOf(f)[Id] else UuidC(0)) == if Id in f then f[Id] else UuidC(0)
  {
    hide SpecOf, CellIn, ColumnKind, COMPONENT_COLUMNS;
    forall c | ColumnKind(c) != UnknownK ensures CellIn(SpecOf(f), c) == if c in f then Some(f[c]) else None {
      SpecCarries(f, c);
    }
    NodeIs(f, Id);
    ColumnsAre(Id);
    TypedColumns(Id);
  }

  // The innermost mutator inserts the fields of the mutation it is handed, whichever that is, and leaves every other
  // mutation alone. One of another entity is refused.
  lemma InnermostInserts(s: Saving, own: Mutation, m: Mutation, refuses: Refusal)
    ensures var (r, o) := Base(SqlSave(own, refuses), CopyOnto(own))(s, m);
            && (!m.ofComponents ==> r == s && o == Fail(UnexpectedMutation))
            && (m.ofComponents ==> Inserts(s, own, s.At(m), refuses, r, Asserted(o)))
            && forall n | n != own :: r.At(n) == s.At(n)
  {
    hide SqlSave, Inserts;
    var s1 := CopyOnto(own)(s, m);
    assert s1 == s.(muts := s.muts[own := s.At(m)]);
    SqlInserts(s, own, s.At(m), refuses);
    var (r, result) := SqlSave(own, refuses)(s1);
    RoundTripsResult(result);
    assert m.ofComponents ==> Base(SqlSave(own, refuses), CopyOnto(own))(s, m) == (r, Reported(result));
  }

  // With hooks that forward, a single save inserts the fields after defaults and edits.
  lemma SingleInserts(s: Saving, own: Mutation, hooks: seq<Hook>, refuses: Refusal, env: Env)
    requires ForwardsFrom(hooks, 0) && own.ofComponents
    ensures var f := EditAll(hooks, Defaults(s.At(own).fields, env));
            var (r, result) := Saved(s, own, hooks, refuses, env);
            Inserts(s, own, s.At(own).(fields := f), refuses, r, result) && forall n | n != own :: r.At(n) == s.At(n)
  {
    hide Defaults, SqlSave, EditAll, Saved, Inserts;
    SingleForwards(s, own, hooks, refuses, env);
    var f := EditAll(hooks, Defaults(s.At(own).fields, env));
    SqlInserts(s, own, s.At(own).(fields := f), refuses);
  }

  lemma SqlInserts(s: Saving, own: Mutation, m: Mut, refuses: Refusal)
    ensures var (r, result) := SqlSave(own, refuses)(s.(muts := s.muts[own := m]));
            Inserts(s, own, m, refuses, r, result) && forall n | n != own :: r.At(n) == s.At(n)
  {
    hide Check, NodeOf, SpecOf;
    InsertedRow(m.fields);
    var s1 := s.(muts := s.muts[own := m]);
    assert s1.At(own) == m && s1.rows == s.rows;
    var (r, result) := SqlSave(own, refuses)(s1);
    if Check(m.fields).None? && refuses(s.rows, SpecOf(m.fields)).None? {
      assert r.rows[|s.rows|] == SpecOf(m.fields);
    }
  }

  // A hook that hands down another mutation and returns the reply: the save inserts that mutation's fields.
  lemma SingleHanded(s: Saving, own: Mutation, hook: Hook, other: Mutation, refuses: Refusal, env: Env)
    requires hook.Hook? && hook.calls > 0 && other.ofComponents
    requires (forall f :: hook.decide([], f) == Call(f, Some(other))) && forall o, f :: Decide(hook, [o], f) == Return(o)
    ensures var s1 := s.Write(own, Defaults(s.At(own).fields, env));
            var (r, result) := Saved(s, own, [hook], refuses, env);
            Inserts(s1, own, s1.At(other), refuses, r, result)
  {
    hide Defaults, SqlSave, Inserts, Base, CopyOnto;
    var s1 := s.Write(own, Defaults(s.At(own).fields, env));
    var base := Base(SqlSave(own, refuses), CopyOnto(own));
    assert s1.Write(own, s1.At(own).fields) == s1;
    OneHook(s1, own, hook, base);
    InnermostInserts(s1, own, other, refuses);
    var (r, o) := base(s1, other);
    assert [] + [o] == [o];
    assert Act(hook, base, r, own, [o]) == (r, o);
  }

  lemma OneHook(s: Saving, own: Mutation, hook: Hook, next: Mutator<Saving>)
    requires hook.Hook?
    ensures !AnyNil(InterpretAll([hook]))
    ensures Fold(Wrappers(InterpretAll([hook])), next)(s, own) == Act(hook, next, s, own, [])
  {
    hide Act;
    var all := InterpretAll([hook]);
    assert all[0] == Interpret(hook) && Wrappers(all)[1..] == [];
    assert Fold(Wrappers(all), next) == Wrappers(all)[0](next);
  }

  // A hook that calls twice runs the operation twice, the second time on what the first left, and its answer to both
  // replies is the outcome.
  lemma CalledTwice(s: Saving, own: Mutation, hook: Hook, next: Mutator<Saving>)
    requires hook.Hook? && hook.calls == 2
    requires forall replies, f :: |replies| < 2 ==> hook.decide(replies, f) == Call(f, None)
    ensures var (r, o) := next(s.Write(own, s.At(own).fields), own);
            var (t, p) := next(r.Write(own, r.At(own).fields), own);
            Fold(Wrappers(InterpretAll([hook])), next)(s, own) == (t, hook.answer([o, p], t.At(own).fields))
  {
    OneHook(s, own, hook, next);
    var (r, o) := next(s.Write(own, s.At(own).fields), own);
    var (t, p) := next(r.Write(own, r.At(own).fields), own);
    assert [] + [o] == [o] && [o] + [p] == [o, p];
    assert Act(hook, next, t, own, [o, p]) == (t, hook.answer([o, p], t.At(own).fields));
    assert Act(hook, next, r, own, [o]) == Act(hook, next, t, own, [o, p]);
  }

  // ----- nesting, for every kind of hook -----

  // The same hook, with a note of when it is entered and left.
  function Noted(k: nat, w: Wrapper<Mutator<Saving>>): Wrapper<Mutator<Saving>> {
    (next: Mutator<Saving>) =>
      (s: Saving, m: Mutation) =>
        var (r, o) := w(next)(s.Log(Enter(0, k)), m);
        (r.Log(Exit(0, k)), o)
  }

  // The hooks from k on.
  function NotedFrom(k: nat, hooks: seq<Wrapper<Mutator<Saving>>>): (r: seq<Wrapper<Mutator<Saving>>>)
    ensures |r| == |hooks|
    decreases |hooks|
  {
    if hooks == [] then [] else [Noted(k, hooks[0])] + NotedFrom(k + 1, hooks[1..])
  }

  // The insert, with a note of when it runs.
  function NotedSave(own: Mutation, refuses: Refusal): Saving -> (Saving, Result<Fields, Error>) {
    (s: Saving) => SqlSave(own, refuses)(s.Log(Checked(0)))
  }

  // How many of n hooks are open after an event, or None when it is out of place: hook k is entered when those
  // before it are open, the innermost open hook is left, and the insert runs when all are open.
  function OpenAfterOne(n: nat, open: nat, event: Event): Option<nat> {
    match event
    case Enter(_, k) => if k == open < n then Some(open + 1) else None
    case Exit(_, k) => if k + 1 == open then Some(k) else None
    case Checked(_) => if open == n then Some(n) else None
    case Batched => None
  }

  function HooksOpen(n: nat, trace: seq<Event>): Option<nat> {
    if trace == [] then Some(0)
    else
      var before := HooksOpen(n, trace[..|trace| - 1]);
      if before.None? then None else OpenAfterOne(n, before.value, trace[|trace| - 1])
  }

  lemma OpenLogged(n: nat, s: Saving, event: Event)
    requires HooksOpen(n, s.trace).Some?
    ensures HooksOpen(n, s.Log(event).trace) == OpenAfterOne(n, HooksOpen(n, s.trace).value, event)
  {
    assert s.Log(event).trace[..|s.trace|] == s.trace;
  }

  lemma {:induction false} ActNests(n: nat, open: nat, hook: Hook, next: Mutator<Saving>, s: Saving, m: Mutation,
                                    replies: seq<Outcome>)
    requires hook.Hook? ==> |replies| <= hook.calls
    requires forall t: Saving, p: Mutation :: HooksOpen(n, t.trace) == Some(open) ==> HooksOpen(n, next(t, p).0.trace) == Some(open)
    requires HooksOpen(n, s.trace) == Some(open)
    ensures HooksOpen(n, Act(hook, next, s, m, replies).0.trace) == Some(open)
    decreases if hook.Hook? then hook.calls - |replies| else 0
  {
    hide HooksOpen;
    match Decide(hook, replies, s.At(m).fields)
    case Return(_) =>
    case Call(f, other) =>
      var to := if other.Some? then other.value else m;
      var (r, o) := next(s.Write(m, f), to);
      assert s.Write(m, f).trace == s.trace;
      ActNests(n, open, hook, next, r, m, replies + [o]);
  }

  // From hook k on, whatever the hooks do and however often they call.
  lemma {:induction false} FoldNests(n: nat, k: nat, hooks: seq<Hook>, next: Mutator<Saving>)
    requires !AnyNil(InterpretAll(hooks)) && n == k + |hooks|
    requires forall t: Saving, p: Mutation :: HooksOpen(n, t.trace) == Some(n) ==> HooksOpen(n, next(t, p).0.trace) == Some(n)
    ensures forall t: Saving, p: Mutation ::
              HooksOpen(n, t.trace) == Some(k) ==>
                HooksOpen(n, Fold(NotedFrom(k, Wrappers(InterpretAll(hooks))), next)(t, p).0.trace) == Some(k)
    decreases |hooks|
  {
    hide HooksOpen, Act;
    if hooks != [] {
      var inner := InterpretAll(hooks[1..]);
      assert forall j | 0 <= j < |inner| :: inner[j] == InterpretAll(hooks)[j + 1];
      assert Wrappers(InterpretAll(hooks))[1..] == Wrappers(inner);
      FoldNests(n, k + 1, hooks[1..], next);
      var rest := Fold(NotedFrom(k + 1, Wrappers(inner)), next);
      assert InterpretAll(hooks)[0] == Interpret(hooks[0]);
      assert hooks[0].Hook?;
      forall s: Saving, m: Mutation | HooksOpen(n, s.trace) == Some(k)
        ensures HooksOpen(n, Fold(NotedFrom(k, Wrappers(InterpretAll(hooks))), next)(s, m).0.trace) == Some(k)
      {
        NotedNests(n, k, hooks[0], rest, s, m);
        assert Fold(NotedFrom(k, Wrappers(InterpretAll(hooks))), next)(s, m) == Noted(k, Interpret(hooks[0]).value)(rest)(s, m);
      }
    }
  }

  lemma NotedNests(n: nat, k: nat, hook: Hook, rest: Mutator<Saving>, s: Saving, m: Mutation)
    requires hook.Hook? && k < n && HooksOpen(n, s.trace) == Some(k)
    requires forall t: Saving, p: Mutation ::
               HooksOpen(n, t.trace) == Some(k + 1) ==> HooksOpen(n, rest(t, p).0.trace) == Some(k + 1)
    ensures HooksOpen(n, Noted(k, Interpret(hook).value)(rest)(s, m).0.trace) == Some(k)
  {
    hide HooksOpen, Act;
    var s1 := s.Log(Enter(0, k));
    OpenLogged(n, s, Enter(0, k));
    ActNests(n, k + 1, hook, rest, s1, m, []);
    OpenLogged(n, Act(hook, rest, s1, m, []).0, Exit(0, k));
  }

  // Whatever the hooks of a single save do, each is entered inside those before it and left before them, the insert
  // runs inside all, and every hook entered is left.
  lemma SingleNested(s: Saving, own: Mutation, hooks: seq<Hook>, refuses: Refusal)
    requires !AnyNil(InterpretAll(hooks)) && s.trace == []
    ensures var all := NotedFrom(0, Wrappers(InterpretAll(hooks)));
            HooksOpen(|hooks|, Fold(all, Base(NotedSave(own, refuses), CopyOnto(own)))(s, own).0.trace) == Some(0)
  {
    hide HooksOpen, NotedSave, CopyOnto, Base, Noted;
    var n, base := |hooks|, Base(NotedSave(own, refuses), CopyOnto(own));
    forall t: Saving, p: Mutation | HooksOpen(n, t.trace) == Some(n) ensures HooksOpen(n, base(t, p).0.trace) == Some(n) {
      NotedSaveNests(n, own, refuses, t, p);
    }
    NothingOpen(n);
    FoldNests(n, 0, hooks, base);
  }

  lemma NothingOpen(n: nat)
    ensures HooksOpen(n, []) == Some(0)
  {
  }

  lemma NotedSaveNests(n: nat, own: Mutation, refuses: Refusal, t: Saving, p: Mutation)
    requires HooksOpen(n, t.trace) == Some(n)
    ensures HooksOpen(n, Base(NotedSave(own, refuses), CopyOnto(own))(t, p).0.trace) == Some(n)
  {
    hide HooksOpen, SqlSave;
    var s1 := CopyOnto(own)(t, p);
    OpenLogged(n, s1, Checked(0));
    SqlSaveTrace(own, refuses, s1.Log(Checked(0)));
  }

  lemma SqlSaveTrace(own: Mutation, refuses: Refusal, s: Saving)
    ensures SqlSave(own, refuses)(s).0.trace == s.trace
  {
    hide Check, NodeOf, SpecOf;
  }

  /** Saves one component: defaults, then the insert inside the hooks. */
  method Save(s: Saving, own: Mutation, hooks: seq<Hook>, refuses: Refusal, env: Env)
    returns (r: Saving, result: Result<Fields, Error>)
    ensures (r, result) == Saved(s, own, hooks, refuses, env)
  {
    r := s.Write(own, Defaults(s.At(own).fields, env));
    r, result := WithHooks(r, own, SqlSave(own, refuses), CopyOnto(own), InterpretAll(hooks));
  }
}
