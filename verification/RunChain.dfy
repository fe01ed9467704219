/** The bulk upsert inside its hooks: how late UpdateNewValues has to look for no hook to be able to make it
  * overwrite an immutable column. */
module RunChains {
  import opened Schema
  import opened Upserts
  import opened UpsertLaws
  import opened RunBuilders

  // The mutations a save works on, by name.
  type Name = nat

  datatype Outcome = Fine | Failed

  /** What a hook does next. It may write to any mutation it can reach, and hands down any of them. */
  datatype Move = Return(writes: map<Name, Row>, outcome: Outcome) | Call(writes: map<Name, Row>, handed: Name)

  /** A hook decides from the outcomes of its calls so far and from what the mutations hold, and calls a bounded
    * number of times. */
  datatype Hook = Hook(
    calls: nat,
    decide: (seq<Outcome>, map<Name, Row>, Name) -> Move,
    answer: (seq<Outcome>, map<Name, Row>, Name) -> (map<Name, Row>, Outcome))

  function Decide(hook: Hook, replies: seq<Outcome>, muts: map<Name, Row>, m: Name): Move {
    if |replies| < hook.calls then hook.decide(replies, muts, m)
    else var (writes, outcome) := hook.answer(replies, muts, m); Return(writes, outcome)
  }

  /** What the mutations hold, the mutation of each builder, the specifications filled so far, and the table. */
  datatype State = State(muts: map<Name, Row>, current: seq<Name>, specs: seq<Option<Row>>, table: seq<Row>) {
    function At(m: Name): Row {
      if m in muts then muts[m] else map[]
    }

    function Write(writes: map<Name, Row>): State {
      this.(muts := muts + writes)
    }
  }

  /** What does not change during a save. */
  datatype Bulk = Bulk(
    hooks: seq<seq<Hook>>,
    options: seq<ConflictOption>,
    isRun: Name -> bool,                       // false of a mutation of another entity
    refuses: (seq<Row>, seq<Row>) -> bool)     // whether the store turns a batch down for another reason

  // The specifications of the builders before i are filled.
  ghost predicate Ready(b: Bulk, s: State, i: nat) {
    && |s.current| == |s.specs| == |b.hooks| && i <= |b.hooks|
    && (forall j | 0 <= j < i :: s.specs[j].Some?)
    && IsTable(s.table)
  }

  ghost function Specs(b: Bulk, s: State): (fs: seq<Row>)
    requires Ready(b, s, |b.hooks|)
    ensures |fs| == |b.hooks| && forall j | 0 <= j < |fs| :: s.specs[j] == Some(fs[j])
  {
    seq(|b.hooks|, j requires 0 <= j < |b.hooks| => s.specs[j].value)
  }

  // What the function that UpdateNewValues added looks at, when the statement is built.
  function Seeing(s: State): (fs: seq<Row>)
    ensures |fs| == |s.current| && forall j | 0 <= j < |fs| :: fs[j] == s.At(s.current[j])
  {
    seq(|s.current|, j requires 0 <= j < |s.current| => s.At(s.current[j]))
  }

  // The batch: one statement over all specifications, or nothing.
  ghost function BatchCreate(b: Bulk, s: State): (r: (State, Outcome))
    requires Ready(b, s, |b.hooks|)
    ensures Ready(b, r.0, |b.hooks|)
  {
    hide StatementSeeing, AllProposed;
    var after := StatementSeeing(s.table, Specs(b, s), Seeing(s), b.options);
    if b.refuses(s.table, AllProposed(Specs(b, s))) || after.None? then (s, Failed)
    else (s.(table := after.value), Fine)
  }

  function Adopt(s: State, i: nat, m: Name): State
    requires i < |s.current| == |s.specs|
  {
    s.(current := s.current[i := m], specs := s.specs[i := Some(s.At(m))])
  }

  // The mutation handed down gets the id of the node.
  function Commit(s: State, i: nat, m: Name): State
    requires i < |s.specs|
  {
    var id := if s.specs[i].Some? && Id in s.specs[i].value then s.specs[i].value[Id] else UuidV(ZERO_UUID);
    s.Write(map[m := s.At(m)[Id := id]])
  }

  /** The mutator of builder i from its hook h inwards. */
  ghost function Mutate(b: Bulk, s: State, i: nat, h: nat, m: Name): (r: (State, Outcome))
    requires Ready(b, s, i) && i < |b.hooks| && h <= |b.hooks[i]|
    ensures Ready(b, r.0, i)
    decreases |b.hooks| - i, |b.hooks[i]| - h
  {
    if h == |b.hooks[i]| then Innermost(b, s, i, m) else Perform(b, s, i, h, m, [])
  }

  ghost function Perform(b: Bulk, s: State, i: nat, h: nat, m: Name, replies: seq<Outcome>): (r: (State, Outcome))
    requires Ready(b, s, i) && i < |b.hooks| && h < |b.hooks[i]| && |replies| <= b.hooks[i][h].calls
    ensures Ready(b, r.0, i)
    decreases |b.hooks| - i, |b.hooks[i]| - h, b.hooks[i][h].calls - |replies|
  {
    match Decide(b.hooks[i][h], replies, s.muts, m)
    case Return(writes, o) => (s.Write(writes), o)
    case Call(writes, handed) =>
      var (s1, o) := Mutate(b, s.Write(writes), i, h + 1, handed);
      Perform(b, s1, i, h, m, replies + [o])
  }

  // The check looks at the builder's mutation; the specification is made from the one handed down.
  ghost function Innermost(b: Bulk, s: State, i: nat, m: Name): (r: (State, Outcome))
    requires Ready(b, s, i) && i < |b.hooks|
    ensures Ready(b, r.0, i)
    decreases |b.hooks| - i, 0, 0
  {
    hide RunCheck;
    if !b.isRun(m) || RunCheck(s.At(s.current[i])).Some? then (s, Failed)
    else
      var s1 := Adopt(s, i, m);
      var (s2, o) := if i < |b.hooks| - 1 then Mutate(b, s1, i + 1, 0, s1.current[i + 1]) else BatchCreate(b, s1);
      if o.Failed? then (s2, o) else (Commit(s2, i, m), Fine)
  }

  // ----- what no hook can undo -----

  // The specification filled last is made from the mutation that the function then sees.
  ghost predicate LastSeen(fs: seq<Row>, seen: seq<Row>) {
    |seen| == |fs| > 0 && seen[|fs| - 1] == fs[|fs| - 1]
  }

  // Whatever the other mutations hold by then: a statement that is not refused has each immutable column in every
  // specification or in none, so that the last mutation alone makes the function keep them all.
  lemma LastKeeps(table: seq<Row>, fs: seq<Row>, seen: seq<Row>, options: seq<ConflictOption>)
    requires IsTable(table) && LastSeen(fs, seen) && Resolutions(options) == NEW_VALUES
    requires StatementSeeing(table, fs, seen, options).Some?
    ensures KeepsImmutable(Updates(options, Inserted(fs), seen))
  {
    hide Updates, NEW_VALUES, KeepsImmutable, Resolutions, StatementSeeing, Inserted, Seen;
    UpdatesOfResolutions(options, Inserted(fs), seen);
    KeptExactly(Inserted(fs), seen);
    forall c | Immutable(c) && c in Inserted(fs) ensures Seen(seen, c) {
      AcceptedHas(table, fs, seen, options, c);
      SeenAt(seen, |fs| - 1, c);
    }
  }

  lemma SeenAt(seen: seq<Row>, k: nat, c: Column)
    requires k < |seen| && c in seen[k]
    ensures Seen(seen, c)
  {
  }

  lemma AcceptedHas(table: seq<Row>, fs: seq<Row>, seen: seq<Row>, options: seq<ConflictOption>, c: Column)
    requires IsTable(table) && fs != [] && Immutable(c) && c in Inserted(fs)
    requires StatementSeeing(table, fs, seen, options).Some?
    ensures c in fs[|fs| - 1]
  {
    hide Updates, Inserted, UpsertRows, RUN_COLUMNS;
    ImmutableColumns();
    var k := |fs| - 1;
    if c !in fs[k] {
      assert AllProposed(fs)[k][c] == Null && !Fits(c, Null);
      RefusedRows(table, AllProposed(fs), k, TargetOf(options), Updates(options, Inserted(fs), seen));
      assert false;
    }
  }

  lemma BatchContinues(b: Bulk, s: State)
    requires Ready(b, s, |b.hooks|) && |b.hooks| > 0 && s.specs[|b.hooks| - 1] == Some(s.At(s.current[|b.hooks| - 1]))
    requires Resolutions(b.options) == NEW_VALUES
    ensures Continues(s.table, BatchCreate(b, s).0.table)
  {
    hide Updates, NEW_VALUES, KeepsImmutable, Resolutions, UpsertRows, Inserted, Continues, IsTable;
    StaysItself(s.table);
    var fs, seen := Specs(b, s), Seeing(s);
    if StatementSeeing(s.table, fs, seen, b.options).Some? {
      LastKeeps(s.table, fs, seen, b.options);
      UpsertContinues(s.table, AllProposed(fs), TargetOf(b.options), Updates(b.options, Inserted(fs), seen));
    }
  }

  // Whatever the hooks do, and however often the batch is reached, every stored row stays, with its immutable
  // columns, and ids stay unique.
  lemma {:induction false} HooksKeep(b: Bulk, s: State, i: nat, h: nat, m: Name)
    requires Ready(b, s, i) && i < |b.hooks| && h <= |b.hooks[i]| && Resolutions(b.options) == NEW_VALUES
    ensures Continues(s.table, Mutate(b, s, i, h, m).0.table)
    decreases |b.hooks| - i, |b.hooks[i]| - h
  {
    hide Perform, Innermost, Continues, Resolutions, NEW_VALUES, IsTable;
    if h == |b.hooks[i]| {
      InnermostKeeps(b, s, i, m);
    } else {
      PerformKeeps(b, s, i, h, m, []);
    }
  }

  lemma {:induction false} PerformKeeps(b: Bulk, s: State, i: nat, h: nat, m: Name, replies: seq<Outcome>)
    requires Ready(b, s, i) && i < |b.hooks| && h < |b.hooks[i]| && |replies| <= b.hooks[i][h].calls
    requires Resolutions(b.options) == NEW_VALUES
    ensures Continues(s.table, Perform(b, s, i, h, m, replies).0.table)
    decreases |b.hooks| - i, |b.hooks[i]| - h, b.hooks[i][h].calls - |replies|
  {
    hide Mutate, Continues, Resolutions, NEW_VALUES, IsTable;
    match Decide(b.hooks[i][h], replies, s.muts, m) {
      case Return(_, _) => StaysItself(s.table);
      case Call(writes, handed) =>
        HooksKeep(b, s.Write(writes), i, h + 1, handed);
        var r := Mutate(b, s.Write(writes), i, h + 1, handed);
        PerformKeeps(b, r.0, i, h, m, replies + [r.1]);
        ContinuesOn(s.table, r.0.table, Perform(b, r.0, i, h, m, replies + [r.1]).0.table);
    }
  }

  lemma {:induction false} InnermostKeeps(b: Bulk, s: State, i: nat, m: Name)
    requires Ready(b, s, i) && i < |b.hooks| && Resolutions(b.options) == NEW_VALUES
    ensures Continues(s.table, Innermost(b, s, i, m).0.table)
    decreases |b.hooks| - i, 0, 0
  {
    hide Mutate, BatchCreate, Continues, Resolutions, NEW_VALUES, IsTable, RunCheck;
    StaysItself(s.table);
    if b.isRun(m) && RunCheck(s.At(s.current[i])).None? {
      var s1 := Adopt(s, i, m);
      if i < |b.hooks| - 1 {
        HooksKeep(b, s1, i + 1, 0, s1.current[i + 1]);
      } else {
        BatchContinues(b, s1);
      }
    }
  }

  // ----- hooks that forward, and hooks that call twice -----

  // A hook that writes, calls once with the mutation it was given, and returns the outcome.
  ghost predicate Forwards(hook: Hook) {
    && hook.calls > 0
    && (forall muts, m :: var move := hook.decide([], muts, m); move.Call? && move.handed == m)
    && (forall o, muts, m :: Decide(hook, [o], muts, m) == Return(map[], o))
  }

  // The mutations after the hooks of builder i from h on have written.
  function Entered(b: Bulk, s: State, i: nat, h: nat, m: Name): State
    requires i < |b.hooks| && h <= |b.hooks[i]|
    decreases |b.hooks[i]| - h
  {
    if h == |b.hooks[i]| then s
    else
      var move := Decide(b.hooks[i][h], [], s.muts, m);
      Entered(b, s.Write(move.writes), i, h + 1, m)
  }

  lemma {:induction false} EnteredReady(b: Bulk, s: State, i: nat, h: nat, m: Name)
    requires Ready(b, s, i) && i < |b.hooks| && h <= |b.hooks[i]|
    ensures Ready(b, Entered(b, s, i, h, m), i)
    decreases |b.hooks[i]| - h
  {
    hide IsTable;
    if h < |b.hooks[i]| {
      EnteredReady(b, s.Write(Decide(b.hooks[i][h], [], s.muts, m).writes), i, h + 1, m);
    }
  }

  // Around the innermost mutator, forwarding hooks write one after the other and do nothing else.
  lemma {:induction false} HooksForward(b: Bulk, s: State, i: nat, h: nat, m: Name)
    requires Ready(b, s, i) && i < |b.hooks| && h <= |b.hooks[i]| && forall k | h <= k < |b.hooks[i]| :: Forwards(b.hooks[i][k])
    ensures Ready(b, Entered(b, s, i, h, m), i)
    ensures Mutate(b, s, i, h, m) == Innermost(b, Entered(b, s, i, h, m), i, m)
    decreases |b.hooks[i]| - h
  {
    hide Innermost, IsTable;
    EnteredReady(b, s, i, h, m);
    if h < |b.hooks[i]| {
      var hook := b.hooks[i][h];
      assert Forwards(hook);
      var s1 := s.Write(Decide(hook, [], s.muts, m).writes);
      HooksForward(b, s1, i, h + 1, m);
      var (r, o) := Mutate(b, s1, i, h + 1, m);
      assert [] + [o] == [o] && r.Write(map[]) == r;
      assert Perform(b, r, i, h, m, [o]) == (r, o);
    }
  }

  // A hook that calls twice runs everything inside it twice, the second time on what the first left; then it writes
  // and answers, knowing both outcomes.
  lemma CalledTwice(b: Bulk, s: State, i: nat, h: nat, m: Name)
    requires Ready(b, s, i) && i < |b.hooks| && h < |b.hooks[i]| && b.hooks[i][h].calls == 2
    requires forall replies, muts, n :: |replies| < 2 ==> b.hooks[i][h].decide(replies, muts, n) == Call(map[], n)
    ensures var (r, o) := Mutate(b, s, i, h + 1, m);
            var (t, p) := Mutate(b, r, i, h + 1, m);
            var (writes, outcome) := b.hooks[i][h].answer([o, p], t.muts, m);
            Mutate(b, s, i, h, m) == (t.Write(writes), outcome)
  {
    hide Innermost, IsTable;
    assert s.Write(map[]) == s;
    var (r, o) := Mutate(b, s, i, h + 1, m);
    assert r.Write(map[]) == r;
    var (t, p) := Mutate(b, r, i, h + 1, m);
    var (writes, outcome) := b.hooks[i][h].answer([o, p], t.muts, m);
    assert [] + [o] == [o] && [o] + [p] == [o, p];
    assert Perform(b, t, i, h, m, [o, p]) == (t.Write(writes), outcome);
    assert Perform(b, r, i, h, m, [o]) == Perform(b, t, i, h, m, [o, p]);
    assert Perform(b, s, i, h, m, []) == Perform(b, r, i, h, m, [o]);
  }

  // Inside the hooks: the builder's own mutation is checked, the row is made from the one handed down, and the builder
  // holds that one from then on; after a success it has the id of its row.
  lemma InnermostIs(b: Bulk, s: State, i: nat, m: Name)
    requires Ready(b, s, i) && i < |b.hooks|
    ensures var (r, o) := Innermost(b, s, i, m);
            if !b.isRun(m) || RunCheck(s.At(s.current[i])).Some? then r == s && o == Failed
            else
              var s1 := s.(current := s.current[i := m], specs := s.specs[i := Some(s.At(m))]);
              && Ready(b, s1, i + 1)
              && var (t, p) := if i < |b.hooks| - 1 then Mutate(b, s1, i + 1, 0, s1.current[i + 1]) else BatchCreate(b, s1);
                 && o == p
                 && if p.Failed? then r == t
                    else
                      && r.table == t.table && (forall n | n != m :: r.At(n) == t.At(n))
                      && (t.specs[i].Some? && Id in t.specs[i].value ==> r.At(m) == t.At(m)[Id := t.specs[i].value[Id]])
  {
    hide RunCheck, Mutate, BatchCreate, IsTable, Commit, State.At;
    if b.isRun(m) && RunCheck(s.At(s.current[i])).None? {
      var s1 := Adopt(s, i, m);
      var t := (if i < |b.hooks| - 1 then Mutate(b, s1, i + 1, 0, s1.current[i + 1]) else BatchCreate(b, s1)).0;
      CommitIs(t, i, m);
    }
  }

  lemma CommitIs(s: State, i: nat, m: Name)
    requires i < |s.specs|
    ensures var r := Commit(s, i, m);
            && r.table == s.table && (forall n | n != m :: r.At(n) == s.At(n))
            && (s.specs[i].Some? && Id in s.specs[i].value ==> r.At(m) == s.At(m)[Id := s.specs[i].value[Id]])
  {
  }

  // The batch succeeds, and leaves a table, exactly when the store takes it and that table is the one in which every
  // specification has its place, with the options looking at what the mutations then hold; a batch that fails
  // leaves everything.
  lemma BatchStores(b: Bulk, s: State, after: seq<Row>)
    requires Ready(b, s, |b.hooks|)
    ensures BatchCreate(b, s) == (s.(table := after), Fine) <==>
              !b.refuses(s.table, AllProposed(Specs(b, s))) && Upserted(s.table, Specs(b, s), Seeing(s), after, b.options)
    ensures BatchCreate(b, s).1.Failed? ==> BatchCreate(b, s).0 == s
  {
    hide StatementSeeing, AllProposed, Specs, Upserted, IsTable;
    StatementUpserts(s.table, Specs(b, s), Seeing(s), after, b.options);
  }

  // ----- without hooks -----

  ghost predicate Plain(b: Bulk, s: State) {
    |s.current| == |b.hooks| && forall j | 0 <= j < |b.hooks| :: b.hooks[j] == [] && b.isRun(s.current[j])
  }

  // What a save of builders without hooks does, from builder i on: the remaining checks in order, and then the
  // statement over what the mutations hold.
  ghost predicate SavedFrom(b: Bulk, s: State, i: nat, r: (State, Outcome))
    requires IsTable(s.table) && i <= |s.current|
  {
    var fs := Seeing(s);
    var after := Statement(s.table, fs, b.options);
    var stored := FirstFailure(fs[i..]).None? && !b.refuses(s.table, AllProposed(fs)) && after.Some?;
    (r.1.Fine? <==> stored) && r.0.table == if stored then after.value else s.table
  }

  lemma {:induction false} NoHooks(b: Bulk, s: State, i: nat)
    requires Ready(b, s, i) && i < |b.hooks| && Plain(b, s)
    requires forall j | 0 <= j < i :: s.specs[j] == Some(s.At(s.current[j]))
    ensures SavedFrom(b, s, i, Mutate(b, s, i, 0, s.current[i]))
    decreases |b.hooks| - i
  {
    hide RunCheck, BatchCreate, Statement, AllProposed, Mutate, Specs, State.At, SavedFrom, FirstFailure;
    PlainStep(b, s, i);
    var s1 := Adopt(s, i, s.current[i]);
    AdoptSame(s, i);
    if RunCheck(s.At(s.current[i])).None? {
      if i < |b.hooks| - 1 {
        NoHooks(b, s1, i + 1);
        SavedBefore(b, s, s1, i, Mutate(b, s1, i + 1, 0, s1.current[i + 1]), Mutate(b, s, i, 0, s.current[i]));
      } else {
        assert Specs(b, s1) == Seeing(s1);
        BatchIs(b, s1);
        SavedBefore(b, s, s1, i, BatchCreate(b, s1), Mutate(b, s, i, 0, s.current[i]));
      }
    } else {
      RefusedHere(b, s, i, Mutate(b, s, i, 0, s.current[i]));
    }
  }

  lemma AdoptSame(s: State, i: nat)
    requires i < |s.current| == |s.specs|
    ensures var s1 := Adopt(s, i, s.current[i]);
            && s1.current == s.current && Seeing(s1) == Seeing(s) && s1.table == s.table && s1.muts == s.muts
            && forall m :: s1.At(m) == s.At(m)
  {
    assert Adopt(s, i, s.current[i]).current == s.current;
  }

  // What follows builder i, once its check has passed.
  lemma SavedBefore(b: Bulk, s: State, s1: State, i: nat, next: (State, Outcome), r: (State, Outcome))
    requires IsTable(s.table) && i < |s.current| == |s1.current| && s1.table == s.table && Seeing(s1) == Seeing(s)
    requires RunCheck(s.At(s.current[i])).None? && SavedFrom(b, s1, i + 1, next)
    requires (r.1.Fine? <==> next.1.Fine?) && r.0.table == next.0.table
    ensures SavedFrom(b, s, i, r)
  {
    hide RunCheck, Statement, AllProposed, State.At;
    var fs := Seeing(s);
    assert fs[i..][0] == s.At(s.current[i]) && fs[i..][1..] == fs[i + 1..];
  }

  lemma RefusedHere(b: Bulk, s: State, i: nat, r: (State, Outcome))
    requires IsTable(s.table) && i < |s.current| && RunCheck(s.At(s.current[i])).Some?
    requires r.1.Failed? && r.0.table == s.table
    ensures SavedFrom(b, s, i, r)
  {
    hide RunCheck, Statement, AllProposed, State.At;
    assert Seeing(s)[i..][0] == s.At(s.current[i]);
  }

  lemma PlainStep(b: Bulk, s: State, i: nat)
    requires Ready(b, s, i) && i < |b.hooks| && Plain(b, s)
    ensures var r, s1 := Mutate(b, s, i, 0, s.current[i]), Adopt(s, i, s.current[i]);
            if RunCheck(s.At(s.current[i])).Some? then r == (s, Failed)
            else
              && Ready(b, s1, i + 1)
              && var next := if i < |b.hooks| - 1 then Mutate(b, s1, i + 1, 0, s1.current[i + 1]) else BatchCreate(b, s1);
                 (r.1.Fine? <==> next.1.Fine?) && r.0.table == next.0.table
  {
    hide RunCheck, BatchCreate, State.At, IsTable;
    assert b.hooks[i] == [] && b.isRun(s.current[i]);
    NoHookLeft(b, s, i, s.current[i]);
    hide Mutate;
  }

  lemma NoHookLeft(b: Bulk, s: State, i: nat, m: Name)
    requires Ready(b, s, i) && i < |b.hooks| && b.hooks[i] == []
    ensures Mutate(b, s, i, 0, m) == Innermost(b, s, i, m)
  {
    hide Innermost;
  }

  lemma BatchIs(b: Bulk, s: State)
    requires Ready(b, s, |b.hooks|) && Specs(b, s) == Seeing(s)
    ensures SavedFrom(b, s, |s.current|, BatchCreate(b, s))
  {
    hide StatementSeeing, AllProposed, Specs;
  }
}
