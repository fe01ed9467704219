/** What a bulk save leaves behind, value by value: the rows of its batch, the mutations, and the error of a save that
  * fails. */
module BulkStored {
  import opened Schema
  import opened Codec
  import opened Create
  import opened BulkLaws

  // ----- rows -----

  // A builder without hooks stores what was set, and for what was not set its defaults: an absent column is left to
  // the table.
  lemma StoredDefaults(b: Bulk, s: State, envs: seq<Env>, j: nat, c: Column)
    requires Shaped(b, s) && |envs| == |b.hooks| && OwnMutations(s, 0) && ForwardsBetween(b, 0, |b.hooks|)
    requires j < |b.hooks| && b.hooks[j] == [] && Save(b, s, envs).1.Saved? && ColumnKind(c) != UnknownK
    ensures var r, f := Save(b, s, envs).0, s.At(s.current[j]).fields;
            && |r.batches| == |s.batches| + 1 && r.batches[..|s.batches|] == s.batches
            && |r.batches[|s.batches|]| == |b.hooks| && r.batches[|s.batches|][j].Some?
            && CellIn(r.batches[|s.batches|][j].value, c) ==
                 if c in f then Some(f[c])
                 else
                   match c
                   case Type => Some(TextC("helm"))
                   case Ordinal => Some(IntC(0))
                   case ContinueOnFailure | RequiresApproval => Some(BoolC(false))
                   case CreatedAt | UpdatedAt => Some(TimeC(envs[j].now))
                   case Id => Some(UuidC(envs[j].newId))
                   case _ => None
  {
    hide Save, Defaults, SpecOf, Check, AllPass, State.At, CellIn, ColumnKind;
    BulkAllOrNothing(b, s, envs);
    var f := s.At(s.current[j]).fields;
    DefaultsAre(f, envs[j], c);
    SpecCarries(Defaults(f, envs[j]), c);
  }

  // ----- errors -----

  // The first rejection, or the store's refusal, is the error.
  ghost predicate FailsWith(b: Bulk, s: State, error: Error)
    requires Shaped(b, s)
  {
    || (exists k :: 0 <= k < |b.hooks| && AllAccepted(b, s, k) && !Accepted(b, s, k) && error == RejectionOf(b, s, k))
    || (&& AllAccepted(b, s, |b.hooks|)
        && (|| (b.refuses(s.batches, AllSpecs(b, s)) == Some(ConstraintFailed) && error == ConstraintError)
            || (b.refuses(s.batches, AllSpecs(b, s)) == Some(StoreFailed) && error == DriverError)))
  }

  lemma BatchError(b: Bulk, s: State)
    requires Shaped(b, s)
    ensures var o := BatchCreate(b, s).1;
            match b.refuses(s.batches, s.specs)
            case None => o == Fine(Nothing)
            case Some(ConstraintFailed) => o == Fail(ConstraintError)
            case Some(StoreFailed) => o == Fail(DriverError)
  {
  }

  lemma ChainError(b: Bulk, s: State)
    requires Shaped(b, s) && |b.hooks| > 0 && OwnMutations(s, 0) && ForwardsBetween(b, 0, |b.hooks|)
    ensures var o := Mutate(b, s, 0, 0, s.current[0]).1; o.Fail? ==> FailsWith(b, s, o.error)
  {
    hide Check, NodeOf, SpecOf, Mutate, Sound, EnterAll, ExitAll, Down, Up, FieldsOf, Accepted, BatchCreate, RejectionOf;
    StartsSound(b, s, false);
    ChainIsPasses(b, s, 0, |b.hooks|);
    DownFields(b, s, 0, |b.hooks|);
    var p := Down(b, s, 0, |b.hooks|);
    if p.failure.None? {
      assert p.state.specs == AllSpecs(b, s);
      BatchError(b, p.state);
    }
  }

  // The state in which the checks run: after defaults.
  function Defaulted(b: Bulk, s: State, envs: seq<Env>): State
    requires Shaped(b, s) && |envs| == |b.hooks|
  {
    Prepare(b, s, envs, 0).0
  }

  // With hooks that forward, a bulk that fails reports the first builder, in their order, that is rejected, and the
  // refusal of the store when none is.
  lemma BulkError(b: Bulk, s: State, envs: seq<Env>)
    requires Shaped(b, s) && |envs| == |b.hooks| && OwnMutations(s, 0) && ForwardsBetween(b, 0, |b.hooks|)
    ensures var s1, result := Defaulted(b, s, envs), Save(b, s, envs).1;
            && Shaped(b, s1) && (forall j | 0 <= j < |b.hooks| :: FieldsOf(b, s1, j) == SavedFields(b, s, envs, j))
            && (result.Failed? ==> FailsWith(b, s1, result.error))
  {
    hide Check, NodeOf, SpecOf, Mutate, Prepare, FailsWith, FieldsOf, SavedFields, State.At, HasNil, ForwardsFrom;
    PrepareFields(b, s, envs, 0);
    forall j | 0 <= j < |b.hooks| ensures !HasNil(b.hooks[j]) {
      ForwardersAreSet(b.hooks[j]);
    }
    PreparedIs(b, s, Prepare(b, s, envs, 0).0, envs);
    if |b.hooks| > 0 {
      ChainError(b, Prepare(b, s, envs, 0).0);
    }
  }

  // A nil hook anywhere means that nothing is stored: wrapping it panics before any mutator runs.
  lemma {:induction false} NilPrepares(b: Bulk, s: State, envs: seq<Env>, i: nat)
    requires Shaped(b, s) && |envs| == |b.hooks| && i <= |b.hooks|
    ensures var (r, wrapped) := Prepare(b, s, envs, i);
            && r.batches == s.batches && r.trace == s.trace
            && (wrapped <==> forall j, h | i <= j < |b.hooks| && 0 <= h < |b.hooks[j]| :: b.hooks[j][h].Hook?)
    decreases |b.hooks| - i
  {
    hide Defaults;
    if i < |b.hooks| && !HasNil(b.hooks[i]) {
      var m := s.current[i];
      NilPrepares(b, s.Write(m, Defaults(s.At(m).fields, envs[i])), envs, i + 1);
    }
  }

  lemma BulkPanics(b: Bulk, s: State, envs: seq<Env>)
    requires Shaped(b, s) && |envs| == |b.hooks|
    ensures var (r, result) := Save(b, s, envs);
            && (result.Panicked? <==> exists j, h :: 0 <= j < |b.hooks| && 0 <= h < |b.hooks[j]| && b.hooks[j][h].NilHook?)
            && (result.Panicked? ==> r.batches == s.batches && r.trace == s.trace)
  {
    hide Mutate, Prepare;
    NilPrepares(b, s, envs, 0);
  }

  // ----- mutations -----

  lemma {:induction false} DownMuts(b: Bulk, s: State, i: nat, k: nat)
    requires Shaped(b, s) && i <= k <= |b.hooks| && OwnMutations(s, i)
    ensures var p := Down(b, s, i, k);
            && (forall j | i <= j < p.stop :: p.state.At(s.current[j]).fields == FieldsOf(b, s, j))
            && (forall m | m !in s.current[i..] :: p.state.At(m) == s.At(m))
    decreases k - i
  {
    hide Check, NodeOf, SpecOf, EnterAll, Adopt, FieldsOf;
    if i < k {
      var m := s.current[i];
      DownStep(b, s, i);
      EnterAllKeeps(b, s, i, 0, m);
      var s1 := EnterAll(b, s, i, 0, m);
      assert s.current[i..] == [m] + s.current[i + 1..];
      if m.ofComponents && Check(s1.At(m).fields).None? {
        AdoptStep(b, s1, i, m);
        DownMuts(b, Adopt(s1, i, m), i + 1, k);
      }
    }
  }

  // The id of a node, zero when none was set.
  function IdOf(node: Option<Fields>): Cell {
    if node.Some? && Id in node.value then node.value[Id] else UuidC(0)
  }

  lemma {:induction false} UpMuts(b: Bulk, s: State, i: nat, k: nat)
    requires Shaped(b, s) && i <= k <= |b.hooks| && OwnMutations(s, i)
    ensures var r := Up(b, s, i, k, true);
            && (forall j | i <= j < k :: r.At(s.current[j]) == Mut(s.At(s.current[j]).fields[Id := IdOf(s.nodes[j])], true))
            && (forall m | m !in s.current[i..k] :: r.At(m) == s.At(m))
    decreases k - i
  {
    hide ExitAll, Commit, IdOf, State.At;
    if i < k {
      UpMuts(b, s, i + 1, k);
      UpMarks(b, s, i + 1, k, true);
      var s1 := Up(b, s, i + 1, k, true);
      CommitIs(s1, i, s.current[i]);
      Unlogged(b, Commit(s1, i, s.current[i]), i);
      assert s.current[i..k] == [s.current[i]] + s.current[i + 1..k];
    }
  }

  lemma CommitIs(s: State, i: nat, m: Mutation)
    requires i < |s.nodes|
    ensures var r := Commit(s, i, m);
            r.At(m) == Mut(s.At(m).fields[Id := IdOf(s.nodes[i])], true) && forall n | n != m :: r.At(n) == s.At(n)
  {
  }

  lemma Unlogged(b: Bulk, s: State, i: nat)
    requires i < |b.hooks|
    ensures forall m :: ExitAll(b, s, i, 0).At(m) == s.At(m)
  {
    hide ExitAll;
    ExitAllKeeps(b, s, i, 0);
  }

  // After a save that succeeds, each mutation holds the fields stored, with the id of its node, and is marked.
  lemma SavedMutations(b: Bulk, s: State, j: nat)
    requires Shaped(b, s) && j < |b.hooks| && OwnMutations(s, 0) && ForwardsBetween(b, 0, |b.hooks|)
    requires Mutate(b, s, 0, 0, s.current[0]).1.Fine?
    ensures var f := FieldsOf(b, s, j);
            Mutate(b, s, 0, 0, s.current[0]).0.At(s.current[j]) == Mut(f[Id := if Id in f then f[Id] else UuidC(0)], true)
  {
    hide Check, NodeOf, SpecOf, Mutate, Sound, EnterAll, ExitAll, Down, Up, FieldsOf, Accepted, BatchCreate, RejectionOf;
    hide COMPONENT_COLUMNS, State.At;
    StartsSound(b, s, false);
    var n := |b.hooks|;
    ChainIsPasses(b, s, 0, n);
    DownFields(b, s, 0, n);
    DownMuts(b, s, 0, n);
    var p := Down(b, s, 0, n);
    Batching(b, p.state);
    UpMuts(b, BatchCreate(b, p.state).0, 0, n);
    NodeIs(FieldsOf(b, s, j), Id);
    ColumnsAre(Id);
  }

  // ----- hooks that call more than once -----

  // A hook that calls twice runs everything inside it twice, the second time on what the first left, so that two batches
  // can be stored; and its answer to both replies is the outcome.
  lemma CalledTwice(b: Bulk, s: State, i: nat, h: nat, m: Mutation)
    requires Shaped(b, s) && i < |b.hooks| && h < |b.hooks[i]|
    requires b.hooks[i][h].Hook? && b.hooks[i][h].calls == 2
    requires forall replies, f :: |replies| < 2 ==> b.hooks[i][h].decide(replies, f) == Call(f, None)
    ensures var s1 := s.Log(Enter(i, h)).Write(m, s.At(m).fields);
            && Shaped(b, s1)
            && var (r, o) := Mutate(b, s1, i, h + 1, m);
               && Shaped(b, r.Write(m, r.At(m).fields))
               && var (t, p) := Mutate(b, r.Write(m, r.At(m).fields), i, h + 1, m);
                  Mutate(b, s, i, h, m) == (t.Log(Exit(i, h)), b.hooks[i][h].answer([o, p], t.At(m).fields))
  {
    hide Innermost;
    var s0 := s.Log(Enter(i, h));
    var (r, o) := Mutate(b, s0.Write(m, s0.At(m).fields), i, h + 1, m);
    var (t, p) := Mutate(b, r.Write(m, r.At(m).fields), i, h + 1, m);
    assert [] + [o] == [o] && [o] + [p] == [o, p];
    assert Perform(b, t, i, h, m, [o, p]) == (t, b.hooks[i][h].answer([o, p], t.At(m).fields));
    assert Perform(b, r, i, h, m, [o]) == Perform(b, t, i, h, m, [o, p]);
    assert Perform(b, s0, i, h, m, []) == Perform(b, r, i, h, m, [o]);
  }
}
