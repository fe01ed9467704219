/** What creating in bulk promises when hooks forward: all rows or none, marks and batch in step, and the
  * exact order of events; and what a hook that stops the chain does to that. */
module BulkLaws {
  import opened Schema
  import opened Codec
  import opened Create

  // Every builder from i on has a mutation of its own.
  ghost predicate OwnMutations(s: State, i: nat) {
    forall j, k | i <= j < k < |s.current| :: s.current[j] != s.current[k]
  }

  // What the check and the specification of builder j are about: its own fields, edited by its own hooks.
  function FieldsOf(b: Bulk, s: State, j: nat): Fields
    requires j < |b.hooks| == |s.current|
  {
    EditAll(b.hooks[j], s.At(s.current[j]).fields)
  }

  ghost predicate Accepted(b: Bulk, s: State, j: nat)
    requires j < |b.hooks| == |s.current|
  {
    s.current[j].ofComponents && Check(FieldsOf(b, s, j)).None?
  }

  // The error that the check of builder j reports.
  function RejectionOf(b: Bulk, s: State, j: nat): Error
    requires j < |b.hooks| == |s.current|
  {
    if !s.current[j].ofComponents then UnexpectedMutation
    else
      var failure := Check(FieldsOf(b, s, j));
      if failure.Some? then Invalid(failure.value) else UnexpectedMutation
  }

  // One builder's part of the pass down: only its own mutation's fields, node and specification change.
  lemma DownStep(b: Bulk, s: State, i: nat)
    requires Shaped(b, s) && i < |b.hooks| && OwnMutations(s, i)
    ensures var m := s.current[i];
            var s1 := EnterAll(b, s, i, 0, m);
            && Shaped(b, s1) && s1.current == s.current && s1.batches == s.batches
            && s1.nodes == s.nodes && s1.specs == s.specs
            && s1.At(m).fields == FieldsOf(b, s, i)
            && (forall n :: s1.At(n).done == s.At(n).done)
            && (forall j | i < j < |b.hooks| :: FieldsOf(b, s1, j) == FieldsOf(b, s, j))
  {
    hide EditAll, EnterAll;
    EnterAllKeeps(b, s, i, 0, s.current[i]);
    assert b.hooks[i][0..] == b.hooks[i];
  }

  lemma AdoptStep(b: Bulk, s: State, i: nat, m: Mutation)
    requires Shaped(b, s) && i < |b.hooks| && m == s.current[i]
    ensures var s2 := Adopt(s, i, m);
            && Shaped(b, s2) && s2.current == s.current && s2.batches == s.batches
            && s2.nodes[i] == Some(NodeOf(s.At(m).fields)) && s2.specs[i] == Some(SpecOf(s.At(m).fields))
            && (forall j | 0 <= j < |b.hooks| && j != i :: s2.specs[j] == s.specs[j] && s2.nodes[j] == s.nodes[j])
            && (forall n :: s2.At(n) == s.At(n))
            && (forall j | 0 <= j < |b.hooks| :: FieldsOf(b, s2, j) == FieldsOf(b, s, j))
  {
    hide EditAll, NodeOf, SpecOf;
  }

  lemma {:induction false} DownFields(b: Bulk, s: State, i: nat, k: nat)
    requires Shaped(b, s) && i <= k <= |b.hooks| && OwnMutations(s, i)
    ensures var p := Down(b, s, i, k);
            && p.state.current == s.current && p.state.batches == s.batches
            && (forall m :: p.state.At(m).done == s.At(m).done)
            && (forall j | i <= j < p.stop :: Accepted(b, s, j)
                  && p.state.specs[j] == Some(SpecOf(FieldsOf(b, s, j))) && p.state.nodes[j] == Some(NodeOf(FieldsOf(b, s, j))))
            && (forall j | 0 <= j < |b.hooks| && !(i <= j < p.stop) ::
                  p.state.specs[j] == s.specs[j] && p.state.nodes[j] == s.nodes[j])
            && (p.failure.Some? ==> !Accepted(b, s, p.stop) && p.failure.value == RejectionOf(b, s, p.stop))
            && (p.failure.None? ==> p.stop == k && forall j | k <= j < |b.hooks| :: FieldsOf(b, p.state, j) == FieldsOf(b, s, j))
    decreases k - i
  {
    hide Check, NodeOf, SpecOf, EnterAll, Adopt, FieldsOf;
    if i < k {
      var m := s.current[i];
      DownStep(b, s, i);
      var s1 := EnterAll(b, s, i, 0, m);
      if m.ofComponents && Check(s1.At(m).fields).None? {
        AdoptStep(b, s1, i, m);
        var s2 := Adopt(s1, i, m);
        DownFields(b, s2, i + 1, k);
        forall j | i < j < |b.hooks|
          ensures FieldsOf(b, s2, j) == FieldsOf(b, s, j) && Accepted(b, s2, j) == Accepted(b, s, j)
        {
          assert FieldsOf(b, s2, j) == FieldsOf(b, s1, j) == FieldsOf(b, s, j);
        }
      }
    }
  }

  // The pass up marks the builders passed after a success, and nothing after a failure.
  lemma {:induction false} UpMarks(b: Bulk, s: State, i: nat, k: nat, fine: bool)
    requires Shaped(b, s) && i <= k <= |b.hooks|
    ensures var r := Up(b, s, i, k, fine);
            && r.batches == s.batches && r.specs == s.specs && r.nodes == s.nodes && r.current == s.current
            && (fine ==> forall j | i <= j < k :: r.At(s.current[j]).done)
            && (forall m | !fine || m !in s.current[i..k] :: r.At(m) == s.At(m))
    decreases k - i
  {
    hide ExitAll;
    if i < k {
      UpMarks(b, s, i + 1, k, fine);
      var s1 := Up(b, s, i + 1, k, fine);
      var s2 := if fine then Commit(s1, i, s1.current[i]) else s1;
      ExitAllKeeps(b, s2, i, 0);
      assert s.current[i..k] == [s.current[i]] + s.current[i + 1..k];
    }
  }

  ghost predicate AllAccepted(b: Bulk, s: State, k: nat)
    requires k <= |b.hooks| == |s.current|
  {
    forall j | 0 <= j < k :: Accepted(b, s, j)
  }

  function AllSpecs(b: Bulk, s: State): seq<Option<CreateSpec>>
    requires Shaped(b, s)
  {
    seq(|b.hooks|, j requires 0 <= j < |b.hooks| => Some(SpecOf(FieldsOf(b, s, j))))
  }

  // The fields of the builders from i on pass their checks.
  ghost predicate TailAccepted(b: Bulk, s: State, i: nat)
    requires Shaped(b, s)
  {
    forall j | i <= j < |b.hooks| :: Accepted(b, s, j)
  }

  // The specifications filled before i, and those of the builders from i on.
  function TailSpecs(b: Bulk, s: State, i: nat): seq<Option<CreateSpec>>
    requires Shaped(b, s) && i <= |b.hooks|
  {
    s.specs[..i] + seq(|b.hooks| - i, x requires 0 <= x < |b.hooks| - i => Some(SpecOf(FieldsOf(b, s, i + x))))
  }

  ghost predicate TailStored(b: Bulk, s: State, i: nat)
    requires Shaped(b, s) && i <= |b.hooks|
  {
    TailAccepted(b, s, i) && b.refuses(s.batches, TailSpecs(b, s, i)).None?
  }

  // From any builder on, forwarding hooks make one batch of what was filled before and of their own builders'
  // fields, exactly when these pass and the store takes it; the same builders are then marked, and otherwise none.
  lemma Tail(b: Bulk, s: State, i: nat)
    requires Sound(b, s, i, false, |s.batches|) && OwnMutations(s, i) && ForwardsBetween(b, i, |b.hooks|)
    ensures var (r, o) := Rest(b, s, i);
            && (o.Fine? <==> TailStored(b, s, i))
            && r.batches == (if o.Fine? then s.batches + [TailSpecs(b, s, i)] else s.batches)
            && r.current == s.current
            && (forall j | 0 <= j < i :: r.nodes[j] == s.nodes[j])
            && (o.Fine? ==> forall j | i <= j < |b.hooks| ::
                  r.At(s.current[j]).done && r.nodes[j] == Some(NodeOf(FieldsOf(b, s, j))))
            && (forall m | o.Fail? || m !in s.current[i..] :: r.At(m).done == s.At(m).done)
            && (o.Fail? && o.error in {ConstraintError, DriverError} <==>
                  TailAccepted(b, s, i) && b.refuses(s.batches, TailSpecs(b, s, i)).Some?)
  {
    hide Check, NodeOf, SpecOf, Mutate, EnterAll, ExitAll, Down, Up, FieldsOf, Accepted, BatchCreate;
    hide Good, AllGood, OwnMutations, ForwardsBetween;
    var n := |b.hooks|;
    if i < n {
      ChainIsPasses(b, s, i, n);
      DownFields(b, s, i, n);
      var p := Down(b, s, i, n);
      if p.failure.Some? {
        ExitAllKeeps(b, p.state, p.stop, 0);
        UpMarks(b, ExitAll(b, p.state, p.stop, 0), i, p.stop, false);
      } else {
        assert p.state.specs == TailSpecs(b, s, i);
        Batching(b, p.state);
        UpMarks(b, BatchCreate(b, p.state).0, i, n, BatchCreate(b, p.state).1.Fine?);
      }
    } else {
      assert TailSpecs(b, s, i) == s.specs;
      Batching(b, s);
    }
  }

  lemma Batching(b: Bulk, s: State)
    requires Shaped(b, s)
    ensures var (r, o) := BatchCreate(b, s);
            && (o.Fine? <==> b.refuses(s.batches, s.specs).None?)
            && (o.Fail? ==> o.error in {ConstraintError, DriverError})
            && r.batches == (if o.Fine? then s.batches + [s.specs] else s.batches)
            && r == s.(batches := r.batches, trace := r.trace)
            && forall m :: r.At(m) == s.At(m)
  {
  }

  // With hooks that forward, the batch is reached exactly when every builder's fields pass their check; the
  // store is then asked for the specifications of all builders, in order. Success means that it took them and
  // every mutation is marked; any failure leaves the store and every mark as they were.
  lemma AllOrNothing(b: Bulk, s: State)
    requires Shaped(b, s) && |b.hooks| > 0 && OwnMutations(s, 0) && ForwardsBetween(b, 0, |b.hooks|)
    ensures var (r, o) := Mutate(b, s, 0, 0, s.current[0]);
            && (o.Fine? <==> AllAccepted(b, s, |b.hooks|) && b.refuses(s.batches, AllSpecs(b, s)).None?)
            && r.batches == (if o.Fine? then s.batches + [AllSpecs(b, s)] else s.batches)
            && (o.Fine? ==> forall j | 0 <= j < |b.hooks| ::
                  r.At(s.current[j]).done && r.nodes[j] == Some(NodeOf(FieldsOf(b, s, j))))
            && (o.Fail? ==> forall m :: r.At(m).done == s.At(m).done)
            && (o.Fail? && o.error in {ConstraintError, DriverError} <==>
                  AllAccepted(b, s, |b.hooks|) && b.refuses(s.batches, AllSpecs(b, s)).Some?)
  {
    hide Check, NodeOf, SpecOf, Mutate, Sound, FieldsOf, Accepted;
    StartsSound(b, s, false);
    Tail(b, s, 0);
    assert AllSpecs(b, s) == TailSpecs(b, s, 0);
  }

  // The batch in which builder i has the fields of the mutation handed down, and the builders after it their own.
  function HandedSpecs(b: Bulk, s: State, i: nat, m: Mutation): seq<Option<CreateSpec>>
    requires Shaped(b, s) && i < |b.hooks|
  {
    hide NodeOf, SpecOf;
    TailSpecs(b, Adopt(s, i, m), i + 1)
  }

  ghost predicate HandedAccepted(b: Bulk, s: State, i: nat, m: Mutation)
    requires Shaped(b, s) && i < |b.hooks|
  {
    hide NodeOf, SpecOf;
    && m.ofComponents && Check(s.At(s.current[i]).fields).None?
    && TailAccepted(b, Adopt(s, i, m), i + 1)
  }

  lemma HandedSpecsAre(b: Bulk, s: State, i: nat, m: Mutation)
    requires Shaped(b, s) && i < |b.hooks|
    ensures var specs := HandedSpecs(b, s, i, m);
            && |specs| == |b.hooks| && specs[..i] == s.specs[..i] && specs[i] == Some(SpecOf(s.At(m).fields))
            && forall j | i < j < |b.hooks| :: specs[j] == Some(SpecOf(FieldsOf(b, Adopt(s, i, m), j)))
  {
    hide NodeOf, SpecOf, FieldsOf;
  }

  // What builder i stores when it is handed a mutation and the builders after it forward: exactly that batch,
  // exactly when its own fields pass, those after it are accepted and the store takes it. The fields of the
  // mutation handed down are not looked at.
  lemma HandedExactly(b: Bulk, s: State, i: nat, m: Mutation)
    requires Sound(b, s, i, false, |s.batches|) && i < |b.hooks| && OwnMutations(s, i + 1)
    requires ForwardsBetween(b, i + 1, |b.hooks|)
    ensures var (r, o) := Innermost(b, s, i, m);
            var stored := HandedAccepted(b, s, i, m) && b.refuses(s.batches, HandedSpecs(b, s, i, m)).None?;
            && (o.Fine? <==> stored)
            && r.batches == (if stored then s.batches + [HandedSpecs(b, s, i, m)] else s.batches)
            && (stored ==> r.At(m).done && forall j | i < j < |b.hooks| :: r.At(s.current[j]).done)
            && (forall n | !stored || (n != m && n !in s.current[i + 1..]) :: r.At(n).done == s.At(n).done)
  {
    hide Check, NodeOf, SpecOf, Innermost, Rest, TailAccepted, TailSpecs, FieldsOf, Adopt, Commit, Sound, OwnMutations;
    hide ForwardsBetween;
    Unmoved(b, s, i, false, |s.batches|);
    InnermostIs(b, s, i, m);
    if m.ofComponents && Check(s.At(s.current[i]).fields).None? {
      Adopted(b, s, i, m, false, |s.batches|);
      AdoptedIs(b, s, i, m);
      var s1 := Adopt(s, i, m);
      Tail(b, s1, i + 1);
      CommitMarks(Rest(b, s1, i + 1).0, i, m);
      forall j | i < j < |b.hooks| ensures s1.current[j] == s.current[j] {}
    }
  }

  lemma InnermostIs(b: Bulk, s: State, i: nat, m: Mutation)
    requires Shaped(b, s) && i < |b.hooks|
    ensures var (r, o) := Innermost(b, s, i, m);
            if m.ofComponents && Check(s.At(s.current[i]).fields).None? then
              && Shaped(b, Adopt(s, i, m))
              && var (t, p) := Rest(b, Adopt(s, i, m), i + 1);
                 (o.Fine? <==> p.Fine?) && r == if p.Fine? then Commit(t, i, m) else t
            else
              o.Fail? && r == s.(trace := r.trace)
  {
    hide Check, NodeOf, SpecOf, Mutate, BatchCreate, Commit;
  }

  lemma CommitMarks(s: State, i: nat, m: Mutation)
    requires i < |s.nodes|
    ensures var r := Commit(s, i, m);
            && r.batches == s.batches && r.At(m).done && forall n | n != m :: r.At(n) == s.At(n)
  {
  }

  lemma AdoptedIs(b: Bulk, s: State, i: nat, m: Mutation)
    requires Shaped(b, s) && i < |b.hooks| && OwnMutations(s, i + 1)
    ensures var s1 := Adopt(s, i, m);
            && Shaped(b, s1) && OwnMutations(s1, i + 1) && s1.current == s.current[i := m] && s1.current[i + 1..] == s.current[i + 1..]
            && s1.batches == s.batches && forall n :: s1.At(n) == s.At(n)
  {
    hide NodeOf, SpecOf;
  }

  // A mutation whose fields fail the check is stored by any builder, with the builders after it forwarding,
  // exactly when the builder's own fields pass, those after it are accepted and the store takes the batch.
  lemma UncheckedExact(b: Bulk, s: State, i: nat, m: Mutation)
    requires Sound(b, s, i, false, |s.batches|) && i < |b.hooks| && OwnMutations(s, i + 1)
    requires ForwardsBetween(b, i + 1, |b.hooks|)
    requires m.ofComponents && Check(s.At(m).fields).Some?
    ensures var r := Innermost(b, s, i, m).0;
            (|r.batches| == |s.batches| + 1 && |r.batches[|s.batches|]| == |b.hooks|
             && r.batches[|s.batches|][i] == Some(SpecOf(s.At(m).fields))) <==>
              (&& HandedAccepted(b, s, i, m)
               && b.refuses(s.batches, HandedSpecs(b, s, i, m)).None?)
  {
    hide Check, NodeOf, SpecOf, FieldsOf, Innermost, HandedAccepted, HandedSpecs, Sound, Adopt;
    Unmoved(b, s, i, false, |s.batches|);
    HandedExactly(b, s, i, m);
    HandedSpecsAre(b, s, i, m);
  }

  // ----- a builder whose hooks do not forward -----

  // When the builders before k forward, the bulk succeeds with what happens from k on, and the marks of the
  // builders before k follow that outcome alone, whether or not a batch was stored.
  lemma MarksFollowRest(b: Bulk, s: State, k: nat)
    requires Shaped(b, s) && 0 < k <= |b.hooks| && OwnMutations(s, 0) && ForwardsBetween(b, 0, k)
    ensures var (r, o) := Mutate(b, s, 0, 0, s.current[0]);
            var p := Down(b, s, 0, k);
            var (t, q) := Rest(b, p.state, k);
            if AllAccepted(b, s, k) then
              && (o.Fine? <==> q.Fine?) && r.batches == t.batches && r.nodes == t.nodes
              && (o.Fine? ==> forall j | 0 <= j < k :: r.At(s.current[j]).done)
              && (forall m | o.Fail? || m !in s.current[..k] :: r.At(m) == t.At(m))
            else
              o.Fail? && r.batches == s.batches && forall m :: r.At(m).done == s.At(m).done
  {
    hide Check, NodeOf, SpecOf, Mutate, Sound, EnterAll, ExitAll, Down, Up, FieldsOf, Accepted, Rest;
    StartsSound(b, s, false);
    ChainIsPasses(b, s, 0, k);
    DownFields(b, s, 0, k);
    var p := Down(b, s, 0, k);
    if p.failure.Some? {
      ExitAllKeeps(b, p.state, p.stop, 0);
      UpMarks(b, ExitAll(b, p.state, p.stop, 0), 0, p.stop, false);
    } else {
      var (t, o) := Rest(b, p.state, k);
      RestKeeps(b, s, k);
      UpMarks(b, t, 0, k, o.Fine?);
      assert s.current[0..k] == s.current[..k];
    }
  }

  lemma RestKeeps(b: Bulk, s: State, k: nat)
    requires Shaped(b, s) && 0 < k <= |b.hooks| && OwnMutations(s, 0)
    ensures var p := Down(b, s, 0, k);
            p.failure.None? ==> Rest(b, p.state, k).0.current[..k] == s.current[..k]
  {
    hide Check, NodeOf, SpecOf, Mutate, EnterAll, Down, FieldsOf, Accepted, BatchCreate;
    DownFields(b, s, 0, k);
    var p := Down(b, s, 0, k);
    if p.failure.None? {
      assert Sound(b, p.state, k, false, |s.batches|);
      if k < |b.hooks| {
        BatchesAreSound(b, p.state, k, 0, p.state.current[k], false, |s.batches|);
      } else {
        SoundBatch(b, p.state, false, |s.batches|);
      }
    }
  }

  // A hook that reports success without calling.
  ghost predicate StopsFine(hook: Hook) {
    forall f :: var move := Decide(hook, [], f); move.Return? && move.outcome.Fine?
  }

  // Hook h of builder k stops the chain with success, behind hooks that forward: the bulk succeeds exactly when the
  // builders before k pass their checks, nothing is stored, those builders are marked all the same, and the nodes
  // from k on are never filled.
  lemma StoppedChain(b: Bulk, s: State, k: nat, h: nat)
    requires Shaped(b, s) && k < |b.hooks| && OwnMutations(s, 0) && ForwardsBetween(b, 0, k)
    requires h < |b.hooks[k]| && ForwardsBefore(b.hooks[k], h) && StopsFine(b.hooks[k][h])
    ensures var (r, o) := Mutate(b, s, 0, 0, s.current[0]);
            && (o.Fine? <==> AllAccepted(b, s, k))
            && r.batches == s.batches
            && (o.Fine? ==> forall j | 0 <= j < k :: r.At(s.current[j]).done)
            && (forall m | o.Fail? || m !in s.current[..k] :: r.At(m).done == s.At(m).done)
            && (o.Fine? ==> forall j | k <= j < |b.hooks| :: r.nodes[j] == s.nodes[j])
  {
    hide Check, NodeOf, SpecOf, Mutate, Sound, EnterAll, Down, FieldsOf, Accepted, StopsFine, ForwardsBefore;
    if k == 0 {
      StopsAt(b, s, 0, 0, h, s.current[0]);
    } else {
      MarksFollowRest(b, s, k);
      DownFields(b, s, 0, k);
      var p := Down(b, s, 0, k);
      StopsAt(b, p.state, k, 0, h, p.state.current[k]);
    }
  }

  ghost predicate ForwardsBefore(hooks: seq<Hook>, h: nat)
    requires h <= |hooks|
  {
    forall x | 0 <= x < h :: Forwards(hooks[x])
  }

  // From hook x on, up to the one that stops: only what the hooks edit, and the events.
  lemma {:induction false} StopsAt(b: Bulk, s: State, k: nat, x: nat, h: nat, m: Mutation)
    requires Shaped(b, s) && k < |b.hooks| && x <= h < |b.hooks[k]|
    requires ForwardsBefore(b.hooks[k], h) && StopsFine(b.hooks[k][h])
    ensures var (r, o) := Mutate(b, s, k, x, m);
            o.Fine? && r == s.(muts := r.muts, trace := r.trace) && forall n :: r.At(n).done == s.At(n).done
    decreases h - x
  {
    hide Innermost, Forwards;
    if x < h {
      hide Mutate, StopsFine;
      assert Forwards(b.hooks[k][x]);
      ForwardStep(b, s, k, x, m);
      var s1 := s.Log(Enter(k, x)).Write(m, Edit(b.hooks[k][x], s.At(m).fields));
      StopsAt(b, s1, k, x + 1, h, m);
      assert forall n :: s1.At(n).done == s.At(n).done;
      var t := Mutate(b, s1, k, x + 1, m).0;
      assert forall n :: t.Log(Exit(k, x)).At(n) == t.At(n);
    } else {
      var s1 := s.Log(Enter(k, h));
      assert Decide(b.hooks[k][h], [], s1.At(m).fields).Return?;
      assert Perform(b, s1, k, h, m, []).0 == s1;
    }
  }

  // A hook that edits, calls once, and then reports failure whatever the reply.
  ghost predicate FailsLate(hook: Hook) {
    && hook.Hook? && hook.calls > 0
    && (forall f :: hook.decide([], f).Call? && hook.decide([], f).other.None?)
    && (forall o, f :: var move := Decide(hook, [o], f); move.Return? && move.outcome.Fail?)
  }

  // Every hook but h forwards, and h fails late.
  ghost predicate FailsLateAt(hooks: seq<Hook>, h: nat)
    requires h < |hooks|
  {
    ForwardsBefore(hooks, h) && FailsLate(hooks[h]) && ForwardsFrom(hooks, h + 1)
  }

  // Hook h of builder k reports failure after its call, with the other hooks forwarding: the bulk always
  // fails, but its batch is stored all the same exactly when every builder's fields pass and the store takes it.
  // Then the builders from k on are marked and those before k are not.
  lemma FailedLate(b: Bulk, s: State, k: nat, h: nat)
    requires Shaped(b, s) && k < |b.hooks| && OwnMutations(s, 0) && ForwardsBetween(b, 0, k)
    requires h < |b.hooks[k]| && FailsLateAt(b.hooks[k], h)
    requires ForwardsBetween(b, k + 1, |b.hooks|)
    ensures var (r, o) := Mutate(b, s, 0, 0, s.current[0]);
            var stored := AllAccepted(b, s, |b.hooks|) && b.refuses(s.batches, AllSpecs(b, s)).None?;
            && o.Fail?
            && r.batches == (if stored then s.batches + [AllSpecs(b, s)] else s.batches)
            && (stored ==> forall j | k <= j < |b.hooks| :: r.At(s.current[j]).done)
            && (forall m | !stored || m !in s.current[k..] :: r.At(m).done == s.At(m).done)
  {
    hide Check, NodeOf, SpecOf, Mutate, EnterAll, Down, FieldsOf, Accepted, AllSpecs, FailsLateAt, Rest;
    DownFields(b, s, 0, k);
    var p := Down(b, s, 0, k);
    if p.failure.None? {
      LateTail(b, s, p.state, k, h);
    }
    if k == 0 {
      assert p.state == s by { DownNothing(b, s); }
    } else {
      MarksFollowRest(b, s, k);
      RestIs(b, p.state, k);
    }
  }

  lemma DownNothing(b: Bulk, s: State)
    requires Shaped(b, s)
    ensures Down(b, s, 0, 0) == Passed(s, 0, None)
  {
  }

  // The chain of builder k, from the state in which it is reached.
  lemma LateTail(b: Bulk, s: State, q: State, k: nat, h: nat)
    requires Shaped(b, s) && Shaped(b, q) && k < |b.hooks| && OwnMutations(s, 0) && AllAccepted(b, s, k)
    requires h < |b.hooks[k]| && FailsLateAt(b.hooks[k], h)
    requires ForwardsBetween(b, k + 1, |b.hooks|)
    requires q.current == s.current && q.batches == s.batches && forall m :: q.At(m).done == s.At(m).done
    requires forall j | 0 <= j < k :: q.specs[j] == Some(SpecOf(FieldsOf(b, s, j)))
    requires forall j | k <= j < |b.hooks| :: FieldsOf(b, q, j) == FieldsOf(b, s, j)
    ensures var (r, o) := Mutate(b, q, k, 0, s.current[k]);
            var stored := AllAccepted(b, s, |b.hooks|) && b.refuses(s.batches, AllSpecs(b, s)).None?;
            && o.Fail?
            && r.batches == (if stored then s.batches + [AllSpecs(b, s)] else s.batches)
            && (stored ==> forall j | k <= j < |b.hooks| :: r.At(s.current[j]).done)
            && (forall m | !stored || m !in s.current[k..] :: r.At(m).done == s.At(m).done)
  {
    hide Check, NodeOf, SpecOf, Mutate, Innermost, EnterAll, FieldsOf, Accepted, AllSpecs, HandedSpecs, HandedAccepted;
    hide FailsLateAt, Sound, AllAccepted, ForwardsFrom, ForwardsBetween, State.At;
    var m := s.current[k];
    var entered := EnterAll(b, q, k, 0, m);
    LateForwards(b, q, k, 0, h, m);
    DownStep(b, q, k);
    FilledSound(b, s, entered, k);
    HandedExactly(b, entered, k, m);
    LateBatch(b, s, entered, k);
    assert s.current[k..] == [m] + s.current[k + 1..];
  }

  // From hook x on, up to the one that fails and beyond.
  lemma {:induction false} LateForwards(b: Bulk, q: State, k: nat, x: nat, h: nat, m: Mutation)
    requires Shaped(b, q) && k < |b.hooks| && x <= h < |b.hooks[k]| && FailsLateAt(b.hooks[k], h)
    ensures var entered := EnterAll(b, q, k, x, m);
            && Shaped(b, entered)
            && var (r, o) := Mutate(b, q, k, x, m);
               var t := Innermost(b, entered, k, m).0;
               o.Fail? && r.batches == t.batches && forall n :: r.At(n) == t.At(n)
    decreases h - x
  {
    hide Mutate, Innermost, EnterAll, ExitAll, FailsLate, Forwards;
    var q1 := q.Log(Enter(k, x)).Write(m, Edit(b.hooks[k][x], q.At(m).fields));
    EntersNext(b, q, k, x, m);
    if x < h {
      assert Forwards(b.hooks[k][x]);
      ForwardStep(b, q, k, x, m);
      LateForwards(b, q1, k, x + 1, h, m);
    } else {
      FailsAt(b, q, k, h, m);
      HooksForward(b, q1, k, h + 1, m);
      ExitAllKeeps(b, Innermost(b, EnterAll(b, q, k, h, m), k, m).0, k, h + 1);
    }
  }

  lemma EntersNext(b: Bulk, s: State, k: nat, x: nat, m: Mutation)
    requires k < |b.hooks| && x < |b.hooks[k]|
    ensures EnterAll(b, s, k, x, m)
         == EnterAll(b, s.Log(Enter(k, x)).Write(m, Edit(b.hooks[k][x], s.At(m).fields)), k, x + 1, m)
  {
  }

  lemma FilledSound(b: Bulk, s: State, q: State, k: nat)
    requires Shaped(b, s) && Shaped(b, q) && k < |b.hooks|
    requires forall j | 0 <= j < k :: q.specs[j] == Some(SpecOf(FieldsOf(b, s, j)))
    ensures Sound(b, q, k, false, |q.batches|)
  {
    hide SpecOf, FieldsOf;
  }

  // What builder k then hands on is what the bulk would have stored.
  lemma LateBatch(b: Bulk, s: State, q: State, k: nat)
    requires Shaped(b, s) && Shaped(b, q) && k < |b.hooks| && AllAccepted(b, s, k)
    requires q.current == s.current && q.At(s.current[k]).fields == FieldsOf(b, s, k)
    requires forall j | 0 <= j < k :: q.specs[j] == Some(SpecOf(FieldsOf(b, s, j)))
    requires forall j | k < j < |b.hooks| :: FieldsOf(b, q, j) == FieldsOf(b, s, j)
    ensures HandedSpecs(b, q, k, s.current[k]) == AllSpecs(b, s)
    ensures HandedAccepted(b, q, k, s.current[k]) <==> AllAccepted(b, s, |b.hooks|)
  {
    hide Check, NodeOf, SpecOf, FieldsOf, Adopt, HandedSpecs;
    var m := s.current[k];
    AdoptStep(b, q, k, m);
    HandedSpecsAre(b, q, k, m);
    forall j | 0 <= j < |b.hooks| ensures HandedSpecs(b, q, k, m)[j] == AllSpecs(b, s)[j] {
      if j < k {
        assert HandedSpecs(b, q, k, m)[j] == HandedSpecs(b, q, k, m)[..k][j];
      }
    }
    forall j | k < j < |b.hooks| ensures Accepted(b, Adopt(q, k, m), j) <==> Accepted(b, s, j) {
      assert FieldsOf(b, Adopt(q, k, m), j) == FieldsOf(b, s, j);
    }
    assert Accepted(b, s, k) <==> m.ofComponents && Check(q.At(m).fields).None?;
    assert TailAccepted(b, Adopt(q, k, m), k + 1) <==> forall j | k < j < |b.hooks| :: Accepted(b, s, j);
  }

  lemma FailsAt(b: Bulk, s: State, k: nat, h: nat, m: Mutation)
    requires Shaped(b, s) && k < |b.hooks| && h < |b.hooks[k]| && FailsLate(b.hooks[k][h])
    ensures var (r, o) := Mutate(b, s, k, h, m);
            var t := Mutate(b, s.Log(Enter(k, h)).Write(m, Edit(b.hooks[k][h], s.At(m).fields)), k, h + 1, m).0;
            o.Fail? && r == t.Log(Exit(k, h))
  {
    hide Innermost;
    var hook, s1 := b.hooks[k][h], s.Log(Enter(k, h));
    var f := s1.At(m).fields;
    assert Decide(hook, [], f) == Call(Edit(hook, f), None);
    var (t, p) := Mutate(b, s1.Write(m, Edit(hook, f)), k, h + 1, m);
    assert [] + [p] == [p];
    assert Perform(b, t, k, h, m, [p]).0 == t;
    assert Perform(b, s1, k, h, m, []) == Perform(b, t, k, h, m, [p]);
  }

  // ----- the order of events -----

  function Enters(b: Bulk, i: nat, h: nat): seq<Event>
    requires i < |b.hooks| && h <= |b.hooks[i]|
    decreases |b.hooks[i]| - h
  {
    if h == |b.hooks[i]| then [] else [Enter(i, h)] + Enters(b, i, h + 1)
  }

  // Every hook of a builder from the outermost in, its check, then the next builder.
  function WayDown(b: Bulk, i: nat, k: nat): seq<Event>
    requires i <= k <= |b.hooks|
    decreases k - i
  {
    if i == k then [] else Enters(b, i, 0) + [Checked(i)] + WayDown(b, i + 1, k)
  }

  // The exits that answer the entries of a trace, in reverse order.
  function Mirror(events: seq<Event>): seq<Event> {
    if events == [] then []
    else Mirror(events[1..]) + match events[0] case Enter(i, h) => [Exit(i, h)] case _ => []
  }

  lemma {:induction false} MirrorConcat(a: seq<Event>, c: seq<Event>)
    ensures Mirror(a + c) == Mirror(c) + Mirror(a)
  {
    if a == [] {
      assert a + c == c;
    } else {
      MirrorConcat(a[1..], c);
      assert (a + c)[1..] == a[1..] + c;
    }
  }

  lemma {:induction false} EnterTrace(b: Bulk, s: State, i: nat, h: nat, m: Mutation)
    requires i < |b.hooks| && h <= |b.hooks[i]|
    ensures EnterAll(b, s, i, h, m).trace == s.trace + Enters(b, i, h)
    decreases |b.hooks[i]| - h
  {
    if h < |b.hooks[i]| {
      EnterTrace(b, s.Log(Enter(i, h)).Write(m, Edit(b.hooks[i][h], s.At(m).fields)), i, h + 1, m);
    }
  }

  lemma {:induction false} ExitTrace(b: Bulk, s: State, i: nat, h: nat)
    requires i < |b.hooks| && h <= |b.hooks[i]|
    ensures ExitAll(b, s, i, h).trace == s.trace + Mirror(Enters(b, i, h))
    decreases |b.hooks[i]| - h
  {
    if h < |b.hooks[i]| {
      ExitTrace(b, s, i, h + 1);
      assert Enters(b, i, h)[1..] == Enters(b, i, h + 1);
    }
  }

  // The events of the pass down: those of the builders passed, and of the one that failed its check.
  lemma {:induction false} DownTrace(b: Bulk, s: State, i: nat, k: nat)
    requires Shaped(b, s) && i <= k <= |b.hooks| && forall j | 0 <= j < |s.current| :: s.current[j].ofComponents
    ensures var p := Down(b, s, i, k);
            p.state.trace == s.trace + WayDown(b, i, if p.failure.Some? then p.stop + 1 else k)
    decreases k - i
  {
    hide Check, NodeOf, SpecOf, EnterAll;
    if i < k {
      var m := s.current[i];
      EnterTrace(b, s, i, 0, m);
      EnterAllKeeps(b, s, i, 0, m);
      var s1 := EnterAll(b, s, i, 0, m);
      if Check(s1.At(m).fields).None? {
        var s2 := Adopt(s1, i, m);
        DownTrace(b, s2, i + 1, k);
      } else {
        assert WayDown(b, i + 1, i + 1) == [];
      }
    }
  }

  lemma {:induction false} UpTrace(b: Bulk, s: State, i: nat, k: nat, fine: bool)
    requires Shaped(b, s) && i <= k <= |b.hooks|
    ensures Up(b, s, i, k, fine).trace == s.trace + Mirror(WayDown(b, i, k))
    decreases k - i
  {
    hide ExitAll, Enters;
    if i < k {
      UpTrace(b, s, i + 1, k, fine);
      var s1 := Up(b, s, i + 1, k, fine);
      var s2 := if fine then Commit(s1, i, s1.current[i]) else s1;
      ExitTrace(b, s2, i, 0);
      MirrorConcat(Enters(b, i, 0) + [Checked(i)], WayDown(b, i + 1, k));
      MirrorConcat(Enters(b, i, 0), [Checked(i)]);
      assert Mirror([Checked(i)]) == [];
    }
  }

  // With hooks that forward, the events are those of the way down, the batch if every check passed, and the
  // exits in exact reverse. The way down ends at the first builder whose check fails, if any.
  lemma OrderOfEvents(b: Bulk, s: State)
    requires Shaped(b, s) && |b.hooks| > 0 && OwnMutations(s, 0) && ForwardsBetween(b, 0, |b.hooks|)
    requires forall j | 0 <= j < |s.current| :: s.current[j].ofComponents
    ensures var r := Mutate(b, s, 0, 0, s.current[0]).0;
            if AllAccepted(b, s, |b.hooks|) then
              var down := WayDown(b, 0, |b.hooks|);
              r.trace == s.trace + down + [Batched] + Mirror(down)
            else
              exists k | 0 <= k < |b.hooks| ::
                && AllAccepted(b, s, k) && !Accepted(b, s, k)
                && r.trace == s.trace + WayDown(b, 0, k + 1) + Mirror(WayDown(b, 0, k + 1))
  {
    hide Check, NodeOf, SpecOf, Mutate, Sound, EnterAll, ExitAll, Down, Up, FieldsOf, Accepted, Mirror, WayDown;
    StartsSound(b, s, false);
    var n := |b.hooks|;
    ChainIsPasses(b, s, 0, n);
    DownFields(b, s, 0, n);
    DownTrace(b, s, 0, n);
    var p := Down(b, s, 0, n);
    if p.failure.Some? {
      ExitTrace(b, p.state, p.stop, 0);
      ExitAllKeeps(b, p.state, p.stop, 0);
      UpTrace(b, ExitAll(b, p.state, p.stop, 0), 0, p.stop, false);
      WayDownMore(b, 0, p.stop);
    } else {
      var (t, o) := BatchCreate(b, p.state);
      UpTrace(b, t, 0, n, o.Fine?);
    }
  }

  lemma {:induction false} WayDownOneMore(b: Bulk, i: nat, k: nat)
    requires i <= k < |b.hooks|
    ensures WayDown(b, i, k + 1) == WayDown(b, i, k) + Enters(b, k, 0) + [Checked(k)]
    decreases k - i
  {
    hide Enters;
    if i < k {
      WayDownOneMore(b, i + 1, k);
    } else {
      assert WayDown(b, k + 1, k + 1) == [];
    }
  }

  lemma WayDownMore(b: Bulk, i: nat, k: nat)
    requires i <= k < |b.hooks|
    ensures WayDown(b, i, k + 1) == WayDown(b, i, k) + Enters(b, k, 0) + [Checked(k)]
    ensures Mirror(WayDown(b, i, k + 1)) == Mirror(Enters(b, k, 0)) + Mirror(WayDown(b, i, k))
  {
    hide Enters, WayDown;
    WayDownOneMore(b, i, k);
    MirrorConcat(WayDown(b, i, k) + Enters(b, k, 0), [Checked(k)]);
    MirrorConcat(WayDown(b, i, k), Enters(b, k, 0));
    assert Mirror([Checked(k)]) == [];
  }

  // ----- a whole save -----

  // The fields of builder j when its check runs: what was set, its defaults, the edits of its hooks.
  function SavedFields(b: Bulk, s: State, envs: seq<Env>, j: nat): Fields
    requires j < |b.hooks| == |s.current| == |envs|
  {
    EditAll(b.hooks[j], Defaults(s.At(s.current[j]).fields, envs[j]))
  }

  lemma {:induction false} PrepareFields(b: Bulk, s: State, envs: seq<Env>, i: nat)
    requires Shaped(b, s) && |envs| == |b.hooks| && i <= |b.hooks| && OwnMutations(s, 0)
    ensures var (r, wrapped) := Prepare(b, s, envs, i);
            && r == s.(muts := r.muts)
            && (forall m :: r.At(m).done == s.At(m).done)
            && (wrapped <==> forall j | i <= j < |b.hooks| :: !HasNil(b.hooks[j]))
            && (forall j | 0 <= j < i :: r.At(s.current[j]) == s.At(s.current[j]))
            && (wrapped ==> forall j | i <= j < |b.hooks| ::
                  r.At(s.current[j]).fields == Defaults(s.At(s.current[j]).fields, envs[j]))
    decreases |b.hooks| - i
  {
    hide Defaults, HasNil;
    if i < |b.hooks| && !HasNil(b.hooks[i]) {
      var m := s.current[i];
      PrepareFields(b, s.Write(m, Defaults(s.At(m).fields, envs[i])), envs, i + 1);
    }
  }

  lemma ForwardersAreSet(hooks: seq<Hook>)
    requires ForwardsFrom(hooks, 0)
    ensures !HasNil(hooks)
  {
    forall h | 0 <= h < |hooks| ensures !hooks[h].NilHook? {
      assert Forwards(hooks[h]);
    }
  }

  ghost predicate AllPass(b: Bulk, s: State, envs: seq<Env>)
    requires Shaped(b, s) && |envs| == |b.hooks|
  {
    forall j | 0 <= j < |b.hooks| :: s.current[j].ofComponents && Check(SavedFields(b, s, envs, j)).None?
  }

  function SavedSpecs(b: Bulk, s: State, envs: seq<Env>): seq<Option<CreateSpec>>
    requires Shaped(b, s) && |envs| == |b.hooks|
  {
    seq(|b.hooks|, j requires 0 <= j < |b.hooks| => Some(SpecOf(SavedFields(b, s, envs, j))))
  }

  // Creating in bulk is all or nothing when hooks forward: it succeeds exactly when the fields of every
  // builder pass, after defaults and hooks, and the store takes them; then exactly one batch is stored, with
  // every builder's specification in order, and every mutation is marked. Otherwise nothing is stored and no
  // mark changes. An empty bulk succeeds without a batch.
  lemma BulkAllOrNothing(b: Bulk, s: State, envs: seq<Env>)
    requires Shaped(b, s) && |envs| == |b.hooks| && OwnMutations(s, 0) && ForwardsBetween(b, 0, |b.hooks|)
    ensures var (r, result) := Save(b, s, envs);
            var n := |b.hooks|;
            && (result.Saved? <==> n == 0 || (AllPass(b, s, envs) && b.refuses(s.batches, SavedSpecs(b, s, envs)).None?))
            && r.batches == (if result.Saved? && n > 0 then s.batches + [SavedSpecs(b, s, envs)] else s.batches)
            && (result.Saved? ==> |result.nodes| == n && forall j | 0 <= j < n ::
                  r.At(s.current[j]).done && result.nodes[j] == Some(NodeOf(SavedFields(b, s, envs, j))))
            && (!result.Saved? ==> result.Failed? && forall m :: r.At(m).done == s.At(m).done)
  {
    hide Check, NodeOf, SpecOf, Mutate, Prepare, AllPass, AllAccepted, AllSpecs;
    hide SavedSpecs, SavedFields, FieldsOf, State.At, HasNil, ForwardsFrom, Sound;
    PrepareFields(b, s, envs, 0);
    forall j | 0 <= j < |b.hooks| ensures !HasNil(b.hooks[j]) {
      ForwardersAreSet(b.hooks[j]);
    }
    var s1 := Prepare(b, s, envs, 0).0;
    PreparedIs(b, s, s1, envs);
    if |b.hooks| > 0 {
      AllOrNothing(b, s1);
    } else {
      assert |s.current| == 0;
    }
  }

  lemma PreparedIs(b: Bulk, s: State, s1: State, envs: seq<Env>)
    requires Shaped(b, s) && |envs| == |b.hooks| && s1 == s.(muts := s1.muts)
    requires forall j | 0 <= j < |b.hooks| ::
               s1.At(s.current[j]).fields == Defaults(s.At(s.current[j]).fields, envs[j])
    ensures Shaped(b, s1)
    ensures AllSpecs(b, s1) == SavedSpecs(b, s, envs)
    ensures AllAccepted(b, s1, |b.hooks|) <==> AllPass(b, s, envs)
    ensures forall j | 0 <= j < |b.hooks| :: FieldsOf(b, s1, j) == SavedFields(b, s, envs, j)
  {
    hide Check, NodeOf, SpecOf, EditAll, Defaults, State.At;
    forall j | 0 <= j < |b.hooks|
      ensures FieldsOf(b, s1, j) == SavedFields(b, s, envs, j)
      ensures AllSpecs(b, s1)[j] == SavedSpecs(b, s, envs)[j]
    {
      assert s1.current[j] == s.current[j];
    }
    assert AllSpecs(b, s1) == SavedSpecs(b, s, envs);
    forall j | 0 <= j < |b.hooks|
      ensures Accepted(b, s1, j) <==> s.current[j].ofComponents && Check(SavedFields(b, s, envs, j)).None?
    {
      assert FieldsOf(b, s1, j) == SavedFields(b, s, envs, j);
    }
  }
}
