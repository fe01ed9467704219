/** Creating components in bulk: the hooks of every builder around the check of every builder, and one
  * batch at the innermost point. */
module Create {
  import opened Schema
  import opened Codec

  /** The values a hook can be given back. */
  datatype Reply = Nothing | Created(fields: Fields) | Foreign

  datatype StoreError = ConstraintFailed | StoreFailed

  datatype Error =
    | Invalid(error: ValidationError)
    | ConstraintError
    | DriverError
    | UnexpectedMutation
    | UnexpectedNode
    | UninitializedHook
    | HookError(code: nat)

  datatype Outcome = Fine(reply: Reply) | Fail(error: Error)

  class Mutation {
    // False of a mutation of another entity.
    const ofComponents: bool
    var fields: Fields
    var done: bool

    constructor (fields: Fields, ofComponents: bool)
      ensures this.fields == fields && !done && this.ofComponents == ofComponents
    {
      this.fields, this.ofComponents, done := fields, ofComponents, false;
    }
  }

  /** What a hook does next. A call writes the hook's changes to the mutation and hands the next mutator
    * that mutation, or another one. */
  datatype Move = Return(outcome: Outcome) | Call(fields: Fields, other: Option<Mutation>)

  /** A hook decides from the replies of its calls so far and the fields it sees, and calls a bounded
    * number of times. */
  datatype Hook =
    | NilHook
    | Hook(calls: nat, decide: (seq<Outcome>, Fields) -> Move, answer: (seq<Outcome>, Fields) -> Outcome)

  function Decide(hook: Hook, replies: seq<Outcome>, f: Fields): Move {
    if hook.NilHook? then Return(Fail(UninitializedHook))
    else if |replies| < hook.calls then hook.decide(replies, f)
    else Return(hook.answer(replies, f))
  }

  datatype Mut = Mut(fields: Fields, done: bool)

  datatype Event = Enter(i: nat, h: nat) | Exit(i: nat, h: nat) | Checked(i: nat) | Batched

  /** The state a bulk runs on: the mutations, the mutation of each builder, the nodes and specifications
    * filled so far, the batches stored, and what happened in which order. */
  datatype State = State(
    muts: map<Mutation, Mut>,
    current: seq<Mutation>,
    nodes: seq<Option<Fields>>,
    specs: seq<Option<CreateSpec>>,
    batches: seq<seq<Option<CreateSpec>>>,
    trace: seq<Event>)
  {
    function At(m: Mutation): Mut {
      if m in muts then muts[m] else Mut(map[], false)
    }

    function Log(event: Event): State {
      this.(trace := trace + [event])
    }

    function Write(m: Mutation, f: Fields): State {
      this.(muts := muts[m := At(m).(fields := f)])
    }
  }

  /** What does not change during a bulk: the hooks of each builder, and which batches the store refuses. */
  datatype Bulk = Bulk(
    hooks: seq<seq<Hook>>,
    refuses: (seq<seq<Option<CreateSpec>>>, seq<Option<CreateSpec>>) -> Option<StoreError>)

  predicate Shaped(b: Bulk, s: State) {
    |s.current| == |s.nodes| == |s.specs| == |b.hooks|
  }

  // The insert: all specifications in one batch, or none.
  function BatchCreate(b: Bulk, s: State): (State, Outcome) {
    match b.refuses(s.batches, s.specs)
    case None => (s.Log(Batched).(batches := s.batches + [s.specs]), Fine(Nothing))
    case Some(ConstraintFailed) => (s.Log(Batched), Fail(ConstraintError))
    case Some(StoreFailed) => (s.Log(Batched), Fail(DriverError))
  }

  // Builder i takes the mutation it was called with, and fills its node and its specification from it.
  function Adopt(s: State, i: nat, m: Mutation): State
    requires i < |s.current| == |s.nodes| == |s.specs|
  {
    var f := s.At(m).fields;
    s.Log(Checked(i)).(
      current := s.current[i := m],
      nodes := s.nodes[i := Some(NodeOf(f))],
      specs := s.specs[i := Some(SpecOf(f))])
  }

  // The marks after a successful save.
  function Commit(s: State, i: nat, m: Mutation): State
    requires i < |s.nodes|
  {
    var id := if s.nodes[i].Some? && Id in s.nodes[i].value then s.nodes[i].value[Id] else UuidC(ZERO_UUID);
    s.(muts := s.muts[m := Mut(s.At(m).fields[Id := id], true)])
  }

  /** The mutator of builder i from its hook h inwards. */
  function Mutate(b: Bulk, s: State, i: nat, h: nat, m: Mutation): (r: (State, Outcome))
    requires Shaped(b, s) && i < |b.hooks| && h <= |b.hooks[i]|
    ensures Shaped(b, r.0)
    decreases |b.hooks| - i, |b.hooks[i]| - h
  {
    if h == |b.hooks[i]| then Innermost(b, s, i, m)
    else
      var (s1, o) := Perform(b, s.Log(Enter(i, h)), i, h, m, []);
      (s1.Log(Exit(i, h)), o)
  }

  function Perform(b: Bulk, s: State, i: nat, h: nat, m: Mutation, replies: seq<Outcome>): (r: (State, Outcome))
    requires Shaped(b, s) && i < |b.hooks| && h < |b.hooks[i]|
    requires b.hooks[i][h].Hook? ==> |replies| <= b.hooks[i][h].calls
    ensures Shaped(b, r.0)
    decreases |b.hooks| - i, |b.hooks[i]| - h, if b.hooks[i][h].Hook? then b.hooks[i][h].calls - |replies| else 0
  {
    match Decide(b.hooks[i][h], replies, s.At(m).fields)
    case Return(o) => (s, o)
    case Call(f, other) =>
      var (s1, o) := Mutate(b, s.Write(m, f), i, h + 1, if other.Some? then other.value else m);
      Perform(b, s1, i, h, m, replies + [o])
  }

  function Innermost(b: Bulk, s: State, i: nat, m: Mutation): (r: (State, Outcome))
    requires Shaped(b, s) && i < |b.hooks|
    ensures Shaped(b, r.0)
    decreases |b.hooks| - i, 0, 0
  {
    hide Check, NodeOf, SpecOf;
    if !m.ofComponents then (s, Fail(UnexpectedMutation))
    else
      var failure := Check(s.At(s.current[i]).fields);
      if failure.Some? then (s.Log(Checked(i)), Fail(Invalid(failure.value)))
      else
        var s1 := Adopt(s, i, m);
        var (s2, o) := if i < |b.hooks| - 1 then Mutate(b, s1, i + 1, 0, s1.current[i + 1]) else BatchCreate(b, s1);
        if o.Fail? then (s2, o)
        else (Commit(s2, i, m), Fine(if s2.nodes[i].Some? then Created(s2.nodes[i].value) else Nothing))
  }

  // ----- saving a bulk -----

  datatype SaveResult = Panicked | Failed(error: Error) | Saved(nodes: seq<Option<Fields>>)

  predicate HasNil(hooks: seq<Hook>) {
    exists h :: 0 <= h < |hooks| && hooks[h].NilHook?
  }

  // Defaults are filled in builder by builder, before any mutator runs. Wrapping a nil hook panics, at the
  // builder that has it.
  function Prepare(b: Bulk, s: State, envs: seq<Env>, i: nat): (r: (State, bool))
    requires Shaped(b, s) && |envs| == |b.hooks| && i <= |b.hooks|
    ensures Shaped(b, r.0)
    decreases |b.hooks| - i
  {
    if i == |b.hooks| then (s, true)
    else
      var m := s.current[i];
      var s1 := s.Write(m, Defaults(s.At(m).fields, envs[i]));
      if HasNil(b.hooks[i]) then (s1, false) else Prepare(b, s1, envs, i + 1)
  }

  function Save(b: Bulk, s: State, envs: seq<Env>): (r: (State, SaveResult))
    requires Shaped(b, s) && |envs| == |b.hooks|
  {
    var (s1, wrapped) := Prepare(b, s, envs, 0);
    if !wrapped then (s1, Panicked)
    else if |b.hooks| == 0 then (s1, Saved([]))
    else
      var (s2, o) := Mutate(b, s1, 0, 0, s1.current[0]);
      (s2, if o.Fail? then Failed(o.error) else Saved(s2.nodes))
  }

  // ----- nesting, for every kind of hook -----

  // The hooks around hook h of builder i, outermost first: all hooks of the builders before, and its own before h.
  function Frames(b: Bulk, i: nat, h: nat): seq<(nat, nat)>
    requires i < |b.hooks|
    decreases i, h
  {
    if h > 0 then Frames(b, i, h - 1) + [(i, h - 1)]
    else if i > 0 then Frames(b, i - 1, |b.hooks[i - 1]|)
    else []
  }

  // The hooks still open after an event. A hook opens, a check happens and the batch happens only at their
  // one place in the nesting; an exit closes the innermost open hook.
  function OpenAfter(b: Bulk, open: seq<(nat, nat)>, event: Event): Option<seq<(nat, nat)>> {
    match event
    case Enter(i, h) => if i < |b.hooks| && open == Frames(b, i, h) then Some(open + [(i, h)]) else None
    case Exit(i, h) => if |open| > 0 && open[|open| - 1] == (i, h) then Some(open[..|open| - 1]) else None
    case Checked(i) => if i < |b.hooks| && open == Frames(b, i, |b.hooks[i]|) then Some(open) else None
    case Batched =>
      if |b.hooks| > 0 && open == Frames(b, |b.hooks| - 1, |b.hooks[|b.hooks| - 1]|) then Some(open) else None
  }

  // The hooks open at the end of a trace, or None when the trace is not well nested.
  function Open(b: Bulk, trace: seq<Event>): Option<seq<(nat, nat)>> {
    if trace == [] then Some([])
    else
      var before := Open(b, trace[..|trace| - 1]);
      if before.None? then None else OpenAfter(b, before.value, trace[|trace| - 1])
  }

  lemma OpenLog(b: Bulk, s: State, event: Event)
    requires Open(b, s.trace).Some?
    ensures Open(b, s.Log(event).trace) == OpenAfter(b, Open(b, s.trace).value, event)
  {
    assert s.Log(event).trace[..|s.trace|] == s.trace;
  }

  // Whatever the hooks do, the trace is well nested and every hook entered is left.
  lemma {:induction false} Nested(b: Bulk, s: State, i: nat, h: nat, m: Mutation)
    requires Shaped(b, s) && i < |b.hooks| && h <= |b.hooks[i]|
    requires Open(b, s.trace) == Some(Frames(b, i, h))
    ensures Open(b, Mutate(b, s, i, h, m).0.trace) == Some(Frames(b, i, h))
    decreases |b.hooks| - i, |b.hooks[i]| - h
  {
    hide Perform, Innermost, OpenAfter, Open;
    if h == |b.hooks[i]| {
      NestedInnermost(b, s, i, m);
    } else {
      var s1 := s.Log(Enter(i, h));
      OpenLog(b, s, Enter(i, h));
      assert OpenAfter(b, Frames(b, i, h), Enter(i, h)) == Some(Frames(b, i, h + 1)) by { NestingSteps(b, i, h); }
      NestedPerform(b, s1, i, h, m, []);
      var s2 := Perform(b, s1, i, h, m, []).0;
      OpenLog(b, s2, Exit(i, h));
      NestingSteps(b, i, h);
    }
  }

  lemma NestingSteps(b: Bulk, i: nat, h: nat)
    requires i < |b.hooks|
    ensures OpenAfter(b, Frames(b, i, h), Enter(i, h)) == Some(Frames(b, i, h + 1))
    ensures OpenAfter(b, Frames(b, i, h + 1), Exit(i, h)) == Some(Frames(b, i, h))
  {
    assert (Frames(b, i, h) + [(i, h)])[..|Frames(b, i, h)|] == Frames(b, i, h);
  }

  lemma {:induction false} NestedPerform(b: Bulk, s: State, i: nat, h: nat, m: Mutation, replies: seq<Outcome>)
    requires Shaped(b, s) && i < |b.hooks| && h < |b.hooks[i]|
    requires b.hooks[i][h].Hook? ==> |replies| <= b.hooks[i][h].calls
    requires Open(b, s.trace) == Some(Frames(b, i, h + 1))
    ensures Open(b, Perform(b, s, i, h, m, replies).0.trace) == Some(Frames(b, i, h + 1))
    decreases |b.hooks| - i, |b.hooks[i]| - h, if b.hooks[i][h].Hook? then b.hooks[i][h].calls - |replies| else 0
  {
    hide Mutate, Frames, Open, OpenAfter;
    match Decide(b.hooks[i][h], replies, s.At(m).fields) {
      case Return(_) =>
      case Call(f, other) =>
        var to := if other.Some? then other.value else m;
        Nested(b, s.Write(m, f), i, h + 1, to);
        var r := Mutate(b, s.Write(m, f), i, h + 1, to);
        NestedPerform(b, r.0, i, h, m, replies + [r.1]);
    }
  }

  lemma {:induction false} NestedInnermost(b: Bulk, s: State, i: nat, m: Mutation)
    requires Shaped(b, s) && i < |b.hooks|
    requires Open(b, s.trace) == Some(Frames(b, i, |b.hooks[i]|))
    ensures Open(b, Innermost(b, s, i, m).0.trace) == Some(Frames(b, i, |b.hooks[i]|))
    decreases |b.hooks| - i, 0, 0
  {
    hide Mutate, Check, NodeOf, SpecOf, Open;
    OpenLog(b, s, Checked(i));
    if m.ofComponents && Check(s.At(s.current[i]).fields).None? {
      var s1 := Adopt(s, i, m);
      if i < |b.hooks| - 1 {
        assert Frames(b, i + 1, 0) == Frames(b, i, |b.hooks[i]|);
        Nested(b, s1, i + 1, 0, s1.current[i + 1]);
      } else {
        OpenLog(b, s1, Batched);
      }
    }
  }

  // ----- what reaches the store, for every kind of hook -----

  // A hook that always passes on the mutation it was given.
  ghost predicate NeverSubstitutes(hook: Hook) {
    forall replies, f :: var move := Decide(hook, replies, f); move.Call? ==> move.other.None?
  }

  // A specification is there; and, when asked, it is that of fields that pass the check.
  ghost predicate Good(spec: Option<CreateSpec>, checked: bool) {
    spec.Some? && (checked ==> exists f :: spec.value == SpecOf(f) && Check(f).None?)
  }

  ghost predicate AllGood(specs: seq<Option<CreateSpec>>, i: nat, checked: bool)
    requires i <= |specs|
  {
    forall j | 0 <= j < i :: Good(specs[j], checked)
  }

  // Every batch stored from a point on is complete, and so are the specifications of the builders before i.
  ghost predicate Sound(b: Bulk, s: State, i: nat, checked: bool, from: nat) {
    && Shaped(b, s) && i <= |b.hooks| && AllGood(s.specs, i, checked)
    && from <= |s.batches|
    && forall k | from <= k < |s.batches| :: |s.batches[k]| == |b.hooks| && AllGood(s.batches[k], |b.hooks|, checked)
  }

  ghost predicate NoneSubstitutes(b: Bulk) {
    forall i, h | 0 <= i < |b.hooks| && 0 <= h < |b.hooks[i]| :: NeverSubstitutes(b.hooks[i][h])
  }

  // At the start nothing is asked of the state, nor of what was stored before.
  lemma StartsSound(b: Bulk, s: State, checked: bool)
    requires Shaped(b, s)
    ensures Sound(b, s, 0, checked, |s.batches|)
  {
  }

  // From one state to a later one what the builders before i filled stays, and every batch stored carries it.
  ghost predicate Carries(b: Bulk, s: State, r: State, i: nat) {
    && Shaped(b, s) && Shaped(b, r) && i <= |b.hooks|
    && r.specs[..i] == s.specs[..i] && r.current[..i] == s.current[..i]
    && s.batches <= r.batches
    && forall k | |s.batches| <= k < |r.batches| :: |r.batches[k]| == |b.hooks| && r.batches[k][..i] == s.specs[..i]
  }

  lemma CarriesOn(b: Bulk, s: State, t: State, r: State, i: nat, j: nat)
    requires Carries(b, s, t, i) && Carries(b, t, r, j) && i <= j
    ensures Carries(b, s, r, i)
  {
    assert r.specs[..i] == r.specs[..j][..i] && t.specs[..i] == t.specs[..j][..i];
    assert r.current[..i] == r.current[..j][..i] && t.current[..i] == t.current[..j][..i];
    forall k | |s.batches| <= k < |r.batches| ensures r.batches[k][..i] == s.specs[..i] {
      if k >= |t.batches| {
        assert r.batches[k][..i] == r.batches[k][..j][..i];
      }
    }
  }

  // Whatever the hooks do, a stored batch has the specification of every builder, the one at hand when the
  // batch was reached. When no hook substitutes another mutation, each is that of fields that passed the check.
  lemma {:induction false} BatchesAreSound(b: Bulk, s: State, i: nat, h: nat, m: Mutation, checked: bool, from: nat)
    requires Sound(b, s, i, checked, from) && i < |b.hooks| && h <= |b.hooks[i]|
    requires checked ==> NoneSubstitutes(b) && m == s.current[i]
    ensures Sound(b, Mutate(b, s, i, h, m).0, i, checked, from) && Carries(b, s, Mutate(b, s, i, h, m).0, i)
    ensures checked ==> Mutate(b, s, i, h, m).0.current == s.current
    decreases |b.hooks| - i, |b.hooks[i]| - h
  {
    hide Perform, Innermost, Good, NoneSubstitutes, AllGood;
    if h == |b.hooks[i]| {
      SoundInnermost(b, s, i, m, checked, from);
    } else {
      SoundPerform(b, s.Log(Enter(i, h)), i, h, m, [], checked, from);
    }
  }

  lemma {:induction false} SoundPerform(b: Bulk, s: State, i: nat, h: nat, m: Mutation, replies: seq<Outcome>, checked: bool, from: nat)
    requires Sound(b, s, i, checked, from) && i < |b.hooks| && h < |b.hooks[i]|
    requires b.hooks[i][h].Hook? ==> |replies| <= b.hooks[i][h].calls
    requires checked ==> NoneSubstitutes(b) && m == s.current[i]
    ensures Sound(b, Perform(b, s, i, h, m, replies).0, i, checked, from) && Carries(b, s, Perform(b, s, i, h, m, replies).0, i)
    ensures checked ==> Perform(b, s, i, h, m, replies).0.current == s.current
    decreases |b.hooks| - i, |b.hooks[i]| - h, if b.hooks[i][h].Hook? then b.hooks[i][h].calls - |replies| else 0
  {
    hide Mutate, Good, AllGood;
    match Decide(b.hooks[i][h], replies, s.At(m).fields) {
      case Return(_) =>
      case Call(f, other) =>
        var to := if other.Some? then other.value else m;
        assert checked ==> NeverSubstitutes(b.hooks[i][h]);
        var s1 := s.Write(m, f);
        BatchesAreSound(b, s1, i, h + 1, to, checked, from);
        var r := Mutate(b, s1, i, h + 1, to);
        SoundPerform(b, r.0, i, h, m, replies + [r.1], checked, from);
        hide Carries, Sound;
        CarriesOn(b, s1, r.0, Perform(b, r.0, i, h, m, replies + [r.1]).0, i, i);
        CarriesFrom(b, s, s1, Perform(b, r.0, i, h, m, replies + [r.1]).0, i);
    }
  }

  lemma CarriesFrom(b: Bulk, s: State, t: State, r: State, i: nat)
    requires Carries(b, t, r, i) && Shaped(b, s) && s.specs == t.specs && s.batches == t.batches
    requires s.current == t.current
    ensures Carries(b, s, r, i)
  {
  }

  lemma Adopted(b: Bulk, s: State, i: nat, m: Mutation, checked: bool, from: nat)
    requires Sound(b, s, i, checked, from) && i < |b.hooks|
    requires checked ==> Check(s.At(m).fields).None?
    ensures var s1 := Adopt(s, i, m);
            && Shaped(b, s1) && Sound(b, s1, i + 1, checked, from) && s1.specs[..i] == s.specs[..i] && s1.batches == s.batches
            && s1.current[..i] == s.current[..i]
            && (m == s.current[i] ==> s1.current == s.current)
  {
    hide Check, NodeOf, SpecOf;
    var s1 := Adopt(s, i, m);
    assert Good(s1.specs[i], checked);
  }

  lemma {:induction false} SoundInnermost(b: Bulk, s: State, i: nat, m: Mutation, checked: bool, from: nat)
    requires Sound(b, s, i, checked, from) && i < |b.hooks|
    requires checked ==> NoneSubstitutes(b) && m == s.current[i]
    ensures Sound(b, Innermost(b, s, i, m).0, i, checked, from) && Carries(b, s, Innermost(b, s, i, m).0, i)
    ensures checked ==> Innermost(b, s, i, m).0.current == s.current
    decreases |b.hooks| - i, 0, 0
  {
    hide Mutate, Check, NodeOf, SpecOf, NoneSubstitutes, Good, BatchCreate, Adopt, Commit, Carries, Sound;
    Unmoved(b, s, i, checked, from);
    if m.ofComponents && Check(s.At(s.current[i]).fields).None? {
      Adopted(b, s, i, m, checked, from);
      var s1 := Adopt(s, i, m);
      if i < |b.hooks| - 1 {
        BatchesAreSound(b, s1, i + 1, 0, s1.current[i + 1], checked, from);
        Committed(b, s, s1, Mutate(b, s1, i + 1, 0, s1.current[i + 1]).0, i, m, checked, from);
      } else {
        SoundBatch(b, s1, checked, from);
        Committed(b, s, s1, BatchCreate(b, s1).0, i, m, checked, from);
      }
    }
  }

  lemma Unmoved(b: Bulk, s: State, i: nat, checked: bool, from: nat)
    requires Sound(b, s, i, checked, from) && i < |b.hooks|
    ensures Shaped(b, s) && Carries(b, s, s, i)
    ensures Sound(b, s.Log(Checked(i)), i, checked, from) && Carries(b, s, s.Log(Checked(i)), i)
  {
    hide Good;
  }

  // Back from the builders after i, whether or not builder i is then marked.
  lemma Committed(b: Bulk, s: State, s1: State, r: State, i: nat, m: Mutation, checked: bool, from: nat)
    requires i < |b.hooks| && Shaped(b, s) && Shaped(b, s1) && s1.specs[..i] == s.specs[..i] && s1.batches == s.batches
    requires s1.current[..i] == s.current[..i]
    requires Sound(b, r, i + 1, checked, from) && Carries(b, s1, r, i + 1)
    ensures Sound(b, r, i, checked, from) && Carries(b, s, r, i)
    ensures var t := Commit(r, i, m); Sound(b, t, i, checked, from) && Carries(b, s, t, i) && t.current == r.current
  {
    hide Good, Adopt;
    CarriesOn(b, s1, s1, r, i, i + 1);
  }

  lemma SoundBatch(b: Bulk, s: State, checked: bool, from: nat)
    requires Sound(b, s, |b.hooks|, checked, from)
    ensures Sound(b, BatchCreate(b, s).0, |b.hooks|, checked, from) && Carries(b, s, BatchCreate(b, s).0, |b.hooks|)
    ensures BatchCreate(b, s).0.current == s.current
  {
    hide Good;
  }

  // The check looks at the builder's mutation, and the specification is made from the one handed down. So
  // every batch stored under builder i carries what the mutation handed down sets, and needs only the
  // builder's own fields to pass.
  lemma HandedDown(b: Bulk, s: State, i: nat, m: Mutation)
    requires Sound(b, s, i, false, |s.batches|) && i < |b.hooks|
    ensures var r := Innermost(b, s, i, m).0;
            && s.batches <= r.batches
            && (|r.batches| > |s.batches| ==> m.ofComponents && Check(s.At(s.current[i]).fields).None?)
            && forall k | |s.batches| <= k < |r.batches| ::
                 |r.batches[k]| == |b.hooks| && r.batches[k][i] == Some(SpecOf(s.At(m).fields))
  {
    hide Mutate, Check, NodeOf, SpecOf, Good, BatchCreate;
    if m.ofComponents && Check(s.At(s.current[i]).fields).None? {
      var s1 := Adopt(s, i, m);
      Adopted(b, s, i, m, false, |s.batches|);
      if i < |b.hooks| - 1 {
        BatchesAreSound(b, s1, i + 1, 0, s1.current[i + 1], false, |s.batches|);
        CarriedAt(b, s1, Mutate(b, s1, i + 1, 0, s1.current[i + 1]).0, i);
      } else {
        SoundBatch(b, s1, false, |s.batches|);
        CarriedAt(b, s1, BatchCreate(b, s1).0, i);
      }
    }
  }

  lemma CarriedAt(b: Bulk, s: State, r: State, i: nat)
    requires i < |b.hooks| && Carries(b, s, r, i + 1)
    ensures forall k | |s.batches| <= k < |r.batches| :: |r.batches[k]| == |b.hooks| && r.batches[k][i] == s.specs[i]
  {
    forall k | |s.batches| <= k < |r.batches| ensures r.batches[k][i] == s.specs[i] {
      assert r.batches[k][i] == r.batches[k][..i + 1][i] && s.specs[i] == s.specs[..i + 1][i];
    }
  }

  // ----- success and storage, for honest hooks -----

  ghost predicate AnyFine(replies: seq<Outcome>) {
    exists k :: 0 <= k < |replies| && replies[k].Fine?
  }

  // A hook that reports success exactly when one of its calls did.
  ghost predicate Honest(hook: Hook) {
    forall replies, f ::
      var move := Decide(hook, replies, f);
      move.Return? ==> (move.outcome.Fine? <==> AnyFine(replies))
  }

  ghost predicate AllHonest(b: Bulk) {
    forall i, h | 0 <= i < |b.hooks| && 0 <= h < |b.hooks[i]| :: Honest(b.hooks[i][h])
  }

  // With honest hooks, however often they call, the bulk succeeds exactly when a batch was stored.
  lemma {:induction false} SuccessMeansStored(b: Bulk, s: State, i: nat, h: nat, m: Mutation)
    requires Shaped(b, s) && i < |b.hooks| && h <= |b.hooks[i]| && AllHonest(b)
    ensures var r := Mutate(b, s, i, h, m);
            && s.batches <= r.0.batches
            && (r.1.Fine? <==> |r.0.batches| > |s.batches|)
    decreases |b.hooks| - i, |b.hooks[i]| - h
  {
    hide Perform, Innermost, AllHonest;
    if h == |b.hooks[i]| {
      StoredInnermost(b, s, i, m);
    } else {
      StoredPerform(b, s.Log(Enter(i, h)), i, h, m, [], s.batches);
    }
  }

  lemma {:induction false} StoredPerform(b: Bulk, s: State, i: nat, h: nat, m: Mutation, replies: seq<Outcome>,
                                         before: seq<seq<Option<CreateSpec>>>)
    requires Shaped(b, s) && i < |b.hooks| && h < |b.hooks[i]| && AllHonest(b)
    requires b.hooks[i][h].Hook? ==> |replies| <= b.hooks[i][h].calls
    requires before <= s.batches && (AnyFine(replies) <==> |s.batches| > |before|)
    ensures var r := Perform(b, s, i, h, m, replies);
            && before <= r.0.batches
            && (r.1.Fine? <==> |r.0.batches| > |before|)
    decreases |b.hooks| - i, |b.hooks[i]| - h, if b.hooks[i][h].Hook? then b.hooks[i][h].calls - |replies| else 0
  {
    hide Mutate;
    assert Honest(b.hooks[i][h]);
    match Decide(b.hooks[i][h], replies, s.At(m).fields) {
      case Return(_) =>
      case Call(f, other) =>
        var to := if other.Some? then other.value else m;
        SuccessMeansStored(b, s.Write(m, f), i, h + 1, to);
        var r := Mutate(b, s.Write(m, f), i, h + 1, to);
        AnyFineMore(replies, r.1);
        StoredPerform(b, r.0, i, h, m, replies + [r.1], before);
    }
  }

  lemma AnyFineMore(replies: seq<Outcome>, o: Outcome)
    ensures AnyFine(replies + [o]) <==> AnyFine(replies) || o.Fine?
  {
    if AnyFine(replies) {
      var k :| 0 <= k < |replies| && replies[k].Fine?;
      assert (replies + [o])[k].Fine?;
    }
    assert (replies + [o])[|replies|] == o;
  }

  lemma {:induction false} StoredInnermost(b: Bulk, s: State, i: nat, m: Mutation)
    requires Shaped(b, s) && i < |b.hooks| && AllHonest(b)
    ensures var r := Innermost(b, s, i, m);
            && s.batches <= r.0.batches
            && (r.1.Fine? <==> |r.0.batches| > |s.batches|)
    decreases |b.hooks| - i, 0, 0
  {
    hide Mutate, Check, NodeOf, SpecOf, AllHonest;
    if m.ofComponents && Check(s.At(s.current[i]).fields).None? && i < |b.hooks| - 1 {
      var s1 := Adopt(s, i, m);
      SuccessMeansStored(b, s1, i + 1, 0, s1.current[i + 1]);
    }
  }

  // ----- hooks that forward once: the chain is two plain passes -----

  // A hook that edits the mutation it is given, calls once with it, and returns the reply.
  ghost predicate Forwards(hook: Hook) {
    && hook.Hook? && hook.calls > 0
    && (forall f :: hook.decide([], f).Call? && hook.decide([], f).other.None?)
    && (forall o, f :: Decide(hook, [o], f) == Return(o))
  }

  ghost predicate ForwardsFrom(hooks: seq<Hook>, h: nat) {
    forall k | h <= k < |hooks| :: Forwards(hooks[k])
  }

  // What the hook leaves in the mutation before it calls.
  function Edit(hook: Hook, f: Fields): Fields {
    if hook.Hook? && hook.decide([], f).Call? then hook.decide([], f).fields else f
  }

  function EditAll(hooks: seq<Hook>, f: Fields): Fields {
    if hooks == [] then f else EditAll(hooks[1..], Edit(hooks[0], f))
  }

  // The hooks of builder i from h on, entered one after the other.
  function EnterAll(b: Bulk, s: State, i: nat, h: nat, m: Mutation): State
    requires i < |b.hooks| && h <= |b.hooks[i]|
    decreases |b.hooks[i]| - h
  {
    if h == |b.hooks[i]| then s
    else EnterAll(b, s.Log(Enter(i, h)).Write(m, Edit(b.hooks[i][h], s.At(m).fields)), i, h + 1, m)
  }

  // The same hooks left, in reverse order.
  function ExitAll(b: Bulk, s: State, i: nat, h: nat): State
    requires i < |b.hooks| && h <= |b.hooks[i]|
    decreases |b.hooks[i]| - h
  {
    if h == |b.hooks[i]| then s else ExitAll(b, s, i, h + 1).Log(Exit(i, h))
  }

  /** Where the pass towards the batch stopped: before builder stop, or at its failing check. */
  datatype Passed = Passed(state: State, stop: nat, failure: Option<Error>)

  // The pass towards the batch, over the builders from i up to k.
  function Down(b: Bulk, s: State, i: nat, k: nat): (p: Passed)
    requires Shaped(b, s) && i <= k <= |b.hooks|
    ensures Shaped(b, p.state) && i <= p.stop <= k && (p.failure.Some? ==> p.stop < k)
    decreases k - i
  {
    hide Check, NodeOf, SpecOf;
    if i == k then Passed(s, i, None)
    else
      var m := s.current[i];
      var s1 := EnterAll(b, s, i, 0, m);
      EnterAllKeeps(b, s, i, 0, m);
      if !m.ofComponents then Passed(s1, i, Some(UnexpectedMutation))
      else
        var failure := Check(s1.At(m).fields);
        if failure.Some? then Passed(s1.Log(Checked(i)), i, Some(Invalid(failure.value)))
        else Down(b, Adopt(s1, i, m), i + 1, k)
  }

  // The way back, over the builders from k down to i: each is marked after a success, and its hooks are left.
  function Up(b: Bulk, s: State, i: nat, k: nat, fine: bool): (r: State)
    requires Shaped(b, s) && i <= k <= |b.hooks|
    ensures Shaped(b, r) && r.current == s.current
    decreases k - i
  {
    if i == k then s
    else
      var s1 := Up(b, s, i + 1, k, fine);
      var s2 := if fine then Commit(s1, i, s1.current[i]) else s1;
      ExitAllKeeps(b, s2, i, 0);
      ExitAll(b, s2, i, 0)
  }

  lemma {:induction false} EnterAllKeeps(b: Bulk, s: State, i: nat, h: nat, m: Mutation)
    requires i < |b.hooks| && h <= |b.hooks[i]|
    ensures var r := EnterAll(b, s, i, h, m);
            && r.current == s.current && r.nodes == s.nodes && r.specs == s.specs && r.batches == s.batches
            && (forall n :: n != m ==> r.At(n) == s.At(n))
            && r.At(m) == s.At(m).(fields := EditAll(b.hooks[i][h..], s.At(m).fields))
    decreases |b.hooks[i]| - h
  {
    if h < |b.hooks[i]| {
      var s1 := s.Log(Enter(i, h)).Write(m, Edit(b.hooks[i][h], s.At(m).fields));
      EnterAllKeeps(b, s1, i, h + 1, m);
      assert b.hooks[i][h..][1..] == b.hooks[i][h + 1..];
    }
  }

  lemma {:induction false} ExitAllKeeps(b: Bulk, s: State, i: nat, h: nat)
    requires i < |b.hooks| && h <= |b.hooks[i]|
    ensures var r := ExitAll(b, s, i, h);
            r == s.(trace := r.trace)
    decreases |b.hooks[i]| - h
  {
    if h < |b.hooks[i]| {
      ExitAllKeeps(b, s, i, h + 1);
    }
  }

  // The edits of forwarding hooks, one after the other: each sees what the one before it left.
  lemma {:induction false} EditsAre(hooks: seq<Hook>, f: Fields) returns (steps: seq<Fields>)
    requires ForwardsFrom(hooks, 0)
    ensures |steps| == |hooks| + 1 && steps[0] == f && steps[|hooks|] == EditAll(hooks, f)
    ensures forall k | 0 <= k < |hooks| :: hooks[k].Hook? && hooks[k].decide([], steps[k]) == Call(steps[k + 1], None)
    decreases |hooks|
  {
    steps := [f];
    if hooks != [] {
      assert Forwards(hooks[0]);
      assert forall k | 0 <= k < |hooks[1..]| :: hooks[1..][k] == hooks[k + 1];
      var rest := EditsAre(hooks[1..], Edit(hooks[0], f));
      steps := [f] + rest;
    }
  }

  // A forwarding hook enters, edits, calls the mutator inside it once, and leaves with its outcome.
  lemma ForwardStep(b: Bulk, s: State, i: nat, h: nat, m: Mutation)
    requires Shaped(b, s) && i < |b.hooks| && h < |b.hooks[i]| && Forwards(b.hooks[i][h])
    ensures var s1 := s.Log(Enter(i, h)).Write(m, Edit(b.hooks[i][h], s.At(m).fields));
            && Shaped(b, s1)
            && var (r, o) := Mutate(b, s1, i, h + 1, m);
               Mutate(b, s, i, h, m) == (r.Log(Exit(i, h)), o)
  {
    hide Innermost;
    var hook := b.hooks[i][h];
    var s0 := s.Log(Enter(i, h));
    var f := s0.At(m).fields;
    assert Decide(hook, [], f) == Call(Edit(hook, f), None);
    var (r, o) := Mutate(b, s0.Write(m, Edit(hook, f)), i, h + 1, m);
    assert [] + [o] == [o];
    assert Perform(b, r, i, h, m, [o]) == (r, o);
  }

  // Forwarding hooks do no more than enter, edit and leave.
  lemma {:induction false} HooksForward(b: Bulk, s: State, i: nat, h: nat, m: Mutation)
    requires Shaped(b, s) && i < |b.hooks| && h <= |b.hooks[i]| && ForwardsFrom(b.hooks[i], h)
    ensures var s1 := EnterAll(b, s, i, h, m);
            && Shaped(b, s1)
            && var (s2, o) := Innermost(b, s1, i, m);
               Mutate(b, s, i, h, m) == (ExitAll(b, s2, i, h), o)
    decreases |b.hooks[i]| - h
  {
    hide Innermost, Perform, Forwards;
    EnterAllKeeps(b, s, i, h, m);
    if h < |b.hooks[i]| {
      assert Forwards(b.hooks[i][h]);
      ForwardStep(b, s, i, h, m);
      HooksForward(b, s.Log(Enter(i, h)).Write(m, Edit(b.hooks[i][h], s.At(m).fields)), i, h + 1, m);
    }
  }

  // What comes after builder k - 1: the batch, or the chain of builder k.
  function Rest(b: Bulk, s: State, k: nat): (r: (State, Outcome))
    requires Shaped(b, s) && k <= |b.hooks|
    ensures Shaped(b, r.0)
  {
    if k == |b.hooks| then BatchCreate(b, s) else Mutate(b, s, k, 0, s.current[k])
  }

  ghost predicate ForwardsBetween(b: Bulk, i: nat, k: nat)
    requires i <= k <= |b.hooks|
  {
    forall j | i <= j < k :: ForwardsFrom(b.hooks[j], 0)
  }

  // The two passes that the chain of builders i to k amounts to.
  function Passes(b: Bulk, s: State, i: nat, k: nat): (r: (State, Option<Error>))
    requires Shaped(b, s) && i < k <= |b.hooks|
    ensures Shaped(b, r.0)
  {
    var p := Down(b, s, i, k);
    if p.failure.Some? then
      ExitAllKeeps(b, p.state, p.stop, 0);
      (Up(b, ExitAll(b, p.state, p.stop, 0), i, p.stop, false), p.failure)
    else
      var (s1, o) := Rest(b, p.state, k);
      (Up(b, s1, i, k, o.Fine?), if o.Fine? then None else Some(o.error))
  }

  // The chain of closures over builders that forward is the pass down, the rest, and the pass up.
  lemma {:induction false} ChainIsPasses(b: Bulk, s: State, i: nat, k: nat)
    requires Sound(b, s, i, false, |s.batches|) && i < k <= |b.hooks| && ForwardsBetween(b, i, k)
    ensures var (r, o) := Mutate(b, s, i, 0, s.current[i]);
            var (t, failure) := Passes(b, s, i, k);
            r == t && (if failure.Some? then o == Fail(failure.value) else o.Fine?)
    decreases k - i
  {
    hide Innermost, Mutate, Check, NodeOf, SpecOf, Sound, Adopt, Rest, Commit, EnterAll, ExitAll, BatchCreate, Passes;
    Unmoved(b, s, i, false, |s.batches|);
    var m := s.current[i];
    HooksForward(b, s, i, 0, m);
    EnterAllKeeps(b, s, i, 0, m);
    var s1 := EnterAll(b, s, i, 0, m);
    if !m.ofComponents || Check(s1.At(m).fields).Some? {
      StopsHere(b, s1, i, m);
      PassesStop(b, s, i, k);
    } else {
      PassesStep(b, s, i, k);
      var s2 := Adopt(s1, i, m);
      EnterSound(b, s, s1, i);
      Adopted(b, s1, i, m, false, |s.batches|);
      InnermostRest(b, s1, i, m);
      if i + 1 < k {
        assert s2.current[i + 1] == s.current[i + 1];
        ChainIsPasses(b, s2, i + 1, k);
        assert Rest(b, s2, i + 1) == Mutate(b, s2, i + 1, 0, s2.current[i + 1]) by { RestIs(b, s2, i + 1); }
      }
    }
  }

  lemma PassesStop(b: Bulk, s: State, i: nat, k: nat)
    requires Shaped(b, s) && i < k <= |b.hooks|
    requires var m := s.current[i]; !m.ofComponents || Check(EnterAll(b, s, i, 0, m).At(m).fields).Some?
    ensures var m := s.current[i];
            var s1 := EnterAll(b, s, i, 0, m);
            Passes(b, s, i, k) ==
              if !m.ofComponents then (ExitAll(b, s1, i, 0), Some(UnexpectedMutation))
              else (ExitAll(b, s1.Log(Checked(i)), i, 0), Some(Invalid(Check(s1.At(m).fields).value)))
  {
    hide Check, NodeOf, SpecOf, EnterAll, ExitAll;
  }

  lemma PassesStep(b: Bulk, s: State, i: nat, k: nat)
    requires Shaped(b, s) && i < k <= |b.hooks|
    requires var m := s.current[i]; m.ofComponents && Check(EnterAll(b, s, i, 0, m).At(m).fields).None?
    ensures var m := s.current[i];
            var s1 := EnterAll(b, s, i, 0, m);
            && Shaped(b, s1)
            && var s2 := Adopt(s1, i, m);
               var (s3, failure) :=
                 if i + 1 < k then Passes(b, s2, i + 1, k)
                 else var (r, o) := Rest(b, s2, k); (r, if o.Fine? then None else Some(o.error));
               && Shaped(b, s3)
               && Passes(b, s, i, k) == (ExitAll(b, if failure.None? then Commit(s3, i, s3.current[i]) else s3, i, 0), failure)
  {
    hide Check, NodeOf, SpecOf, EnterAll, ExitAll, Rest, Commit;
    EnterAllKeeps(b, s, i, 0, s.current[i]);
    var s2 := Adopt(EnterAll(b, s, i, 0, s.current[i]), i, s.current[i]);
    var p := Down(b, s, i, k);
    assert p == Down(b, s2, i + 1, k);
    if p.failure.Some? {
      ExitAllKeeps(b, p.state, p.stop, 0);
      var t := ExitAll(b, p.state, p.stop, 0);
      assert Up(b, t, i, p.stop, false) == ExitAll(b, Up(b, t, i + 1, p.stop, false), i, 0);
    } else {
      var (t, o) := Rest(b, p.state, k);
      var up := Up(b, t, i + 1, k, o.Fine?);
      assert Up(b, t, i, k, o.Fine?) == ExitAll(b, if o.Fine? then Commit(up, i, up.current[i]) else up, i, 0);
    }
  }

  lemma EnterSound(b: Bulk, s: State, s1: State, i: nat)
    requires Sound(b, s, i, false, |s.batches|)
    requires s1.current == s.current && s1.nodes == s.nodes && s1.specs == s.specs && s1.batches == s.batches
    ensures Sound(b, s1, i, false, |s.batches|)
  {
  }

  lemma RestIs(b: Bulk, s: State, k: nat)
    requires Shaped(b, s) && k < |b.hooks|
    ensures Rest(b, s, k) == Mutate(b, s, k, 0, s.current[k])
  {
  }

  lemma StopsHere(b: Bulk, s: State, i: nat, m: Mutation)
    requires Shaped(b, s) && i < |b.hooks| && m == s.current[i]
    requires !m.ofComponents || Check(s.At(m).fields).Some?
    ensures var (r, o) := Innermost(b, s, i, m);
            if !m.ofComponents then r == s && o == Fail(UnexpectedMutation)
            else r == s.Log(Checked(i)) && o == Fail(Invalid(Check(s.At(m).fields).value))
  {
    hide Check, NodeOf, SpecOf, Mutate;
  }

  lemma InnermostRest(b: Bulk, s: State, i: nat, m: Mutation)
    requires Sound(b, s, i, false, |s.batches|) && i < |b.hooks| && m == s.current[i]
    requires m.ofComponents && Check(s.At(m).fields).None?
    ensures var s1 := Adopt(s, i, m);
            && Shaped(b, s1) && s1.current == s.current
            && var (s2, o) := Rest(b, s1, i + 1);
               var (r, p) := Innermost(b, s, i, m);
               && s2.current[..i + 1] == s.current[..i + 1]
               && r == (if o.Fine? then Commit(s2, i, m) else s2)
               && (if o.Fine? then p.Fine? else p == o)
  {
    hide Check, NodeOf, SpecOf, Mutate, Sound, Adopt, Commit;
    Unmoved(b, s, i, false, |s.batches|);
    Adopted(b, s, i, m, false, |s.batches|);
    var s1 := Adopt(s, i, m);
    if i + 1 < |b.hooks| {
      BatchesAreSound(b, s1, i + 1, 0, s1.current[i + 1], false, |s.batches|);
    }
  }
}
