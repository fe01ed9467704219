/** The bulk builder as the program runs it: builders, mutations and arrays changed in place, each closure
  * calling the next one. */
module BulkBuilder {
  import opened Schema
  import opened Codec
  import opened Decoder
  import opened Create

  class Store {
    var batches: seq<seq<Option<CreateSpec>>>
    const refuses: (seq<seq<Option<CreateSpec>>>, seq<Option<CreateSpec>>) -> Option<StoreError>

    constructor (refuses: (seq<seq<Option<CreateSpec>>>, seq<Option<CreateSpec>>) -> Option<StoreError>)
      ensures batches == [] && this.refuses == refuses
    {
      batches, this.refuses := [], refuses;
    }
  }

  class ComponentCreate {
    var mutation: Mutation
    const hooks: seq<Hook>

    constructor (mutation: Mutation, hooks: seq<Hook>)
      ensures this.mutation == mutation && this.hooks == hooks
    {
      this.mutation, this.hooks := mutation, hooks;
    }

    // Fills in the fields that have a default and are not set.
    method Defaults(env: Env)
      modifies mutation
      ensures mutation.fields == Codec.Defaults(old(mutation.fields), env)
      ensures mutation.done == old(mutation.done)
    {
      var i := 0;
      while i < |DEFAULTED|
        invariant 0 <= i <= |DEFAULTED| && mutation.done == old(mutation.done)
        invariant FillIn(mutation.fields, DEFAULTED[i..], env) == Codec.Defaults(old(mutation.fields), env)
      {
        var c := DEFAULTED[i];
        assert DEFAULTED[i..][1..] == DEFAULTED[i + 1..];
        if c !in mutation.fields {
          mutation.fields := mutation.fields[c := DefaultCell(c, env)];
        }
        i := i + 1;
      }
    }
  }

  // The setters of mutations are typed, and what a hook hands down is one of the mutations there are.
  ghost predicate StaysWithin(hook: Hook, world: set<Mutation>) {
    forall replies, f ::
      var move := Decide(hook, replies, f);
      move.Call? ==> WellTyped(move.fields) && (move.other.Some? ==> move.other.value in world)
  }

  ghost function MutsOf(world: set<Mutation>): map<Mutation, Mut>
    reads world
  {
    map m | m in world :: Mut(m.fields, m.done)
  }

  ghost function CurrentOf(builders: seq<ComponentCreate>): seq<Mutation>
    reads builders
  {
    seq(|builders|, i requires 0 <= i < |builders| reads builders => builders[i].mutation)
  }

  // The state before anything is filled.
  function Unfilled(muts: map<Mutation, Mut>, current: seq<Mutation>, batches: seq<seq<Option<CreateSpec>>>): State {
    State(muts, current, seq(|current|, _ => None), seq(|current|, _ => None), batches, [])
  }

  /** What the closures of one bulk share. */
  class Chain {
    const builders: seq<ComponentCreate>
    const nodes: array<Component?>
    const specs: array<Option<CreateSpec>>
    const store: Store
    // Every mutation that a builder has or a hook may hand down.
    ghost const world: set<Mutation>
    ghost var trace: seq<Event>

    constructor (builders: seq<ComponentCreate>, store: Store, ghost world: set<Mutation>)
      ensures this.builders == builders && this.store == store && this.world == world && trace == []
      ensures fresh(nodes) && nodes.Length == |builders| && forall i | 0 <= i < |builders| :: nodes[i] == null
      ensures fresh(specs) && specs.Length == |builders| && forall i | 0 <= i < |builders| :: specs[i] == None
    {
      this.builders, this.store, this.world, trace := builders, store, world, [];
      nodes := new Component?[|builders|](_ => null);
      specs := new Option<CreateSpec>[|builders|](_ => None);
    }

    ghost predicate Valid()
      reads builders, world
    {
      && |builders| == nodes.Length == specs.Length
      && (forall i, j | 0 <= i < j < |builders| :: builders[i] != builders[j])
      && (forall i | 0 <= i < |builders| :: builders[i].mutation in world)
      && (forall i, h | 0 <= i < |builders| && 0 <= h < |builders[i].hooks| :: StaysWithin(builders[i].hooks[h], world))
      && (forall m | m in world :: WellTyped(m.fields))
    }

    ghost function Setup(): Bulk {
      Bulk(seq(|builders|, i requires 0 <= i < |builders| => builders[i].hooks), store.refuses)
    }

    lemma SetupIs()
      ensures |Setup().hooks| == |builders|
    {
    }

    lemma HooksAre(i: nat)
      requires i < |builders|
      ensures i < |Setup().hooks| && Setup().hooks[i] == builders[i].hooks
    {
    }

    lemma ShapedNow()
      requires Valid()
      ensures |Setup().hooks| == |builders| && Shaped(Setup(), Snapshot())
    {
    }

    ghost function NodeAt(i: nat): Option<Fields>
      requires i < nodes.Length
      reads nodes, nodes[i]
    {
      if nodes[i] == null then None else Some(nodes[i].Data().fields)
    }

    ghost function Nodes(): seq<Option<Fields>>
      reads nodes, nodes[..]
    {
      seq(nodes.Length, i requires 0 <= i < nodes.Length reads nodes, nodes[..] => NodeAt(i))
    }

    ghost function Snapshot(): State
      reads this, builders, world, nodes, nodes[..], specs, store
    {
      State(MutsOf(world), CurrentOf(builders), Nodes(), specs[..], store.batches, trace)
    }

    lemma StartsUnfilled()
      requires Valid() && trace == []
      requires forall i | 0 <= i < |builders| :: nodes[i] == null && specs[i] == None
      ensures Snapshot() == Unfilled(MutsOf(world), CurrentOf(builders), store.batches)
    {
      var start := Unfilled(MutsOf(world), CurrentOf(builders), store.batches);
      assert Nodes() == start.nodes;
      assert specs[..] == start.specs;
    }

    // Defaults of builder i, seen on the state of the whole bulk.
    method Defaults(i: nat, env: Env)
      requires Valid() && i < |builders|
      modifies builders[i].mutation
      ensures Valid()
      ensures Snapshot() ==
        var s := old(Snapshot()); s.Write(s.current[i], Codec.Defaults(s.At(s.current[i]).fields, env))
    {
      hide Codec.Defaults, StaysWithin;
      var m := builders[i].mutation;
      SeesMutations(i, m);
      DefaultsTyped(m.fields, env);
      builders[i].Defaults(env);
      assert MutsOf(world) == old(MutsOf(world))[m := Mut(m.fields, m.done)];
    }

    // Fills in the defaults of all builders and wraps their hooks; a nil hook stops it.
    method Prepare(envs: seq<Env>) returns (wrapped: bool)
      requires Valid() && |envs| == |builders|
      modifies world
      ensures Valid() && (Snapshot(), wrapped) == Create.Prepare(Setup(), old(Snapshot()), envs, 0)
    {
      hide Codec.Defaults, StaysWithin, WellTyped, MutsOf, CurrentOf, Nodes, Snapshot, Setup;
      ShapedNow();
      var i := 0;
      while i < |builders|
        invariant 0 <= i <= |builders| && Valid()
        invariant Shaped(Setup(), old(Snapshot())) && Shaped(Setup(), Snapshot())
        invariant |Setup().hooks| == |builders|
        invariant Create.Prepare(Setup(), old(Snapshot()), envs, 0) == Create.Prepare(Setup(), Snapshot(), envs, i)
      {
        Defaults(i, envs[i]);
        HooksAre(i);
        for h := |builders[i].hooks| downto 0
          invariant forall k | h <= k < |builders[i].hooks| :: !builders[i].hooks[k].NilHook?
        {
          if builders[i].hooks[h].NilHook? {
            return false;
          }
        }
        i := i + 1;
      }
      return true;
    }

    // The nodes filled so far.
    method NodeValues() returns (values: seq<Option<Fields>>)
      requires Valid()
      ensures values == Snapshot().nodes
    {
      values := [];
      for i := 0 to nodes.Length
        invariant values == Nodes()[..i]
      {
        values := values + [if nodes[i] == null then None else Some(nodes[i].Data().fields)];
      }
    }

    lemma SeesMutations(i: nat, m: Mutation)
      requires Valid() && m in world && i < |builders|
      ensures Snapshot().current[i] == builders[i].mutation
      ensures Snapshot().At(m) == Mut(m.fields, m.done)
    {
    }

    lemma SeesNode(i: nat)
      requires Valid() && i < |builders|
      ensures Snapshot().nodes[i] == (if nodes[i] == null then None else Some(nodes[i].Data().fields))
      ensures nodes[i] != null ==> Id in nodes[i].Data().fields && nodes[i].Data().fields[Id] == UuidC(nodes[i].id)
    {
      hide COMPONENT_COLUMNS;
      ColumnsAre(Id);
    }

    method WriteFields(m: Mutation, f: Fields)
      requires Valid() && m in world && WellTyped(f)
      modifies m
      ensures Valid() && Snapshot() == old(Snapshot()).Write(m, f)
    {
      m.fields := f;
      assert MutsOf(world) == old(MutsOf(world))[m := Mut(f, m.done)];
    }

    ghost method Log(event: Event)
      requires Valid()
      modifies this`trace
      ensures Valid() && Snapshot() == old(Snapshot()).Log(event)
    {
      trace := trace + [event];
    }

    // The builder takes the mutation, and its node and specification are made from it.
    method TakeMutation(i: nat, m: Mutation)
      requires Valid() && m in world && i < |builders|
      modifies this`trace, builders[i], nodes, specs
      ensures Valid() && Snapshot() == Adopt(old(Snapshot()), i, m)
    {
      hide NodeOf, SpecOf;
      builders[i].mutation := m;
      var node, spec := NewNode(m.fields);
      nodes[i], specs[i] := node, Some(spec);
      trace := trace + [Checked(i)];
      assert Nodes() == old(Nodes())[i := Some(NodeOf(m.fields))];
      assert CurrentOf(builders) == old(CurrentOf(builders))[i := m];
      assert specs[..] == old(specs[..])[i := Some(spec)];
    }

    // The whole batch, or nothing.
    method BatchCreate() returns (o: Outcome)
      requires Valid()
      modifies this`trace, store`batches
      ensures Valid() && (Snapshot(), o) == Create.BatchCreate(Setup(), old(Snapshot()))
    {
      trace := trace + [Batched];
      match store.refuses(store.batches, specs[..]) {
        case None =>
          store.batches := store.batches + [specs[..]];
          return Fine(Nothing);
        case Some(ConstraintFailed) => return Fail(ConstraintError);
        case Some(StoreFailed) => return Fail(DriverError);
      }
    }

    // The marks after a successful save.
    method Mark(i: nat, m: Mutation)
      requires Valid() && m in world && i < |builders|
      modifies m
      ensures Valid() && Snapshot() == Commit(old(Snapshot()), i, m)
    {
      hide Component.Get, Component.Data, COMPONENT_COLUMNS;
      var node := nodes[i];
      SeesNode(i);
      m.fields := m.fields[Id := UuidC(if node != null then node.id else ZERO_UUID)];
      m.done := true;
      assert MutsOf(world) == old(MutsOf(world))[m := Mut(m.fields, true)];
    }

    // The mutator of builder i from its hook h inwards.
    method Mutate(i: nat, h: nat, m: Mutation) returns (o: Outcome)
      requires Valid() && m in world && i < |builders| && h <= |builders[i].hooks|
      modifies this`trace, world, builders, nodes, specs, store`batches
      ensures Valid() && (Snapshot(), o) == Create.Mutate(Setup(), old(Snapshot()), i, h, m)
      decreases |builders| - i, |builders[i].hooks| - h
    {
      if h == |builders[i].hooks| {
        o := Innermost(i, m);
        return;
      }
      Log(Enter(i, h));
      o := Perform(i, h, m);
      Log(Exit(i, h));
    }

    // A hook at work: it calls the next mutator as often as it decides to.
    method Perform(i: nat, h: nat, m: Mutation) returns (o: Outcome)
      requires Valid() && m in world && i < |builders| && h < |builders[i].hooks|
      modifies this`trace, world, builders, nodes, specs, store`batches
      ensures Valid() && (Snapshot(), o) == Create.Perform(Setup(), old(Snapshot()), i, h, m, [])
      decreases |builders| - i, |builders[i].hooks| - h, 0
    {
      var hook := builders[i].hooks[h];
      var replies: seq<Outcome> := [];
      var move := Decide(hook, replies, m.fields);
      while move.Call?
        invariant Valid() && move == Decide(hook, replies, m.fields)
        invariant hook.Hook? ==> |replies| <= hook.calls
        invariant Create.Perform(Setup(), old(Snapshot()), i, h, m, [])
               == Create.Perform(Setup(), Snapshot(), i, h, m, replies)
        decreases if hook.Hook? then hook.calls - |replies| else 0
      {
        WriteFields(m, move.fields);
        o := Mutate(i, h + 1, if move.other.Some? then move.other.value else m);
        replies := replies + [o];
        move := Decide(hook, replies, m.fields);
      }
      return move.outcome;
    }

    // The next builder's mutator, or the batch.
    method Onwards(i: nat) returns (o: Outcome)
      requires Valid() && i < |builders|
      modifies this`trace, world, builders, nodes, specs, store`batches
      ensures Valid()
      ensures (Snapshot(), o) ==
        if i < |builders| - 1 then Create.Mutate(Setup(), old(Snapshot()), i + 1, 0, old(Snapshot()).current[i + 1])
        else Create.BatchCreate(Setup(), old(Snapshot()))
      decreases |builders| - i, 0, 0
    {
      hide Create.Mutate, Create.BatchCreate, Snapshot, StaysWithin, MutsOf, Nodes, NodeAt, Component.Data, WellTyped;
      if i < |builders| - 1 {
        SeesMutations(i + 1, builders[i + 1].mutation);
        o := Mutate(i + 1, 0, builders[i + 1].mutation);
      } else {
        o := BatchCreate();
      }
    }

    // Inside the hooks of builder i: the check, the specification, then the next builder or the batch.
    method Innermost(i: nat, m: Mutation) returns (o: Outcome)
      requires Valid() && m in world && i < |builders|
      modifies this`trace, world, builders, nodes, specs, store`batches
      ensures Valid() && (Snapshot(), o) == Create.Innermost(Setup(), old(Snapshot()), i, m)
      decreases |builders| - i, 0, 1
    {
      hide Check, NodeOf, SpecOf, Adopt, Commit, Create.Mutate, Create.BatchCreate, Snapshot;
      hide State.At, Setup, StaysWithin, MutsOf, CurrentOf, Nodes, NodeAt, Component.Data, COMPONENT_COLUMNS, WellTyped;
      ghost var before := Snapshot();
      SeesMutations(i, builders[i].mutation);
      SetupIs();
      if !m.ofComponents {
        return Fail(UnexpectedMutation);
      }
      var failure := Check(builders[i].mutation.fields);
      if failure.Some? {
        Log(Checked(i));
        return Fail(Invalid(failure.value));
      }
      TakeMutation(i, m);
      o := Onwards(i);
      if o.Fail? {
        return;
      }
      SeesNode(i);
      Mark(i, m);
      return Fine(if nodes[i] != null then Created(nodes[i].Data().fields) else Nothing);
    }
  }

  class ComponentCreateBulk {
    const err: Option<Error>
    const builders: seq<ComponentCreate>
    const store: Store

    constructor (err: Option<Error>, builders: seq<ComponentCreate>, store: Store)
      ensures this.err == err && this.builders == builders && this.store == store
    {
      this.err, this.builders, this.store := err, builders, store;
    }

    ghost predicate Ready(world: set<Mutation>)
      reads builders, world
    {
      && (forall i, j | 0 <= i < j < |builders| :: builders[i] != builders[j])
      && (forall i | 0 <= i < |builders| :: builders[i].mutation in world)
      && (forall i, h | 0 <= i < |builders| && 0 <= h < |builders[i].hooks| :: StaysWithin(builders[i].hooks[h], world))
      && (forall m | m in world :: WellTyped(m.fields))
    }

    // Saves all builders. The clock and the ids that defaults need are given for each builder.
    method Save(envs: seq<Env>, ghost world: set<Mutation>) returns (r: SaveResult, ghost chain: Chain)
      requires |envs| == |builders| && Ready(world)
      modifies world, builders, store`batches
      ensures fresh(chain) && chain.builders == builders && chain.store == store && chain.world == world && chain.Valid()
      ensures var start := Unfilled(old(MutsOf(world)), old(CurrentOf(builders)), old(store.batches));
              && Shaped(chain.Setup(), start)
              && (chain.Snapshot(), r) ==
                   if err.Some? then (start, Failed(err.value)) else Create.Save(chain.Setup(), start, envs)
    {
      hide Create.Mutate, Create.Prepare, StaysWithin, WellTyped, MutsOf, CurrentOf, Chain.Nodes, Chain.Snapshot;
      var run := new Chain(builders, store, world);
      chain := run;
      run.StartsUnfilled();
      run.ShapedNow();
      if err.Some? {
        return Failed(err.value), chain;
      }
      var wrapped := run.Prepare(envs);
      if !wrapped {
        return Panicked, chain;
      }
      if |builders| > 0 {
        run.SeesMutations(0, builders[0].mutation);
        var o := run.Mutate(0, 0, builders[0].mutation);
        if o.Fail? {
          return Failed(o.error), chain;
        }
      }
      var values := run.NodeValues();
      return Saved(values), chain;
    }
  }
}
