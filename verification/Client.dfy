/** Registering hooks on a client: slices that share backing arrays, and the builders that hold on to them. */
module Clients {
  import opened Schema
  import opened Create
  import opened Slices

  datatype Entity =
    | Application | ApplicationGroup | ChartCredential | CloudCredential | Cluster | Component | ComponentRun
    | GitHubInstallation | GroupVariable | Invitation | Membership | NotificationChannel | Organization | PlanPolicy
    | TektonInstallation | TofuState | TofuStateVersion | User | Variable | WorkflowRun | WorkflowStage

  // The order in which a client passes hooks on to its entity clients.
  const ENTITIES: seq<Entity> := [
    Application, ApplicationGroup, ChartCredential, CloudCredential, Cluster, Component, ComponentRun,
    GitHubInstallation, GroupVariable, Invitation, Membership, NotificationChannel, Organization, PlanPolicy,
    TektonInstallation, TofuState, TofuStateVersion, User, Variable, WorkflowRun, WorkflowStage]

  class Client {
    var stacks: map<Entity, Slice<Hook>>
    // The entity whose stack an array is.
    ghost var owner: map<array<Hook>, Entity>
    // The hooks registered with each entity so far.
    ghost var registered: map<Entity, seq<Hook>>
    // The slices handed to builders so far, and the hooks that were in them.
    ghost var issued: map<Slice<Hook>, seq<Hook>>

    // The arrays that registering may write to.
    ghost function Backings(): set<array<Hook>>
      reads `stacks
    {
      set e | e in stacks :: stacks[e].backing
    }

    ghost function Views(): set<array<Hook>>
      reads this
    {
      set s | s in issued :: s.backing
    }

    // Every stack has its own array and holds what was registered. Every slice handed out still holds what
    // it held then, and is no longer than the stack whose array it views.
    ghost predicate Valid()
      reads this, Backings(), Views()
    {
      && (forall e :: e in stacks && e in registered)
      && (forall e :: stacks[e].backing in owner && owner[stacks[e].backing] == e)
      && (forall e :: stacks[e].Valid() && stacks[e].Contents() == registered[e])
      && (forall s | s in issued :: s.Valid() && s.Contents() == issued[s])
      && (forall s | s in issued && s.backing in owner :: s.len <= stacks[owner[s.backing]].len)
    }

    lemma StillIssued()
      requires Valid()
      ensures forall s | s in issued :: s.Valid() && s.Contents() == issued[s]
    {
    }

    // Issuing a slice again issues the same hooks.
    lemma NotReissued()
      requires Valid()
      ensures forall e :: stacks[e] in issued ==> issued[stacks[e]] == registered[e]
    {
    }

    lemma HasAll()
      requires Valid()
      ensures forall e :: e in stacks && e in registered
      ensures forall e :: stacks[e].backing in Backings()
    {
    }

    // A client starts without hooks.
    constructor ()
      ensures Valid() && issued == map[] && fresh(Backings())
      ensures forall e :: registered[e] == []
    {
      stacks, owner, registered, issued := map[], map[], map[], map[];
      new;
      hide ENTITIES, Position;
      Positions();
      var i := 0;
      while i < |ENTITIES|
        invariant 0 <= i <= |ENTITIES| && issued == map[]
        invariant forall e :: (e in stacks <==> Position(e) < i) && (e in registered <==> Position(e) < i)
        invariant forall e | e in stacks :: stacks[e].len == 0 && fresh(stacks[e].backing) && registered[e] == []
        invariant forall e | e in stacks :: stacks[e].backing in owner && owner[stacks[e].backing] == e
      {
        var backing := new Hook[0];
        var e := ENTITIES[i];
        stacks, registered := stacks[e := Slice(backing, 0)], registered[e := []];
        owner := owner[backing := e];
        i := i + 1;
      }
    }

    // Registers hooks with one entity client. What earlier slices hold is not touched.
    method UseOn(e: Entity, hooks: seq<Hook>)
      requires Valid()
      modifies this`stacks, this`owner, this`registered, stacks[e].backing
      ensures Valid() && registered == old(registered)[e := old(registered)[e] + hooks]
      ensures stacks == old(stacks)[e := stacks[e]]
      ensures forall b | b in Backings() :: b in old(Backings()) || fresh(b)
    {
      var r := Append(stacks[e], hooks);
      StillThere(e);
      assert forall f | f != e :: stacks[f].Contents() == old(stacks[f].Contents());
      Restack(e, r, hooks);
    }

    // The longer slice takes the place of the stack.
    method Restack(e: Entity, r: Slice<Hook>, ghost hooks: seq<Hook>)
      requires Valid() && r.Valid() && r.Contents() == registered[e] + hooks && r.len >= stacks[e].len
      requires r.backing == stacks[e].backing || (r.backing !in owner && forall s | s in issued :: s.backing != r.backing)
      modifies this`stacks, this`owner, this`registered
      ensures Valid() && registered == old(registered)[e := old(registered)[e] + hooks]
      ensures stacks == old(stacks)[e := r]
    {
      hide Slice.Contents, Slice.Valid, Backings, Views, Valid;
      Parts();
      stacks := stacks[e := r];
      owner := owner[r.backing := e];
      registered := registered[e := registered[e] + hooks];
      FromParts();
    }

    lemma Parts()
      requires Valid()
      ensures forall e :: e in stacks && e in registered
      ensures forall e :: stacks[e].backing in owner && owner[stacks[e].backing] == e
      ensures forall e :: stacks[e].Valid() && stacks[e].Contents() == registered[e]
      ensures forall s | s in issued :: s.Valid() && s.Contents() == issued[s]
      ensures forall s | s in issued && s.backing in owner :: s.len <= stacks[owner[s.backing]].len
    {
    }

    lemma FromParts()
      requires forall e :: e in stacks && e in registered
      requires forall e :: stacks[e].backing in owner && owner[stacks[e].backing] == e
      requires forall e :: stacks[e].Valid() && stacks[e].Contents() == registered[e]
      requires forall s | s in issued :: s.Valid() && s.Contents() == issued[s]
      requires forall s | s in issued && s.backing in owner :: s.len <= stacks[owner[s.backing]].len
      ensures Valid()
    {
    }

    // What a stack held stays in every slice that shares its array.
    twostate lemma StillThere(e: Entity)
      requires old(Valid()) && stacks == old(stacks) && issued == old(issued)
      requires stacks[e].Contents() == old(stacks[e].Contents())
      requires forall s | s in issued && s.backing != stacks[e].backing :: s.Contents() == old(s.Contents())
      ensures forall s | s in issued :: s.Contents() == issued[s]
    {
      forall s | s in issued ensures s.Contents() == issued[s] {
        if s.backing == stacks[e].backing {
          assert s.Contents() == stacks[e].Contents()[..s.len];
          assert old(s.Contents()) == old(stacks[e].Contents())[..s.len];
        }
      }
    }

    // The slice of hooks registered so far, shared with the builder that gets it.
    method NewBuilder(e: Entity) returns (hooks: Slice<Hook>)
      requires Valid()
      modifies this`issued
      ensures Valid() && hooks == stacks[e] && hooks.Valid() && hooks.Contents() == registered[e]
      ensures issued == old(issued)[hooks := registered[e]]
    {
      hooks := stacks[e];
      issued := issued[hooks := registered[e]];
    }

    // Registers hooks with every entity client, one after the other.
    method Use(hooks: seq<Hook>)
      requires Valid()
      modifies this`stacks, this`owner, this`registered, Backings()
      ensures Valid() && registered == Extended(old(registered), hooks, |ENTITIES|)
      ensures forall b | b in Backings() :: b in old(Backings()) || fresh(b)
    {
      hide ENTITIES, Position, Extended, Valid, Backings, Views;
      ExtendedNone(registered, hooks);
      HasAll();
      var i := 0;
      while i < |ENTITIES|
        invariant 0 <= i <= |ENTITIES| && Valid()
        invariant forall b | b in Backings() :: b in old(Backings()) || fresh(b)
        invariant registered == Extended(old(registered), hooks, i)
      {
        HasAll();
        ExtendedOnce(old(registered), hooks, i);
        UseOn(ENTITIES[i], hooks);
        i := i + 1;
      }
      HasAll();
    }
  }

  // The position of an entity in the list of all.
  function Position(e: Entity): nat {
    match e
    case Application => 0
    case ApplicationGroup => 1
    case ChartCredential => 2
    case CloudCredential => 3
    case Cluster => 4
    case Component => 5
    case ComponentRun => 6
    case GitHubInstallation => 7
    case GroupVariable => 8
    case Invitation => 9
    case Membership => 10
    case NotificationChannel => 11
    case Organization => 12
    case PlanPolicy => 13
    case TektonInstallation => 14
    case TofuState => 15
    case TofuStateVersion => 16
    case User => 17
    case Variable => 18
    case WorkflowRun => 19
    case WorkflowStage => 20
  }

  // The hooks registered with each entity after the first i entity clients got some more.
  ghost function Extended(registered: map<Entity, seq<Hook>>, hooks: seq<Hook>, i: nat): map<Entity, seq<Hook>> {
    map e | e in registered :: if Position(e) < i then registered[e] + hooks else registered[e]
  }

  lemma ExtendedNone(registered: map<Entity, seq<Hook>>, hooks: seq<Hook>)
    ensures Extended(registered, hooks, 0) == registered
  {
  }

  lemma ExtendedOnce(registered: map<Entity, seq<Hook>>, hooks: seq<Hook>, i: nat)
    requires i < |ENTITIES| && ENTITIES[i] in Extended(registered, hooks, i)
    ensures var e, now := ENTITIES[i], Extended(registered, hooks, i);
            Extended(registered, hooks, i + 1) == now[e := now[e] + hooks]
  {
    hide ENTITIES, Position;
    Positions();
  }

  // The list has every entity, once.
  lemma Positions()
    ensures forall e :: Position(e) < |ENTITIES| && ENTITIES[Position(e)] == e
    ensures forall i | 0 <= i < |ENTITIES| :: Position(ENTITIES[i]) == i
  {
    forall e ensures Position(e) < |ENTITIES| && ENTITIES[Position(e)] == e {
      PositionOf(e);
    }
  }

  lemma PositionOf(e: Entity)
    ensures Position(e) < |ENTITIES| && ENTITIES[Position(e)] == e
  {
  }

  lemma ExtendedAll(registered: map<Entity, seq<Hook>>, hooks: seq<Hook>)
    ensures Extended(registered, hooks, |ENTITIES|) == map e | e in registered :: registered[e] + hooks
  {
    hide ENTITIES, Position;
    Positions();
  }

  // ----- programs that register hooks and make builders -----

  datatype Op = UseAll(hooks: seq<Hook>) | UseOn(entity: Entity, hooks: seq<Hook>) | Build(entity: Entity)

  // The hooks registered with entity e after one more operation.
  function After(op: Op, earlier: seq<Hook>, e: Entity): seq<Hook> {
    match op
    case UseAll(hooks) => earlier + hooks
    case UseOn(f, hooks) => if e == f then earlier + hooks else earlier
    case Build(_) => earlier
  }

  // The hooks registered with an entity by a program, in the order of the calls.
  function History(ops: seq<Op>, e: Entity): seq<Hook> {
    if ops == [] then [] else After(ops[|ops| - 1], History(ops[..|ops| - 1], e), e)
  }

  method Step(client: Client, op: Op) returns (builder: Option<Slice<Hook>>)
    requires client.Valid()
    modifies client, client.Backings()
    ensures client.Valid()
    ensures forall e :: client.registered[e] == After(op, old(client.registered)[e], e)
    ensures forall b | b in client.Backings() :: b in old(client.Backings()) || fresh(b)
    ensures forall s | s in old(client.issued) :: s in client.issued && client.issued[s] == old(client.issued)[s]
    ensures op.Build? ==>
              && builder.Some? && builder.value in client.issued
              && client.issued[builder.value] == client.registered[op.entity]
  {
    hide ENTITIES, Position, Extended, Client.Valid, Client.Views, Client.Backings;
    client.HasAll();
    builder := None;
    match op {
      case UseAll(hooks) =>
        ExtendedAll(client.registered, hooks);
        client.Use(hooks);
      case UseOn(e, hooks) =>
        client.UseOn(e, hooks);
      case Build(e) =>
        client.NotReissued();
        var slice := client.NewBuilder(e);
        builder := Some(slice);
    }
    client.HasAll();
  }

  // Whatever a program registers and builds, at its end every builder still has the hooks registered before it
  // was made, and no others.
  method Run(ops: seq<Op>) returns (client: Client, builders: map<nat, Slice<Hook>>)
    ensures client.Valid() && forall e :: client.registered[e] == History(ops, e)
    ensures forall k | 0 <= k < |ops| && ops[k].Build? ::
              && k in builders && builders[k].Valid()
              && builders[k].Contents() == History(ops[..k], ops[k].entity)
  {
    hide ENTITIES, Position, Client.Valid, Client.Views, Client.Backings;
    client := new Client();
    client.HasAll();
    builders := map[];
    for i := 0 to |ops|
      invariant fresh(client) && client.Valid()
      invariant forall b | b in client.Backings() :: fresh(b)
      invariant forall e | e in client.registered :: client.registered[e] == History(ops[..i], e)
      invariant forall k | 0 <= k < i && ops[k].Build? ::
                  && k in builders && builders[k] in client.issued
                  && client.issued[builders[k]] == History(ops[..k], ops[k].entity)
    {
      assert ops[..i + 1][..i] == ops[..i] && ops[..i + 1][i] == ops[i];
      client.HasAll();
      var builder := Step(client, ops[i]);
      if builder.Some? {
        builders := builders[i := builder.value];
      }
    }
    client.HasAll();
    assert ops[..|ops|] == ops;
    client.StillIssued();
  }
}
