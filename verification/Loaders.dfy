/** The loops of the edge loaders: nodes indexed by key, results scattered back to the nodes in place. */
module Loaders {
  import opened Schema
  import opened Driver
  import opened Plans

  /** A decoded row. Its edges are filled in after the rows of the whole query have been fetched. */
  class Entity {
    const row: Row
    const loaded: set<Edge>
    var edges: map<Edge, Node>

    constructor (row: Row, loaded: set<Edge>)
      ensures this.row == row && this.loaded == loaded && edges == map[]
    {
      this.row, this.loaded, this.edges := row, loaded, map[];
    }

    function Value(): Node
      reads this
    {
      Node(row, loaded, edges)
    }
  }

  function Values(nodes: seq<Entity>): seq<Node>
    reads nodes
  {
    seq(|nodes|, i requires 0 <= i < |nodes| reads nodes => nodes[i].Value())
  }

  ghost predicate NoRepeats<T>(s: seq<T>) {
    forall i, j | 0 <= i < j < |s| :: s[i] != s[j]
  }

  // ----- grouping the nodes of a query by key -----

  function KeyOf(e: Edge, n: Entity): Uuid {
    ReadUuid(n.row, OwnColumn(e))
  }

  // The nodes with the key, in order.
  function Group(e: Edge, nodes: seq<Entity>, key: Uuid): seq<Entity> {
    if nodes == [] then []
    else
      var n := |nodes| - 1;
      Group(e, nodes[..n], key) + if KeyOf(e, nodes[n]) == key then [nodes[n]] else []
  }

  function KeysOf(e: Edge, nodes: seq<Entity>): seq<Uuid> {
    seq(|nodes|, i requires 0 <= i < |nodes| => KeyOf(e, nodes[i]))
  }

  ghost predicate Grouped(e: Edge, nodes: seq<Entity>, ids: seq<Uuid>, nodeids: map<Uuid, seq<Entity>>) {
    && ids == FirstOccurrences(KeysOf(e, nodes))
    && (forall key :: key in nodeids <==> key in ids)
    && (forall key | key in nodeids :: nodeids[key] == Group(e, nodes, key))
  }

  method GroupByKey(e: Edge, nodes: seq<Entity>) returns (ids: seq<Uuid>, nodeids: map<Uuid, seq<Entity>>)
    ensures Grouped(e, nodes, ids, nodeids)
  {
    ids, nodeids := [], map[];
    for i := 0 to |nodes|
      invariant Grouped(e, nodes[..i], ids, nodeids)
    {
      var key := KeyOf(e, nodes[i]);
      GroupedStep(e, nodes[..i], nodes[i], ids, nodeids);
      assert nodes[..i] + [nodes[i]] == nodes[..i + 1];
      var group := [];
      if key in nodeids {
        group := nodeids[key];
      } else {
        ids := ids + [key];
      }
      nodeids := nodeids[key := group + [nodes[i]]];
    }
    assert nodes[..|nodes|] == nodes;
  }

  lemma FirstOccurrencesStep(keys: seq<Uuid>, key: Uuid)
    ensures FirstOccurrences(keys + [key]) == AppendOnce(FirstOccurrences(keys), key)
  {
    assert (keys + [key])[..|keys|] == keys;
  }

  lemma GroupStep(e: Edge, nodes: seq<Entity>, n: Entity, key: Uuid)
    ensures Group(e, nodes + [n], key) == Group(e, nodes, key) + if KeyOf(e, n) == key then [n] else []
  {
    assert (nodes + [n])[..|nodes|] == nodes;
  }

  lemma KeysStep(e: Edge, nodes: seq<Entity>, n: Entity)
    ensures FirstOccurrences(KeysOf(e, nodes + [n])) == AppendOnce(FirstOccurrences(KeysOf(e, nodes)), KeyOf(e, n))
  {
    assert KeysOf(e, nodes + [n]) == KeysOf(e, nodes) + [KeyOf(e, n)];
    FirstOccurrencesStep(KeysOf(e, nodes), KeyOf(e, n));
  }

  lemma GroupedStep(e: Edge, nodes: seq<Entity>, n: Entity, ids: seq<Uuid>, nodeids: map<Uuid, seq<Entity>>)
    requires Grouped(e, nodes, ids, nodeids)
    ensures var key := KeyOf(e, n);
            var group := if key in nodeids then nodeids[key] else [];
            Grouped(e, nodes + [n], if key in nodeids then ids else ids + [key], nodeids[key := group + [n]])
  {
    hide FirstOccurrences, KeysOf, Group, KeyOf;
    KeysStep(e, nodes, n);
    GroupOfAbsent(e, nodes, KeyOf(e, n));
    forall key ensures Group(e, nodes + [n], key) == Group(e, nodes, key) + if KeyOf(e, n) == key then [n] else [] {
      GroupStep(e, nodes, n, key);
    }
  }

  lemma GroupOfAbsent(e: Edge, nodes: seq<Entity>, key: Uuid)
    ensures Group(e, nodes, key) != [] ==> key in FirstOccurrences(KeysOf(e, nodes))
  {
    var group := Group(e, nodes, key);
    if group != [] {
      GroupMembers(e, nodes, key, group[0]);
      var i :| 0 <= i < |nodes| && nodes[i] == group[0];
      assert KeysOf(e, nodes)[i] == key;
      FirstOccurrencesDistinct(KeysOf(e, nodes));
    }
  }

  function Groups(e: Edge, nodes: seq<Entity>, ids: seq<Uuid>): seq<Entity> {
    if ids == [] then [] else Group(e, nodes, ids[0]) + Groups(e, nodes, ids[1..])
  }

  lemma {:induction false} GroupMembers(e: Edge, nodes: seq<Entity>, key: Uuid, n: Entity)
    ensures n in Group(e, nodes, key) <==> n in nodes && KeyOf(e, n) == key
  {
    if nodes != [] {
      var k := |nodes| - 1;
      assert nodes == nodes[..k] + [nodes[k]];
      GroupMembers(e, nodes[..k], key, n);
    }
  }

  // One more node adds itself to the groups once, if its key is listed once.
  lemma {:induction false} GroupsGrow(e: Edge, nodes: seq<Entity>, n: Entity, ids: seq<Uuid>)
    requires NoRepeats(ids)
    ensures multiset(Groups(e, nodes + [n], ids))
         == multiset(Groups(e, nodes, ids)) + if KeyOf(e, n) in ids then multiset{n} else multiset{}
  {
    if ids != [] {
      assert (nodes + [n])[..|nodes|] == nodes;
      assert KeyOf(e, n) == ids[0] ==> KeyOf(e, n) !in ids[1..];
      GroupsGrow(e, nodes, n, ids[1..]);
    }
  }

  lemma {:induction false} GroupsAppend(e: Edge, nodes: seq<Entity>, ids: seq<Uuid>, key: Uuid)
    ensures Groups(e, nodes, ids + [key]) == Groups(e, nodes, ids) + Group(e, nodes, key)
  {
    if ids == [] {
      assert Groups(e, nodes, []) == [];
    } else {
      assert (ids + [key])[0] == ids[0] && (ids + [key])[1..] == ids[1..] + [key];
      GroupsAppend(e, nodes, ids[1..], key);
    }
  }

  lemma {:induction false} FirstOccurrencesDistinct(keys: seq<Uuid>)
    ensures NoRepeats(FirstOccurrences(keys))
    ensures forall key :: key in FirstOccurrences(keys) <==> key in keys
  {
    if keys != [] {
      var n := |keys| - 1;
      FirstOccurrencesDistinct(keys[..n]);
      assert keys == keys[..n] + [keys[n]];
    }
  }

  // The groups share the nodes out among them: none lost, none twice.
  lemma {:induction false} GroupsPartition(e: Edge, nodes: seq<Entity>)
    ensures multiset(Groups(e, nodes, FirstOccurrences(KeysOf(e, nodes)))) == multiset(nodes)
  {
    if nodes != [] {
      var k := |nodes| - 1;
      GroupsPartition(e, nodes[..k]);
      assert nodes == nodes[..k] + [nodes[k]];
      PartitionStep(e, nodes[..k], nodes[k]);
    }
  }

  lemma PartitionStep(e: Edge, nodes: seq<Entity>, n: Entity)
    ensures multiset(Groups(e, nodes + [n], FirstOccurrences(KeysOf(e, nodes + [n]))))
         == multiset(Groups(e, nodes, FirstOccurrences(KeysOf(e, nodes)))) + multiset{n}
  {
    var ids, key := FirstOccurrences(KeysOf(e, nodes)), KeyOf(e, n);
    KeysStep(e, nodes, n);
    FirstOccurrencesDistinct(KeysOf(e, nodes));
    GroupsGrow(e, nodes, n, ids);
    if key !in ids {
      GroupsAppend(e, nodes + [n], ids, key);
      GroupStep(e, nodes, n, key);
      GroupOfAbsent(e, nodes, key);
    }
  }

  // ----- attaching results to nodes -----

  // One more result replaces the edge of the nodes with its key.
  lemma AttachStep(e: Edge, nodes: seq<Node>, far: seq<Node>, n: Node, i: nat)
    requires i < |nodes|
    ensures AttachOne(e, nodes, far + [n], i)
         == if OwnKey(e, nodes[i]) == FarKey(e, n) && Indexed(e, nodes, i)
            then SetEdge(AttachOne(e, nodes, far, i), e, Some(n))
            else AttachOne(e, nodes, far, i)
  {
    LastWithKeyStep(e, far, n, OwnKey(e, nodes[i]));
    SetEdgeTwice(nodes[i], e, Found(e, nodes, far, i), n);
  }

  lemma SetEdgeTwice(n: Node, e: Edge, first: Option<Node>, second: Node)
    ensures SetEdge(SetEdge(n, e, first), e, Some(second)) == SetEdge(n, e, Some(second))
  {
    if first.Some? {
      assert n.edges[e := first.value][e := second] == n.edges[e := second];
    }
  }

  lemma LastWithKeyStep(e: Edge, far: seq<Node>, n: Node, key: Uuid)
    ensures LastWithKey(e, far + [n], key) == if FarKey(e, n) == key then |far| else LastWithKey(e, far, key)
  {
    assert (far + [n])[..|far|] == far;
  }

  lemma {:induction false} StrangersStep(e: Edge, nodes: seq<Node>, far: seq<Node>, n: Node)
    ensures Strangers(e, nodes, far + [n])
         == Strangers(e, nodes, far) + if FarKey(e, n) in OwnKeys(e, nodes) then [] else [n]
  {
    if far == [] {
      assert Strangers(e, nodes, []) == [];
      assert (far + [n])[1..] == [];
    } else {
      assert (far + [n])[1..] == far[1..] + [n];
      StrangersStep(e, nodes, far[1..], n);
    }
  }

  lemma {:induction false} StrangersPrefix(e: Edge, nodes: seq<Node>, far: seq<Node>, j: nat)
    requires j <= |far| && Strangers(e, nodes, far[..j]) != []
    ensures Strangers(e, nodes, far) != [] && Strangers(e, nodes, far)[0] == Strangers(e, nodes, far[..j])[0]
    decreases |far| - j
  {
    if j < |far| {
      StrangersStep(e, nodes, far[..j], far[j]);
      assert far[..j + 1] == far[..j] + [far[j]];
      StrangersPrefix(e, nodes, far, j + 1);
    } else {
      assert far[..j] == far;
    }
  }

  lemma NothingAttached(e: Edge, nodes: seq<Node>)
    ensures Attach(e, nodes, []) == nodes && Strangers(e, nodes, []) == []
  {
  }

  lemma ValuesKeys(e: Edge, nodes: seq<Entity>)
    ensures OwnKeys(e, Values(nodes)) == KeysOf(e, nodes)
  {
  }

  method AssignGroup(e: Edge, group: seq<Entity>, n: Node, ghost nodes: seq<Entity>)
    requires forall m | m in group :: m in nodes
    modifies nodes
    ensures forall m | m in nodes :: m.edges == if m in group then old(m.edges)[e := n] else old(m.edges)
  {
    for i := 0 to |group|
      invariant forall m | m in nodes :: m.edges == if m in group[..i] then old(m.edges)[e := n] else old(m.edges)
    {
      assert group[i] in group;
      group[i].edges := group[i].edges[e := n];
      assert group[..i + 1] == group[..i] + [group[i]];
      assert old(group[i].edges)[e := n][e := n] == old(group[i].edges)[e := n];
    }
  }

  // Assigning one result to the nodes of its group extends what has been attached by that result.
  method AttachResult(e: Edge, nodes: seq<Entity>, group: seq<Entity>, n: Node, ghost before: seq<Node>, ghost done: seq<Node>)
    requires !KeyOnTarget(e) && group == Group(e, nodes, FarKey(e, n))
    requires |before| == |nodes| && Values(nodes) == Attach(e, before, done)
    modifies nodes
    ensures Values(nodes) == Attach(e, before, done + [n])
  {
    hide Found, ReadUuid, OwnColumn, FarColumn, Group;
    forall m ensures m in group <==> m in nodes && KeyOf(e, m) == FarKey(e, n) {
      GroupMembers(e, nodes, FarKey(e, n), m);
    }
    AssignGroup(e, group, n, nodes);
    forall i | 0 <= i < |nodes| ensures nodes[i].Value() == AttachOne(e, before, done + [n], i) {
      AttachStep(e, before, done, n, i);
      assert old(nodes[i].Value()) == old(Values(nodes))[i] == AttachOne(e, before, done, i);
      assert OwnKey(e, before[i]) == KeyOf(e, nodes[i]);
    }
  }

  // The many-to-one loop over the child query's results.
  method Scatter(e: Edge, nodes: seq<Entity>, ids: seq<Uuid>, nodeids: map<Uuid, seq<Entity>>, far: seq<Node>)
    returns (error: Option<Error>)
    requires !KeyOnTarget(e) && Grouped(e, nodes, ids, nodeids)
    modifies nodes
    ensures var strangers := Strangers(e, old(Values(nodes)), far);
            error == if strangers == [] then None else Some(UnexpectedForeignKey(e, FarKey(e, strangers[0])))
    ensures error.None? ==> Values(nodes) == Attach(e, old(Values(nodes)), far)
  {
    hide Attach, Strangers, Group, KeyOf, ReadUuid, OwnColumn, FarColumn, FirstOccurrences;
    ghost var before := Values(nodes);
    ValuesKeys(e, nodes);
    FirstOccurrencesDistinct(KeysOf(e, nodes));
    NothingAttached(e, before);
    for j := 0 to |far|
      invariant Strangers(e, before, far[..j]) == []
      invariant Values(nodes) == Attach(e, before, far[..j])
    {
      var key := FarKey(e, far[j]);
      assert far[..j + 1] == far[..j] + [far[j]];
      StrangersStep(e, before, far[..j], far[j]);
      if key !in nodeids {
        StrangersPrefix(e, before, far, j + 1);
        return Some(UnexpectedForeignKey(e, key));
      }
      AttachResult(e, nodes, nodeids[key], far[j], before, far[..j]);
    }
    assert far[..|far|] == far;
    error := None;
  }

  // ----- the one-to-one edge -----

  // The last node with the key.
  ghost predicate IsLastOf(e: Edge, nodes: seq<Entity>, key: Uuid, n: Entity) {
    exists i | 0 <= i < |nodes| :: nodes[i] == n && IsLastAt(e, nodes, key, i)
  }

  ghost predicate IsLastAt(e: Edge, nodes: seq<Entity>, key: Uuid, i: nat)
    requires i < |nodes|
  {
    KeyOf(e, nodes[i]) == key && forall j | i < j < |nodes| :: KeyOf(e, nodes[j]) != key
  }

  ghost predicate IndexedBy(e: Edge, nodes: seq<Entity>, nodeids: map<Uuid, Entity>) {
    && (forall key :: key in nodeids <==> key in KeysOf(e, nodes))
    && (forall key | key in nodeids :: IsLastOf(e, nodes, key, nodeids[key]))
  }

  method IndexByKey(e: Edge, nodes: seq<Entity>) returns (fks: seq<Uuid>, nodeids: map<Uuid, Entity>)
    ensures fks == KeysOf(e, nodes) && IndexedBy(e, nodes, nodeids)
  {
    fks, nodeids := [], map[];
    for i := 0 to |nodes|
      invariant fks == KeysOf(e, nodes[..i]) && IndexedBy(e, nodes[..i], nodeids)
    {
      IndexedStep(e, nodes[..i], nodes[i], nodeids);
      assert nodes[..i] + [nodes[i]] == nodes[..i + 1];
      fks := fks + [KeyOf(e, nodes[i])];
      nodeids := nodeids[KeyOf(e, nodes[i]) := nodes[i]];
    }
    assert nodes[..|nodes|] == nodes;
  }

  lemma IndexedStep(e: Edge, nodes: seq<Entity>, n: Entity, nodeids: map<Uuid, Entity>)
    requires IndexedBy(e, nodes, nodeids)
    ensures IndexedBy(e, nodes + [n], nodeids[KeyOf(e, n) := n])
  {
    assert KeysOf(e, nodes + [n]) == KeysOf(e, nodes) + [KeyOf(e, n)];
    var more := nodeids[KeyOf(e, n) := n];
    forall key | key in more ensures IsLastOf(e, nodes + [n], key, more[key]) {
      if key == KeyOf(e, n) {
        NewIsLast(e, nodes, n);
      } else {
        StaysLast(e, nodes, n, key, nodeids[key]);
      }
    }
  }

  lemma NewIsLast(e: Edge, nodes: seq<Entity>, n: Entity)
    ensures IsLastOf(e, nodes + [n], KeyOf(e, n), n)
  {
    assert (nodes + [n])[|nodes|] == n && IsLastAt(e, nodes + [n], KeyOf(e, n), |nodes|);
  }

  lemma StaysLast(e: Edge, nodes: seq<Entity>, n: Entity, key: Uuid, m: Entity)
    requires IsLastOf(e, nodes, key, m) && KeyOf(e, n) != key
    ensures IsLastOf(e, nodes + [n], key, m)
  {
    var i :| 0 <= i < |nodes| && nodes[i] == m && IsLastAt(e, nodes, key, i);
    assert (nodes + [n])[i] == m && IsLastAt(e, nodes + [n], key, i);
  }

  method AttachToOne(e: Edge, nodes: seq<Entity>, m: Entity, n: Node, ghost before: seq<Node>, ghost done: seq<Node>)
    requires KeyOnTarget(e) && NoRepeats(nodes) && IsLastOf(e, nodes, FarKey(e, n), m)
    requires |before| == |nodes| && Values(nodes) == Attach(e, before, done)
    modifies m
    ensures Values(nodes) == Attach(e, before, done + [n])
  {
    forall k | 0 <= k < |nodes| ensures before[k].row == nodes[k].row {
      assert Values(nodes)[k] == AttachOne(e, before, done, k);
    }
    m.edges := m.edges[e := n];
    forall i | 0 <= i < |nodes| ensures nodes[i].Value() == AttachOne(e, before, done + [n], i) {
      AttachStep(e, before, done, n, i);
      OnlyLast(e, nodes, m, n, before, done, i);
      assert old(nodes[i].Value()) == old(Values(nodes))[i] == AttachOne(e, before, done, i);
    }
  }

  // Of the nodes with the key only the last is in the index.
  lemma OnlyLast(e: Edge, nodes: seq<Entity>, m: Entity, n: Node, before: seq<Node>, done: seq<Node>, i: nat)
    requires KeyOnTarget(e) && NoRepeats(nodes) && IsLastOf(e, nodes, FarKey(e, n), m) && i < |nodes| == |before|
    requires forall k | 0 <= k < |nodes| :: before[k].row == nodes[k].row
    ensures nodes[i] == m <==> OwnKey(e, before[i]) == FarKey(e, n) && Indexed(e, before, i)
  {
    var k :| 0 <= k < |nodes| && nodes[k] == m && IsLastAt(e, nodes, FarKey(e, n), k);
    assert forall j | 0 <= j < |nodes| :: OwnKey(e, before[j]) == KeyOf(e, nodes[j]);
  }

  // The one-to-one loop over the child query's results.
  method ScatterOne(e: Edge, nodes: seq<Entity>, nodeids: map<Uuid, Entity>, far: seq<Node>)
    returns (error: Option<Error>)
    requires KeyOnTarget(e) && NoRepeats(nodes) && IndexedBy(e, nodes, nodeids)
    modifies nodes
    ensures var strangers := Strangers(e, old(Values(nodes)), far);
            error == if strangers == [] then None else Some(UnexpectedForeignKey(e, FarKey(e, strangers[0])))
    ensures error.None? ==> Values(nodes) == Attach(e, old(Values(nodes)), far)
  {
    hide Attach, Strangers, KeyOf, ReadUuid, OwnColumn, FarColumn, IsLastOf;
    ghost var before := Values(nodes);
    ValuesKeys(e, nodes);
    NothingAttached(e, before);
    for j := 0 to |far|
      invariant Strangers(e, before, far[..j]) == []
      invariant Values(nodes) == Attach(e, before, far[..j])
    {
      var key := FarKey(e, far[j]);
      assert far[..j + 1] == far[..j] + [far[j]];
      StrangersStep(e, before, far[..j], far[j]);
      if key !in nodeids {
        StrangersPrefix(e, before, far, j + 1);
        return Some(UnexpectedForeignKey(e, key));
      }
      LastIsNode(e, nodes, key, nodeids[key]);
      AttachToOne(e, nodes, nodeids[key], far[j], before, far[..j]);
    }
    assert far[..|far|] == far;
    error := None;
  }

  lemma LastIsNode(e: Edge, nodes: seq<Entity>, key: Uuid, n: Entity)
    requires IsLastOf(e, nodes, key, n)
    ensures n in nodes
  {
  }
}
