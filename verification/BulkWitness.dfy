/** Small bulks that the program saves, or reports on, otherwise than its documentation says. */
module BulkWitnesses {
  import opened Schema
  import opened Codec
  import opened Create
  import opened BulkLaws

  // A store that takes every batch.
  function Taking(hooks: seq<seq<Hook>>): Bulk {
    Bulk(hooks, (before: seq<seq<Option<CreateSpec>>>, batch: seq<Option<CreateSpec>>) => None)
  }

  // A hook that hands down another mutation, once.
  function Substituting(other: Mutation): Hook {
    Hook(1, (replies: seq<Outcome>, f: Fields) => Call(f, Some(other)), LastReply)
  }

  // A hook that reports success without calling.
  function Stopping(): Hook {
    Hook(0, (replies: seq<Outcome>, f: Fields) => Return(Fine(Nothing)), (replies: seq<Outcome>, f: Fields) => Fine(Nothing))
  }

  // A hook that calls once and then reports failure.
  function Failing(): Hook {
    Hook(1, (replies: seq<Outcome>, f: Fields) => Call(f, None), (replies: seq<Outcome>, f: Fields) => Fail(HookError(1)))
  }

  function LastReply(replies: seq<Outcome>, f: Fields): Outcome {
    if replies == [] then Fail(HookError(0)) else replies[|replies| - 1]
  }

  // One builder for each mutation, all with the same valid fields and nothing done yet.
  function Starting(current: seq<Mutation>, muts: map<Mutation, Mut>): State {
    State(muts, current, seq(|current|, _ => None), seq(|current|, _ => None), [], [])
  }

  const READY := Mut(BARE_COMPONENT, false)

  // A hook hands down a mutation with no fields at all: it fails the check, and is stored.
  lemma EmptyRowStored(own: Mutation, other: Mutation)
    requires own != other && own.ofComponents && other.ofComponents
    ensures var b := Taking([[Substituting(other)]]);
            var s := Starting([own], map[own := READY, other := Mut(map[], false)]);
            var (r, o) := Mutate(b, s, 0, 0, own);
            o.Fine? && r.batches == [[Some(SpecOf(map[]))]] && Check(map[]).Some?
  {
    hide Check, NodeOf, SpecOf, Innermost, BARE_COMPONENT, HandedSpecs, HandedAccepted;
    var b := Taking([[Substituting(other)]]);
    var s := Starting([own], map[own := READY, other := Mut(map[], false)]);
    var s1 := s.Log(Enter(0, 0)).Write(own, BARE_COMPONENT);
    var (t, p) := Innermost(b, s1, 0, other);
    assert Decide(b.hooks[0][0], [], BARE_COMPONENT) == Call(BARE_COMPONENT, Some(other));
    assert [] + [p] == [p];
    assert Mutate(b, s1, 0, 1, other) == (t, p);
    assert Perform(b, t, 0, 0, own, [p]) == (t, p);
    BareChecks();
    StartsSound(b, s1, false);
    HandedExactly(b, s1, 0, other);
    OneHanded(b, s1, other);
    EmptyFails();
  }

  lemma OneHanded(b: Bulk, s: State, m: Mutation)
    requires |b.hooks| == 1 && Shaped(b, s) && m.ofComponents && Check(s.At(s.current[0]).fields).None?
    ensures HandedAccepted(b, s, 0, m) && HandedSpecs(b, s, 0, m) == [Some(SpecOf(s.At(m).fields))]
  {
    hide Check, NodeOf, SpecOf;
    HandedSpecsAre(b, s, 0, m);
  }

  lemma EmptyFails()
    ensures Check(map[]).Some?
  {
    hide Check;
    CheckPasses(map[]);
    assert REQUIRED[0] in REQUIRED;
  }

  // The second of two builders stops with success: the bulk succeeds with nothing stored, the first builder's
  // mutation marked, and no node for the second.
  lemma NothingStored(first: Mutation, second: Mutation)
    requires first != second && first.ofComponents && second.ofComponents
    ensures var b := Taking([[], [Stopping()]]);
            var s := Starting([first, second], map[first := READY, second := READY]);
            var (r, o) := Mutate(b, s, 0, 0, first);
            o.Fine? && r.batches == [] && r.At(first).done && !r.At(second).done && r.nodes[1] == None
  {
    hide Check, NodeOf, SpecOf, Mutate, BARE_COMPONENT;
    var b := Taking([[], [Stopping()]]);
    var s := Starting([first, second], map[first := READY, second := READY]);
    BareChecks();
    assert FieldsOf(b, s, 0) == BARE_COMPONENT;
    assert Accepted(b, s, 0);
    StoppedChain(b, s, 1, 0);
    assert s.current[..1] == [first];
  }

  // The only builder's hook reports failure after its call: the save fails, and the row is stored.
  lemma FailedButStored(own: Mutation)
    requires own.ofComponents
    ensures var b := Taking([[Failing()]]);
            var s := Starting([own], map[own := READY]);
            var (r, o) := Mutate(b, s, 0, 0, own);
            o.Fail? && r.batches == [[Some(SpecOf(BARE_COMPONENT))]] && r.At(own).done
  {
    hide Check, NodeOf, SpecOf, Mutate, BARE_COMPONENT;
    var b := Taking([[Failing()]]);
    var s := Starting([own], map[own := READY]);
    BareChecks();
    assert b.hooks[0][1..] == [] && Edit(Failing(), BARE_COMPONENT) == BARE_COMPONENT;
    assert EditAll([Failing()], BARE_COMPONENT) == EditAll([], BARE_COMPONENT);
    assert s.At(s.current[0]).fields == BARE_COMPONENT;
    assert FieldsOf(b, s, 0) == BARE_COMPONENT;
    assert Accepted(b, s, 0);
    FailedLate(b, s, 0, 0);
    assert AllSpecs(b, s) == [Some(SpecOf(BARE_COMPONENT))];
  }
}
