/** The builders of component runs and their conflict clauses, changed in place. */
module RunBuilders {
  import opened Schema
  import opened Upserts
  import opened UpsertLaws

  class RunTable {
    var rows: seq<Row>
    // Whether the store turns down a batch for another reason than the conflict target.
    const refuses: (seq<Row>, seq<Row>) -> bool

    constructor (rows: seq<Row>, refuses: (seq<Row>, seq<Row>) -> bool)
      ensures this.rows == rows && this.refuses == refuses
    {
      this.rows, this.refuses := rows, refuses;
    }
  }

  class RunCreate {
    // The fields of the builder's mutation.
    var fields: Row
    var conflict: seq<ConflictOption>

    constructor ()
      ensures fields == map[] && conflict == []
    {
      fields, conflict := map[], [];
    }

    method Defaults(env: RunEnv)
      modifies `fields
      ensures fields == RunDefaults(old(fields), env)
    {
      var i := 0;
      while i < |RUN_DEFAULTED|
        invariant 0 <= i <= |RUN_DEFAULTED|
        invariant FillRun(fields, RUN_DEFAULTED[i..], env) == RunDefaults(old(fields), env)
      {
        var c := RUN_DEFAULTED[i];
        assert RUN_DEFAULTED[i..][1..] == RUN_DEFAULTED[i + 1..];
        if c !in fields {
          fields := fields[c := RunDefault(c, env)];
        }
        i := i + 1;
      }
    }
  }

  datatype BulkError =
    | BuilderFailed
    | ConflictOnBuilder(index: nat)
    | MissingOptions
    | Invalid(error: RunError)
    | StoreRefused

  ghost function FieldsOf(builders: seq<RunCreate>): (fs: seq<Row>)
    reads builders
    ensures |fs| == |builders| && forall k | 0 <= k < |fs| :: fs[k] == builders[k].fields
  {
    seq(|builders|, k requires 0 <= k < |builders| reads builders => builders[k].fields)
  }

  // The first failing check, in the order of the builders.
  function FirstFailure(fs: seq<Row>): Option<RunError> {
    if fs == [] then None
    else if RunCheck(fs[0]).Some? then RunCheck(fs[0])
    else FirstFailure(fs[1..])
  }

  lemma NoFailure()
    ensures FirstFailure([]) == None
  {
  }

  // The first builder that is rejected decides.
  lemma {:induction false} FirstFailureIs(fs: seq<Row>)
    ensures FirstFailure(fs).None? <==> forall k | 0 <= k < |fs| :: RunCheck(fs[k]).None?
    ensures FirstFailure(fs).Some? ==>
              exists k :: 0 <= k < |fs| && FirstFailure(fs) == RunCheck(fs[k])
                && forall j | 0 <= j < k :: RunCheck(fs[j]).None?
  {
    hide RunCheck;
    if fs != [] && RunCheck(fs[0]).None? {
      FirstFailureIs(fs[1..]);
      assert forall k | 1 <= k < |fs| :: fs[k] == fs[1..][k - 1];
      if FirstFailure(fs).Some? {
        var k :| 0 <= k < |fs[1..]| && FirstFailure(fs) == RunCheck(fs[1..][k])
          && forall j | 0 <= j < k :: RunCheck(fs[1..][j]).None?;
        assert FirstFailure(fs) == RunCheck(fs[k + 1]);
        assert forall j | 0 <= j < k + 1 :: RunCheck(fs[j]).None?;
      }
    }
  }

  class RunCreateBulk {
    const failed: bool
    const builders: seq<RunCreate>
    var conflict: seq<ConflictOption>
    const table: RunTable

    constructor (failed: bool, builders: seq<RunCreate>, table: RunTable)
      ensures this.failed == failed && this.builders == builders && this.table == table && conflict == []
    {
      this.failed, this.builders, this.table, conflict := failed, builders, table, [];
    }

    // The options given replace those given before.
    method OnConflict(options: seq<ConflictOption>)
      modifies `conflict
      ensures conflict == options
    {
      conflict := options;
    }

    method OnConflictColumns(columns: seq<Column>)
      modifies `conflict
      ensures conflict == old(conflict) + [Target(columns)]
    {
      conflict := conflict + [Target(columns)];
    }

    method UpdateNewValues()
      modifies `conflict
      ensures conflict == old(conflict) + NEW_VALUES
      ensures old(Resolutions(conflict)) == [] ==> Resolutions(conflict) == NEW_VALUES
    {
      ghost var before := conflict;
      conflict := conflict + [NewValues];
      conflict := conflict + [KeepImmutable];
      assert conflict == before + NEW_VALUES;
      assert (before + [NewValues])[..|before|] == before;
      assert conflict[..|before| + 1] == before + [NewValues];
    }

    // The function that UpdateNewValues added, called now: it loops over the builders as they are.
    method KeepImmutables(u: UpdateSet) returns (r: UpdateSet)
      ensures r == KeepAll(u, FieldsOf(builders))
    {
      r := u;
      ghost var seen := FieldsOf(builders);
      for i := 0 to |builders|
        invariant KeepAll(r, seen[i..]) == KeepAll(u, seen)
      {
        assert seen[i..][1..] == seen[i + 1..];
        var b := builders[i];
        if Id in b.fields {
          r := r[Id := Itself];
        }
        if OrganizationId in b.fields {
          r := r[OrganizationId := Itself];
        }
        if WorkflowRunId in b.fields {
          r := r[WorkflowRunId := Itself];
        }
        if CreatedAt in b.fields {
          r := r[CreatedAt := Itself];
        }
      }
    }

    // The update set of the statement, option by option.
    method BuildUpdates(columns: set<Column>) returns (u: UpdateSet)
      ensures u == Updates(conflict, columns, FieldsOf(builders))
    {
      u := map[];
      for i := 0 to |conflict|
        invariant u == Updates(conflict[..i], columns, FieldsOf(builders))
      {
        assert conflict[..i + 1][..i] == conflict[..i];
        match conflict[i] {
          case Target(_) =>
          case NewValues => u := u + map c | c in columns :: Excluded;
          case IgnoreAll => u := u + map c | c in columns :: Itself;
          case Custom(c, action) => u := u[c := action];
          case KeepImmutable => u := KeepImmutables(u);
        }
      }
      assert conflict[..|conflict|] == conflict;
    }

    // What a save does to the table and reports: nothing for no builders; the first failing check; or the statement,
    // unless the store refuses it.
    ghost predicate Saved(fs: seq<Row>, before: seq<Row>, after: seq<Row>, failure: Option<BulkError>)
      requires IsTable(before)
      reads `conflict
    {
      if fs == [] then failure == None && after == before
      else if FirstFailure(fs).Some? then failure == Some(Invalid(FirstFailure(fs).value)) && after == before
      else
        var r := Statement(before, fs, conflict);
        if table.refuses(before, AllProposed(fs)) || r.None? then failure == Some(StoreRefused) && after == before
        else failure == None && after == r.value
    }

    ghost predicate Valid()
      reads table
    {
      && (forall i, j | 0 <= i < j < |builders| :: builders[i] != builders[j])
      && IsTable(table.rows)
    }

    // The columns that some builder sets.
    method GatherColumns() returns (columns: set<Column>)
      ensures columns == Inserted(FieldsOf(builders))
    {
      hide Seen;
      columns := {};
      ghost var fs := FieldsOf(builders);
      for i := 0 to |builders|
        invariant columns + Inserted(fs[i..]) == Inserted(fs)
      {
        assert fs[i..][0] == builders[i].fields && fs[i..][1..] == fs[i + 1..];
        columns := columns + builders[i].fields.Keys;
      }
    }

    // The rows of the batch.
    method GatherRows(columns: set<Column>) returns (rows: seq<Row>)
      requires columns == Inserted(FieldsOf(builders))
      ensures rows == AllProposed(FieldsOf(builders))
    {
      hide Proposed, Inserted, Seen, RUN_COLUMNS;
      rows := [];
      ghost var fs := FieldsOf(builders);
      for i := 0 to |builders|
        invariant rows == AllProposed(fs)[..i]
      {
        rows := rows + [Proposed(builders[i].fields, columns)];
      }
    }

    // The batch: all rows in one statement, or none.
    method BatchCreate() returns (failure: Option<BulkError>)
      requires Valid()
      modifies table`rows
      ensures Valid()
      ensures var fs := FieldsOf(builders);
              var after := Statement(old(table.rows), fs, conflict);
              if table.refuses(old(table.rows), AllProposed(fs)) || after.None? then
                failure == Some(StoreRefused) && table.rows == old(table.rows)
              else
                failure == None && table.rows == after.value
    {
      hide Updates, UpsertRows, Proposed, Inserted, IsRow, RUN_COLUMNS;
      var columns := GatherColumns();
      var rows := GatherRows(columns);
      if table.refuses(table.rows, rows) {
        return Some(StoreRefused);
      }
      var u := BuildUpdates(columns);
      var after := UpsertRows(table.rows, rows, TargetOf(conflict), u);
      if after.None? {
        return Some(StoreRefused);
      }
      table.rows := after.value;
      return None;
    }

    // Saves all builders: defaults, then checks builder by builder, then the batch. The ids reported are those
    // proposed.
    method Save(envs: seq<RunEnv>) returns (failure: Option<BulkError>, ids: seq<Value>)
      requires Valid() && |envs| == |builders|
      modifies builders, table`rows
      ensures Valid() && IsTable(old(table.rows))
      ensures forall b | b in builders :: b.conflict == old(b.conflict)
      ensures failed ==> failure == Some(BuilderFailed) && table.rows == old(table.rows)
      ensures !failed ==> Saved(AllDefaults(old(FieldsOf(builders)), envs), old(table.rows), table.rows, failure)
      ensures !failed && failure == None ==>
                var fs := AllDefaults(old(FieldsOf(builders)), envs);
                |ids| == |fs| && forall k | 0 <= k < |fs| :: Id in fs[k] && ids[k] == fs[k][Id]
      // Each row is inserted, or resolved with the stored row it conflicts with as the options say.
      ensures !failed && failure == None && |builders| > 0 ==>
                var fs := AllDefaults(old(FieldsOf(builders)), envs);
                Upserted(old(table.rows), fs, fs, table.rows, conflict)
      ensures !failed && failure == Some(StoreRefused) ==>
                var fs := AllDefaults(old(FieldsOf(builders)), envs);
                table.refuses(old(table.rows), AllProposed(fs)) || NoneUpserted(old(table.rows), fs, conflict)
      // With UpdateNewValues as the only resolution, every stored row stays, with its immutable columns.
      ensures Resolutions(conflict) == NEW_VALUES ==> Continues(old(table.rows), table.rows)
    {
      hide RunDefaults, RunCheck, Statement, NEW_VALUES, Resolutions, Continues, IsTable, AllProposed, Upserted, NoneUpserted, FirstFailure, Proposed;
      NoFailure();
      ids := [];
      StaysItself(table.rows);
      if failed {
        return Some(BuilderFailed), [];
      }
      FillAll(envs);
      failure, ids := CheckAll();
      if failure.None? && |builders| > 0 {
        failure := Store();
      }
    }

    // The batch, and what the options make of the rows that were there.
    method Store() returns (failure: Option<BulkError>)
      requires Valid()
      modifies table`rows
      ensures Valid() && IsTable(old(table.rows))
      ensures var fs := FieldsOf(builders);
              var after := Statement(old(table.rows), fs, conflict);
              if table.refuses(old(table.rows), AllProposed(fs)) || after.None? then
                failure == Some(StoreRefused) && table.rows == old(table.rows)
              else
                failure == None && table.rows == after.value
      ensures failure == None ==> Upserted(old(table.rows), FieldsOf(builders), FieldsOf(builders), table.rows, conflict)
      ensures failure == Some(StoreRefused) ==>
                || table.refuses(old(table.rows), AllProposed(FieldsOf(builders)))
                || NoneUpserted(old(table.rows), FieldsOf(builders), conflict)
      ensures Resolutions(conflict) == NEW_VALUES ==> Continues(old(table.rows), table.rows)
    {
      hide Statement, NEW_VALUES, Resolutions, Continues, IsTable, AllProposed, Upserted, FieldsOf;
      ghost var fs := FieldsOf(builders);
      StaysItself(table.rows);
      failure := BatchCreate();
      forall after
        ensures Statement(old(table.rows), fs, conflict) == Some(after) <==> Upserted(old(table.rows), fs, fs, after, conflict)
      {
        StatementIs(old(table.rows), fs, conflict);
        StatementUpserts(old(table.rows), fs, fs, after, conflict);
      }
      if failure.None? && Resolutions(conflict) == NEW_VALUES {
        StatementContinues(old(table.rows), fs, conflict);
      }
    }

    // The checks of all builders, until one fails, and the ids proposed.
    method CheckAll() returns (failure: Option<BulkError>, ids: seq<Value>)
      requires forall k | 0 <= k < |builders| :: Id in builders[k].fields
      ensures var found := FirstFailure(FieldsOf(builders));
              failure == if found.Some? then Some(Invalid(found.value)) else None
      ensures failure == None ==>
                |ids| == |builders| && forall k | 0 <= k < |builders| :: ids[k] == builders[k].fields[Id]
    {
      hide RunCheck;
      ids := [];
      ghost var fs := FieldsOf(builders);
      for i := 0 to |builders|
        invariant FirstFailure(fs[i..]) == FirstFailure(fs)
        invariant |ids| == i && forall k | 0 <= k < i :: ids[k] == builders[k].fields[Id]
      {
        assert fs[i..][0] == builders[i].fields && fs[i..][1..] == fs[i + 1..];
        var invalid := RunCheck(builders[i].fields);
        if invalid.Some? {
          assert FirstFailure(fs[i..]) == invalid;
          return Some(Invalid(invalid.value)), [];
        }
        ids := ids + [builders[i].fields[Id]];
      }
      failure := None;
    }

    method FillAll(envs: seq<RunEnv>)
      requires Valid() && |envs| == |builders|
      modifies builders
      ensures FieldsOf(builders) == AllDefaults(old(FieldsOf(builders)), envs)
      ensures forall k | 0 <= k < |builders| :: Id in builders[k].fields
      ensures forall b | b in builders :: b.conflict == old(b.conflict)
    {
      hide RunDefaults;
      for i := 0 to |builders|
        invariant forall b | b in builders :: b.conflict == old(b.conflict)
        invariant forall k | 0 <= k < |builders| ::
                    builders[k].fields == if k < i then RunDefaults(old(builders[k].fields), envs[k]) else old(builders[k].fields)
      {
        builders[i].Defaults(envs[i]);
      }
      forall k | 0 <= k < |builders| ensures Id in builders[k].fields {
        HasId(old(builders[k].fields), envs[k]);
      }
    }

    // An upsert is refused when a builder of the bulk has a conflict clause of its own, at the first such
    // builder, and when the bulk has none.
    method Exec(envs: seq<RunEnv>) returns (failure: Option<BulkError>)
      requires Valid() && |envs| == |builders|
      modifies builders, table`rows
      ensures Valid() && IsTable(old(table.rows))
      ensures failed ==> failure == Some(BuilderFailed) && table.rows == old(table.rows)
      ensures !failed && (exists k :: 0 <= k < |builders| && old(builders[k].conflict) != []) ==>
                && table.rows == old(table.rows)
                && failure.Some? && failure.value.ConflictOnBuilder? && failure.value.index < |builders|
                && old(builders[failure.value.index].conflict) != []
                && forall k | 0 <= k < failure.value.index :: old(builders[k].conflict) == []
      ensures !failed && (forall k | 0 <= k < |builders| :: old(builders[k].conflict) == []) ==>
                if conflict == [] then failure == Some(MissingOptions) && table.rows == old(table.rows)
                else Saved(AllDefaults(old(FieldsOf(builders)), envs), old(table.rows), table.rows, failure)
      ensures !failed && failure == None && |builders| > 0 ==>
                var fs := AllDefaults(old(FieldsOf(builders)), envs);
                Upserted(old(table.rows), fs, fs, table.rows, conflict)
      ensures !failed && failure == Some(StoreRefused) ==>
                var fs := AllDefaults(old(FieldsOf(builders)), envs);
                table.refuses(old(table.rows), AllProposed(fs)) || NoneUpserted(old(table.rows), fs, conflict)
      ensures Resolutions(conflict) == NEW_VALUES ==> Continues(old(table.rows), table.rows)
    {
      hide Statement, NEW_VALUES, Resolutions, Continues, IsTable, Saved, RunDefaults, Upserted, NoneUpserted, AllProposed;
      StaysItself(table.rows);
      if failed {
        return Some(BuilderFailed);
      }
      for i := 0 to |builders|
        invariant forall k | 0 <= k < i :: builders[k].conflict == []
      {
        if builders[i].conflict != [] {
          return Some(ConflictOnBuilder(i));
        }
      }
      if conflict == [] {
        return Some(MissingOptions);
      }
      var ids;
      failure, ids := Save(envs);
    }
  }

  lemma HasId(f: Row, env: RunEnv)
    ensures Id in RunDefaults(f, env)
  {
    hide FillRun;
    FillRunFields(f, RUN_DEFAULTED, env, Id);
    assert RUN_DEFAULTED[4] == Id;
  }
}
