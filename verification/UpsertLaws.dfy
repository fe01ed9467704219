/** What a bulk upsert proposes and stores, column by column, for any options: nothing here is stated through the
  * update set that the options build. */
module UpsertLaws {
  import opened Schema
  import opened Upserts

  // ----- options -----

  // The option says what happens to the column.
  ghost predicate Touches(option: ConflictOption, c: Column, columns: set<Column>, seen: seq<Row>) {
    match option
    case Target(_) => false
    case NewValues | IgnoreAll => c in columns
    case Custom(d, _) => c == d
    case KeepImmutable => (c == Id || c == OrganizationId || c == WorkflowRunId || c == CreatedAt) && Seen(seen, c)
  }

  // Option k is the last one that touches the column.
  ghost predicate LastTouch(options: seq<ConflictOption>, k: int, c: Column, columns: set<Column>, seen: seq<Row>) {
    && 0 <= k < |options| && Touches(options[k], c, columns, seen)
    && forall j | k < j < |options| :: !Touches(options[j], c, columns, seen)
  }

  // What an option that touches a column puts there.
  function Put(option: ConflictOption, stored: Value, proposed: Value): Value {
    match option
    case NewValues | Custom(_, Excluded) => proposed
    case Custom(_, Fixed(v)) => v
    case _ => stored
  }

  // A conflicting row after the update: in each column what the last option that touches it puts there, and where none
  // does the old value.
  ghost predicate Resolved(stored: Row, proposed: Row, after: Row, options: seq<ConflictOption>, columns: set<Column>,
                           seen: seq<Row>)
    requires IsTotal(stored) && IsTotal(proposed)
  {
    IsTotal(after)
    && forall c | c in RUN_COLUMNS ::
         && ((forall k | 0 <= k < |options| :: !Touches(options[k], c, columns, seen)) ==> after[c] == stored[c])
         && forall k | LastTouch(options, k, c, columns, seen) :: after[c] == Put(options[k], stored[c], proposed[c])
  }

  function ActionOf(option: ConflictOption): Action {
    match option
    case NewValues => Excluded
    case Custom(_, action) => action
    case _ => Itself
  }

  lemma ApplyIs(u: UpdateSet, option: ConflictOption, columns: set<Column>, seen: seq<Row>, c: Column)
    ensures var v := Apply(u, option, columns, seen);
            if Touches(option, c, columns, seen) then c in v && v[c] == ActionOf(option)
            else (c in v <==> c in u) && (c in u ==> v[c] == u[c])
  {
    hide KeepAll;
    KeepAllIs(u, seen, c);
  }

  // The last option that touches a column, or -1.
  lemma {:induction false} UpdatesAre(options: seq<ConflictOption>, columns: set<Column>, seen: seq<Row>, c: Column)
    returns (last: int)
    ensures -1 <= last < |options|
    ensures forall j | last < j < |options| :: !Touches(options[j], c, columns, seen)
    ensures last >= 0 ==> Touches(options[last], c, columns, seen)
    ensures var u := Updates(options, columns, seen);
            if last >= 0 then c in u && u[c] == ActionOf(options[last]) else c !in u
    decreases |options|
  {
    hide Apply, Touches;
    last := -1;
    if options != [] {
      var n := |options| - 1;
      ApplyIs(Updates(options[..n], columns, seen), options[n], columns, seen, c);
      if Touches(options[n], c, columns, seen) {
        last := n;
      } else {
        last := UpdatesAre(options[..n], columns, seen, c);
      }
    }
  }

  lemma ResolvedBy(stored: Row, proposed: Row, options: seq<ConflictOption>, columns: set<Column>, seen: seq<Row>)
    requires IsTotal(stored) && IsTotal(proposed)
    ensures Resolved(stored, proposed, Resolve(stored, proposed, Updates(options, columns, seen)), options, columns, seen)
  {
    hide Updates, Touches, RUN_COLUMNS;
    var u := Updates(options, columns, seen);
    var after := Resolve(stored, proposed, u);
    forall c | c in RUN_COLUMNS
      ensures (forall k | 0 <= k < |options| :: !Touches(options[k], c, columns, seen)) ==> after[c] == stored[c]
      ensures forall k | LastTouch(options, k, c, columns, seen) :: after[c] == Put(options[k], stored[c], proposed[c])
    {
      var last := UpdatesAre(options, columns, seen, c);
      forall k | LastTouch(options, k, c, columns, seen) ensures k == last {}
    }
  }

  // ----- rows -----

  // The row that a builder proposes: what it set; NULL for what only others set; and what the table puts there for what
  // none set.
  ghost predicate Proposes(fs: seq<Row>, j: nat, row: Row)
    requires j < |fs|
  {
    IsTotal(row)
    && forall c | c in RUN_COLUMNS ::
         row[c] ==
           if c in fs[j] then fs[j][c]
           else if exists k :: 0 <= k < |fs| && c in fs[k] then Null
           else
             match c
             case Status => Text("pending")
             case Name | Type | Message | RunName | Logs | Outputs | Resources | Policy | ApprovedBy | Approvals
               | ChartRevision | ValuesRevision => Text("")
             case _ => Null
  }

  lemma ProposedBy(fs: seq<Row>, j: nat)
    requires j < |fs|
    ensures Proposes(fs, j, Proposed(fs[j], Inserted(fs)))
  {
    hide RUN_COLUMNS, Inserted;
    forall c ensures c in Inserted(fs) <==> exists k :: 0 <= k < |fs| && c in fs[k] {
      assert c in Inserted(fs) <==> Seen(fs, c);
    }
  }

  // The conflict target is that of the last option that gives one.
  ghost predicate IsTarget(options: seq<ConflictOption>, target: seq<Column>) {
    || (target == [] && forall k | 0 <= k < |options| :: !options[k].Target?)
    || exists k :: 0 <= k < |options| && options[k] == Target(target) && forall j | k < j < |options| :: !options[j].Target?
  }

  lemma {:induction false} LastTarget(options: seq<ConflictOption>) returns (last: int)
    ensures -1 <= last < |options| && forall j | last < j < |options| :: !options[j].Target?
    ensures if last >= 0 then options[last] == Target(TargetOf(options)) else TargetOf(options) == []
  {
    last := |options| - 1;
    if options != [] && !options[last].Target? {
      last := LastTarget(options[..|options| - 1]);
    }
  }

  lemma TargetIs(options: seq<ConflictOption>)
    ensures IsTarget(options, TargetOf(options))
  {
    hide TargetOf;
    var last := LastTarget(options);
  }

  // Two rows agree on the target: in every column, and not on NULL.
  ghost predicate Agree(stored: Row, proposed: Row, target: seq<Column>)
    requires IsTotal(stored) && IsTotal(proposed)
  {
    target != [] && forall c | c in target :: c in RUN_COLUMNS && stored[c] == proposed[c] && proposed[c] != Null
  }

  // The values that the table takes in a column.
  predicate Takes(c: Column, v: Value) {
    match c
    case Id | OrganizationId | WorkflowRunId => v.UuidV?
    case ComponentId => v.UuidV? || v == Null
    case CreatedAt | UpdatedAt => v.TimeV?
    case ApprovedAt | StartedAt | FinishedAt => v.TimeV? || v == Null
    case _ => v.Text?
  }

  ghost predicate Storable(row: Row)
    requires IsTotal(row)
  {
    forall c | c in RUN_COLUMNS :: Takes(c, row[c])
  }

  lemma StorableIs(row: Row)
    requires IsTotal(row)
    ensures Storable(row) <==> IsRow(row)
  {
    hide RUN_COLUMNS;
  }

  // Where a row goes: onto the first stored row that agrees with it on the target, or behind the last.
  ghost predicate Place(table: seq<Row>, proposed: Row, target: seq<Column>, k: nat)
    requires IsTable(table) && IsTotal(proposed)
  {
    && k <= |table| && (k < |table| ==> Agree(table[k], proposed, target))
    && forall j | 0 <= j < k :: !Agree(table[j], proposed, target)
  }

  // One row of a statement: a row that can be stored is added at the end, or resolves the row it agrees with in place;
  // the result can be stored, and no other row has its id.
  ghost predicate Placed(table: seq<Row>, next: seq<Row>, proposed: Row, options: seq<ConflictOption>,
                         target: seq<Column>, columns: set<Column>, seen: seq<Row>)
    requires IsTable(table) && IsTotal(proposed)
  {
    hide RUN_COLUMNS, Fits, Resolved, Storable, Agree;
    ImmutableColumns();
    && Storable(proposed)
    && exists k: nat | Place(table, proposed, target, k) && k < |next| && IsTotal(next[k]) ::
         && (k == |table| ==> next == table + [proposed])
         && (k < |table| ==>
               && |next| == |table| && (forall j | 0 <= j < |table| && j != k :: next[j] == table[j])
               && Resolved(table[k], proposed, next[k], options, columns, seen) && Storable(next[k]))
         && forall j | 0 <= j < |table| && j != k :: table[j][Id] != next[k][Id]
  }

  lemma AgreeIs(stored: Row, proposed: Row, target: seq<Column>)
    requires IsTotal(stored) && IsTotal(proposed)
    ensures Agree(stored, proposed, target) <==> Collides(stored, proposed, target)
  {
  }

  lemma PlaceIs(table: seq<Row>, proposed: Row, target: seq<Column>, k: nat)
    requires IsTable(table) && IsTotal(proposed)
    ensures Place(table, proposed, target, k) <==> k == FirstCollision(table, proposed, target)
  {
    hide Agree, Collides, FirstCollision, Fits, RUN_COLUMNS;
    forall j | 0 <= j < |table| ensures Agree(table[j], proposed, target) <==> Collides(table[j], proposed, target) {
      AgreeIs(table[j], proposed, target);
    }
  }

  // A statement takes a row, and leaves a table, exactly when that table is the one with the row in its place.
  lemma RowPlaced(table: seq<Row>, next: seq<Row>, proposed: Row, options: seq<ConflictOption>, target: seq<Column>,
                  columns: set<Column>, seen: seq<Row>)
    requires IsTable(table) && IsTotal(proposed)
    ensures UpsertRow(table, proposed, target, Updates(options, columns, seen)) == Some(next)
       <==> Placed(table, next, proposed, options, target, columns, seen)
  {
    hide Updates, Resolved, Fits, RUN_COLUMNS, Resolve, Place, Storable, FirstCollision;
    ImmutableColumns();
    var u := Updates(options, columns, seen);
    var k := FirstCollision(table, proposed, target);
    StorableIs(proposed);
    forall j: nat ensures Place(table, proposed, target, j) <==> j == k {
      PlaceIs(table, proposed, target, j);
    }
    assert Place(table, proposed, target, k);
    if k < |table| {
      var row := Resolve(table[k], proposed, u);
      StorableIs(row);
      ResolvedBy(table[k], proposed, options, columns, seen);
      if |next| == |table| && IsTotal(next[k]) && Resolved(table[k], proposed, next[k], options, columns, seen) {
        ResolvedOne(table[k], proposed, row, next[k], options, columns, seen);
      }
      if Placed(table, next, proposed, options, target, columns, seen) {
        assert next == table[k := row];
      }
    }
  }

  lemma ResolvedOne(stored: Row, proposed: Row, a: Row, b: Row, options: seq<ConflictOption>, columns: set<Column>,
                    seen: seq<Row>)
    requires IsTotal(stored) && IsTotal(proposed)
    requires Resolved(stored, proposed, a, options, columns, seen) && Resolved(stored, proposed, b, options, columns, seen)
    ensures a == b
  {
    hide Touches, RUN_COLUMNS;
    forall c | c in RUN_COLUMNS ensures a[c] == b[c] {
      var last := UpdatesAre(options, columns, seen, c);
      assert last >= 0 ==> LastTouch(options, last, c, columns, seen);
    }
  }

  ghost predicate Steps(table: seq<Row>, rows: seq<Row>, after: seq<Row>, options: seq<ConflictOption>,
                        target: seq<Column>, columns: set<Column>, seen: seq<Row>)
    requires IsTable(table) && forall j | 0 <= j < |rows| :: IsTotal(rows[j])
    decreases |rows|
  {
    if rows == [] then after == table
    else
      exists next | IsTable(next) && Placed(table, next, rows[0], options, target, columns, seen) ::
        Steps(next, rows[1..], after, options, target, columns, seen)
  }

  lemma {:induction false} RowsStep(table: seq<Row>, rows: seq<Row>, after: seq<Row>, options: seq<ConflictOption>,
                                    target: seq<Column>, columns: set<Column>, seen: seq<Row>)
    requires IsTable(table) && forall j | 0 <= j < |rows| :: IsTotal(rows[j])
    ensures UpsertRows(table, rows, target, Updates(options, columns, seen)) == Some(after)
       <==> Steps(table, rows, after, options, target, columns, seen)
    decreases |rows|
  {
    hide UpsertRow, Updates, IsTotal, IsRow, Placed;
    if rows != [] {
      var u := Updates(options, columns, seen);
      var first := UpsertRow(table, rows[0], target, u);
      FirstOfRows(table, rows, target, u);
      forall next ensures first == Some(next) <==> Placed(table, next, rows[0], options, target, columns, seen) {
        RowPlaced(table, next, rows[0], options, target, columns, seen);
      }
      if first.Some? {
        RowsStep(first.value, rows[1..], after, options, target, columns, seen);
      }
    }
  }

  // The rows that the builders propose, the conflict target, and the columns that the statement inserts.
  ghost predicate Asks(fs: seq<Row>, options: seq<ConflictOption>, rows: seq<Row>, target: seq<Column>, columns: set<Column>) {
    && |rows| == |fs| && (forall j | 0 <= j < |fs| :: Proposes(fs, j, rows[j]) && IsTotal(rows[j]))
    && IsTarget(options, target)
    && forall c :: c in columns <==> exists k :: 0 <= k < |fs| && c in fs[k]
  }

  // What a bulk upsert that succeeds does to the table: row by row, in the order of the builders.
  ghost predicate Upserted(table: seq<Row>, fs: seq<Row>, seen: seq<Row>, after: seq<Row>, options: seq<ConflictOption>)
    requires IsTable(table)
  {
    exists rows, target, columns ::
      Asks(fs, options, rows, target, columns) && Steps(table, rows, after, options, target, columns, seen)
  }

  lemma AsksIs(fs: seq<Row>, options: seq<ConflictOption>, rows: seq<Row>, target: seq<Column>, columns: set<Column>)
    ensures Asks(fs, options, rows, target, columns) <==>
              rows == AllProposed(fs) && target == TargetOf(options) && columns == Inserted(fs)
  {
    hide TargetOf, Inserted, Proposed, Proposes, IsTarget, RUN_COLUMNS;
    var all := AllProposed(fs);
    TargetIs(options);
    forall c ensures c in Inserted(fs) <==> exists k :: 0 <= k < |fs| && c in fs[k] {
      assert c in Inserted(fs) <==> Seen(fs, c);
    }
    forall j | 0 <= j < |fs| ensures Proposes(fs, j, all[j]) {
      ProposedBy(fs, j);
    }
    if Asks(fs, options, rows, target, columns) {
      forall j | 0 <= j < |fs| ensures rows[j] == all[j] {
        ProposesOne(fs, j, rows[j], all[j]);
      }
      TargetOne(options, target, TargetOf(options));
    }
  }

  lemma ProposesOne(fs: seq<Row>, j: nat, a: Row, b: Row)
    requires j < |fs| && Proposes(fs, j, a) && Proposes(fs, j, b)
    ensures a == b
  {
    hide RUN_COLUMNS;
  }

  lemma TargetOne(options: seq<ConflictOption>, a: seq<Column>, b: seq<Column>)
    requires IsTarget(options, a) && IsTarget(options, b)
    ensures a == b
  {
  }

  // A statement succeeds with a table exactly when that is the table with every row in its place. So it fails exactly
  // when there is none.
  lemma StatementUpserts(table: seq<Row>, fs: seq<Row>, seen: seq<Row>, after: seq<Row>, options: seq<ConflictOption>)
    requires IsTable(table)
    ensures StatementSeeing(table, fs, seen, options) == Some(after) <==> Upserted(table, fs, seen, after, options)
  {
    hide Updates, TargetOf, Inserted, Proposed, Steps, UpsertRows, Asks, AllProposed, IsTotal, IsRow;
    forall rows, target, columns
      ensures Asks(fs, options, rows, target, columns) <==>
                rows == AllProposed(fs) && target == TargetOf(options) && columns == Inserted(fs)
    {
      AsksIs(fs, options, rows, target, columns);
    }
    RowsStep(table, AllProposed(fs), after, options, TargetOf(options), Inserted(fs), seen);
  }

  // No table has every row in its place.
  ghost predicate NoneUpserted(table: seq<Row>, fs: seq<Row>, options: seq<ConflictOption>)
    requires IsTable(table)
  {
    forall after :: !Upserted(table, fs, fs, after, options)
  }

  lemma StatementIs(table: seq<Row>, fs: seq<Row>, options: seq<ConflictOption>)
    requires IsTable(table)
    ensures Statement(table, fs, options) == StatementSeeing(table, fs, fs, options)
  {
    hide StatementSeeing;
  }

  // NULL is refused in every column but four.
  lemma NullRefused(table: seq<Row>, proposed: Row, target: seq<Column>, u: UpdateSet, c: Column)
    requires IsTable(table) && IsTotal(proposed) && c in RUN_COLUMNS && proposed[c] == Null
    ensures c !in {ComponentId, ApprovedAt, StartedAt, FinishedAt} ==> UpsertRow(table, proposed, target, u).None?
    ensures c in {ComponentId, ApprovedAt, StartedAt, FinishedAt} ==> Fits(c, Null)
  {
    hide RUN_COLUMNS, Collides, Resolve;
  }

  // ----- defaults and checks of runs -----

  lemma RunDefaultedAre()
    ensures forall c :: c in RUN_DEFAULTED <==> c in {Status, ApprovedBy, CreatedAt, UpdatedAt, Id}
  {
    assert RUN_DEFAULTED[0] == Status && RUN_DEFAULTED[1] == ApprovedBy && RUN_DEFAULTED[2] == CreatedAt;
    assert RUN_DEFAULTED[3] == UpdatedAt && RUN_DEFAULTED[4] == Id;
  }

  // What filling in defaults leaves, value by value.
  lemma RunDefaultsAre(f: Row, env: RunEnv, c: Column)
    ensures var g := RunDefaults(f, env);
            && (c in g <==> c in f || c in {Status, ApprovedBy, CreatedAt, UpdatedAt, Id})
            && (c in f ==> g[c] == f[c])
            && (c in g && c !in f ==>
                  g[c] ==
                    match c
                    case Status => Text("pending")
                    case ApprovedBy => Text("")
                    case CreatedAt | UpdatedAt => TimeV(env.now)
                    case _ => UuidV(env.newId))
  {
    hide FillRun, RUN_DEFAULTED;
    RunDefaultedAre();
    FillRunFields(f, RUN_DEFAULTED, env, c);
  }

  ghost predicate KnownStatus(f: Row) {
    && Status in f
    && f[Status] in {Text("pending"), Text("running"), Text("succeeded"), Text("failed"), Text("skipped"),
                     Text("awaiting_approval")}
  }

  // The first field, in this order, that is missing or invalid is reported; a mutation without one is accepted.
  lemma RunCheckReports(f: Row)
    ensures RunCheck(f) ==
      if OrganizationId !in f then Some(MissingField(OrganizationId))
      else if WorkflowRunId !in f then Some(MissingField(WorkflowRunId))
      else if Status !in f then Some(MissingField(Status))
      else if !KnownStatus(f) then Some(InvalidField(Status))
      else if ApprovedBy !in f then Some(MissingField(ApprovedBy))
      else if CreatedAt !in f then Some(MissingField(CreatedAt))
      else if UpdatedAt !in f then Some(MissingField(UpdatedAt))
      else None
  {
    hide STATUSES, CheckColumns, KnownStatus;
    StatusesAre(f);
    var required := RUN_REQUIRED;
    CheckStep(f, required);
    CheckStep(f, required[1..]);
    CheckStep(f, required[1..][1..]);
    CheckStep(f, required[1..][1..][1..]);
    CheckStep(f, required[1..][1..][1..][1..]);
    CheckStep(f, required[1..][1..][1..][1..][1..]);
    CheckStep(f, required[1..][1..][1..][1..][1..][1..]);
  }

  lemma CheckStep(f: Row, columns: seq<Column>)
    ensures CheckColumns(f, columns) ==
              if columns == [] then None
              else if columns[0] !in f then Some(MissingField(columns[0]))
              else if columns[0] == Status && !(f[Status].Text? && f[Status].text in STATUSES) then Some(InvalidField(Status))
              else CheckColumns(f, columns[1..])
  {
    hide STATUSES;
  }

  lemma StatusesAre(f: Row)
    ensures Status in f ==> ((f[Status].Text? && f[Status].text in STATUSES) <==> KnownStatus(f))
  {
    assert STATUSES[0] == "pending" && STATUSES[1] == "running" && STATUSES[2] == "succeeded";
    assert STATUSES[3] == "failed" && STATUSES[4] == "skipped" && STATUSES[5] == "awaiting_approval";
  }
}
