/** Upserting component runs: what a conflict changes in the stored row, and what it never changes. */
module Upserts {
  import opened Schema

  /** What the update of a conflicting row does to a column: the proposed value, its own value, or a fixed one. */
  datatype Action = Excluded | Itself | Fixed(value: Value)

  type UpdateSet = map<Column, Action>

  /** The options of a conflict clause. KeepImmutable is the function that UpdateNewValues adds: it is only
    * called when the statement is built, and looks at the mutations of the builders then. */
  datatype ConflictOption =
    | Target(columns: seq<Column>)
    | NewValues
    | IgnoreAll
    | Custom(column: Column, action: Action)
    | KeepImmutable

  predicate Immutable(c: Column) {
    c == Id || c == OrganizationId || c == WorkflowRunId || c == CreatedAt
  }

  const RUN_COLUMNS: set<Column> := {
    Id, OrganizationId, WorkflowRunId, ComponentId, Name, Type, Status, Message, RunName, Logs, Outputs, Resources,
    Policy, ApprovedBy, ApprovedAt, Approvals, ChartRevision, ValuesRevision, CreatedAt, StartedAt, FinishedAt,
    UpdatedAt}

  lemma ImmutableColumns()
    ensures forall c | Immutable(c) :: c in RUN_COLUMNS
  {
  }

  // ----- the table as the migrations make it -----

  // The columns that may be NULL.
  predicate Nullable(c: Column) {
    c == ComponentId || c == ApprovedAt || c == StartedAt || c == FinishedAt
  }

  // What the table puts in a column that a statement does not insert; NULL when the column has no default.
  function ColumnDefault(c: Column): Value {
    match c
    case Status => Text("pending")
    case Name | Type | Message | RunName | Logs | Outputs | Resources | Policy | ApprovedBy | Approvals
      | ChartRevision | ValuesRevision => Text("")
    case _ => Null
  }

  predicate Typed(c: Column, v: Value) {
    match c
    case Id | OrganizationId | WorkflowRunId | ComponentId => v.UuidV?
    case ApprovedAt | CreatedAt | StartedAt | FinishedAt | UpdatedAt => v.TimeV?
    case _ => v.Text?
  }

  // A value that the column can hold.
  predicate Fits(c: Column, v: Value) {
    if v == Null then Nullable(c) else Typed(c, v)
  }

  // A value, possibly NULL, in every column.
  predicate IsTotal(row: Row) {
    row.Keys == RUN_COLUMNS
  }

  // A row that the table can hold.
  predicate IsRow(row: Row) {
    IsTotal(row) && forall c | c in RUN_COLUMNS :: Fits(c, row[c])
  }

  // The fields set in a mutation, at their types.
  ghost predicate IsMutation(f: Row) {
    forall c | c in f :: c in RUN_COLUMNS && Typed(c, f[c])
  }

  // The row that a statement inserting the columns proposes: NULL in a column that another builder sets, and the
  // default of the table in a column that none does.
  function Proposed(f: Row, columns: set<Column>): (r: Row)
    ensures IsTotal(r)
  {
    map c | c in RUN_COLUMNS :: if c in f then f[c] else if c in columns then Null else ColumnDefault(c)
  }

  // ----- the update set -----

  // One round of the loop over the builders.
  function KeepOne(u: UpdateSet, seen: Row): UpdateSet {
    var u1 := if Id in seen then u[Id := Itself] else u;
    var u2 := if OrganizationId in seen then u1[OrganizationId := Itself] else u1;
    var u3 := if WorkflowRunId in seen then u2[WorkflowRunId := Itself] else u2;
    if CreatedAt in seen then u3[CreatedAt := Itself] else u3
  }

  function KeepAll(u: UpdateSet, seen: seq<Row>): UpdateSet
    decreases |seen|
  {
    if seen == [] then u else KeepAll(KeepOne(u, seen[0]), seen[1..])
  }

  // An option adds to the update set; what it sets replaces what was set before.
  function Apply(u: UpdateSet, option: ConflictOption, columns: set<Column>, seen: seq<Row>): UpdateSet {
    match option
    case Target(_) => u
    case NewValues => u + map c | c in columns :: Excluded
    case IgnoreAll => u + map c | c in columns :: Itself
    case Custom(c, action) => u[c := action]
    case KeepImmutable => KeepAll(u, seen)
  }

  // The update set of a statement that inserts the given columns, when the builders hold the given fields.
  function Updates(options: seq<ConflictOption>, columns: set<Column>, seen: seq<Row>): UpdateSet {
    if options == [] then map[]
    else Apply(Updates(options[..|options| - 1], columns, seen), options[|options| - 1], columns, seen)
  }

  // The stored row after a conflict.
  function Resolve(stored: Row, proposed: Row, u: UpdateSet): (r: Row)
    requires IsTotal(stored) && IsTotal(proposed)
    ensures IsTotal(r)
  {
    map c | c in RUN_COLUMNS ::
      if c !in u then stored[c]
      else
        match u[c]
        case Excluded => proposed[c]
        case Itself => stored[c]
        case Fixed(v) => v
  }

  // No conflict changes an immutable column.
  ghost predicate KeepsImmutable(u: UpdateSet) {
    forall stored, proposed, c | IsRow(stored) && IsRow(proposed) && Immutable(c) ::
      Resolve(stored, proposed, u)[c] == stored[c]
  }

  ghost predicate Seen(seen: seq<Row>, c: Column) {
    exists k :: 0 <= k < |seen| && c in seen[k]
  }

  lemma KeepOneIs(u: UpdateSet, seen: Row, c: Column)
    ensures Immutable(c) && c in seen ==> c in KeepOne(u, seen) && KeepOne(u, seen)[c] == Itself
    ensures !(Immutable(c) && c in seen) ==>
              (c in KeepOne(u, seen) <==> c in u) && (c in u ==> KeepOne(u, seen)[c] == u[c])
  {
  }

  lemma {:induction false} KeepAllIs(u: UpdateSet, seen: seq<Row>, c: Column)
    ensures Immutable(c) && Seen(seen, c) ==> c in KeepAll(u, seen) && KeepAll(u, seen)[c] == Itself
    ensures !(Immutable(c) && Seen(seen, c)) ==>
              (c in KeepAll(u, seen) <==> c in u) && (c in u ==> KeepAll(u, seen)[c] == u[c])
    decreases |seen|
  {
    hide KeepOne, Seen;
    if seen != [] {
      KeepOneIs(u, seen[0], c);
      KeepAllIs(KeepOne(u, seen[0]), seen[1..], c);
    }
    SeenFirst(seen, c);
  }

  lemma SeenFirst(seen: seq<Row>, c: Column)
    ensures Seen(seen, c) <==> seen != [] && (c in seen[0] || Seen(seen[1..], c))
  {
    if seen != [] {
      if Seen(seen[1..], c) {
        var k :| 0 <= k < |seen[1..]| && c in seen[1..][k];
        assert c in seen[k + 1];
      }
      if Seen(seen, c) && c !in seen[0] {
        var k :| 0 <= k < |seen| && c in seen[k];
        assert c in seen[1..][k - 1];
      }
    }
  }

  const NEW_VALUES: seq<ConflictOption> := [NewValues, KeepImmutable]

  // What the update set of UpdateNewValues alone does to each column.
  lemma NewValuesIs(columns: set<Column>, seen: seq<Row>, c: Column)
    ensures var u := Updates(NEW_VALUES, columns, seen);
            && (Immutable(c) && Seen(seen, c) ==> c in u && u[c] == Itself)
            && (!(Immutable(c) && Seen(seen, c)) ==> (c in u <==> c in columns) && (c in u ==> u[c] == Excluded))
  {
    var excluded := Updates([NewValues], columns, seen);
    var first := [NewValues];
    assert first[..|first| - 1] == [] && first[|first| - 1] == NewValues;
    assert Updates(first, columns, seen) == Apply(Updates([], columns, seen), NewValues, columns, seen);
    assert NEW_VALUES[..1] == [NewValues] && NEW_VALUES[1] == KeepImmutable;
    assert Updates(NEW_VALUES, columns, seen) == Apply(excluded, KeepImmutable, columns, seen);
    KeepAllIs(excluded, seen, c);
  }

  // UpdateNewValues keeps the immutable columns of every conflicting row exactly when each of them that the
  // statement inserts is set in some mutation at the time the function looks.
  lemma KeptExactly(columns: set<Column>, seen: seq<Row>)
    ensures KeepsImmutable(Updates(NEW_VALUES, columns, seen)) <==>
              forall c | Immutable(c) && c in columns :: Seen(seen, c)
  {
    hide Updates, NEW_VALUES, Seen, KeepsImmutable;
    var u := Updates(NEW_VALUES, columns, seen);
    if forall c | Immutable(c) && c in columns :: Seen(seen, c) {
      forall c | Immutable(c) && c in u ensures u[c] == Itself {
        NewValuesIs(columns, seen, c);
      }
      KeptIfItself(u);
    } else {
      var c :| Immutable(c) && c in columns && !Seen(seen, c);
      NewValuesIs(columns, seen, c);
      OverwrittenIfExcluded(u, c);
    }
  }

  lemma KeptIfItself(u: UpdateSet)
    requires forall c | Immutable(c) && c in u :: u[c] == Itself
    ensures KeepsImmutable(u)
  {
    hide RUN_COLUMNS, Fits;
    ImmutableColumns();
  }

  lemma OverwrittenIfExcluded(u: UpdateSet, c: Column)
    requires Immutable(c) && c in u && u[c] == Excluded
    ensures !KeepsImmutable(u)
  {
    hide RUN_COLUMNS, IsRow;
    ImmutableColumns();
    SampleIsRow(1);
    SampleIsRow(2);
    assert Resolve(Sample(1), Sample(2), u)[c] == Sample(2)[c] != Sample(1)[c];
  }

  // A row with the same number in every column that holds one.
  function Sample(n: nat): Row {
    map c | c in RUN_COLUMNS :: SampleValue(c, n)
  }

  function SampleValue(c: Column, n: nat): Value {
    match c
    case Id | OrganizationId | WorkflowRunId | ComponentId => UuidV(n)
    case ApprovedAt | CreatedAt | StartedAt | FinishedAt | UpdatedAt => TimeV(n)
    case Status => Text("pending")
    case _ => Text("")
  }

  lemma SampleIsRow(n: nat)
    ensures IsTotal(Sample(n)) && IsRow(Sample(n))
  {
    hide RUN_COLUMNS;
  }

  // Every other column takes the proposed value when the statement inserts it, and stays otherwise.
  lemma OthersTakeNewValues(columns: set<Column>, seen: seq<Row>, stored: Row, proposed: Row, c: Column)
    requires IsTotal(stored) && IsTotal(proposed) && c in RUN_COLUMNS && !Immutable(c)
    ensures Resolve(stored, proposed, Updates(NEW_VALUES, columns, seen))[c] == if c in columns then proposed[c] else stored[c]
  {
    hide Updates, NEW_VALUES, RUN_COLUMNS;
    NewValuesIs(columns, seen, c);
  }

  // ----- the store -----

  // The stored row that a proposed row collides with: equal, and not NULL, in all columns of the target.
  predicate Collides(stored: Row, proposed: Row, target: seq<Column>)
    requires IsTotal(stored) && IsTotal(proposed)
  {
    target != [] && forall c | c in target :: c in RUN_COLUMNS && stored[c] == proposed[c] && stored[c] != Null
  }

  ghost predicate IsTable(table: seq<Row>) {
    forall k | 0 <= k < |table| :: IsRow(table[k])
  }

  ghost predicate AllTotal(table: seq<Row>) {
    forall k | 0 <= k < |table| :: IsTotal(table[k])
  }

  // The first stored row that collides, or the length of the table.
  function FirstCollision(table: seq<Row>, proposed: Row, target: seq<Column>): (k: nat)
    requires AllTotal(table) && IsTotal(proposed)
    ensures k <= |table|
    ensures k < |table| ==> Collides(table[k], proposed, target)
    ensures forall j | 0 <= j < k :: !Collides(table[j], proposed, target)
  {
    hide Collides, RUN_COLUMNS, IsTotal;
    if table == [] || Collides(table[0], proposed, target) then 0 else 1 + FirstCollision(table[1..], proposed, target)
  }

  // Whether a row other than the k-th has the id: the primary key.
  predicate IdTaken(table: seq<Row>, k: nat, id: Value)
    requires IsTable(table)
  {
    exists j | 0 <= j < |table| :: j != k && table[j][Id] == id
  }

  ghost predicate UniqueIds(table: seq<Row>)
    requires IsTable(table)
  {
    forall j, k | 0 <= j < k < |table| :: table[j][Id] != table[k][Id]
  }

  // The table after one row: updated where the row collides, with the row otherwise, and None when the store refuses
  // it. It refuses a value that a column cannot hold, before it looks for a collision, and an id that is taken.
  function UpsertRow(table: seq<Row>, proposed: Row, target: seq<Column>, u: UpdateSet): (r: Option<seq<Row>>)
    requires IsTable(table) && IsTotal(proposed)
    ensures r.Some? ==> IsTable(r.value) && |table| <= |r.value|
  {
    var k := FirstCollision(table, proposed, target);
    var row := if k < |table| then Resolve(table[k], proposed, u) else proposed;
    if !IsRow(proposed) || !IsRow(row) || IdTaken(table, k, row[Id]) then None
    else Some(if k < |table| then table[k := row] else table + [row])
  }

  // All rows of a statement, or none.
  function UpsertRows(table: seq<Row>, rows: seq<Row>, target: seq<Column>, u: UpdateSet): (r: Option<seq<Row>>)
    requires IsTable(table) && forall k | 0 <= k < |rows| :: IsTotal(rows[k])
    ensures r.Some? ==> IsTable(r.value) && |table| <= |r.value|
    decreases |rows|
  {
    if rows == [] then Some(table)
    else
      var next := UpsertRow(table, rows[0], target, u);
      if next.None? then None else UpsertRows(next.value, rows[1..], target, u)
  }

  // Every row of the first table is still there, with its immutable columns, and no id is there twice.
  ghost predicate Continues(table: seq<Row>, later: seq<Row>)
    requires IsTable(table) && IsTable(later)
  {
    && |table| <= |later|
    && (UniqueIds(table) ==> UniqueIds(later))
    && forall k, c | 0 <= k < |table| && Immutable(c) :: later[k][c] == table[k][c]
  }

  // The primary key: whatever is updated or inserted, ids stay unique.
  lemma UpsertKeepsIds(table: seq<Row>, proposed: Row, target: seq<Column>, u: UpdateSet)
    requires IsTable(table) && IsTotal(proposed) && UniqueIds(table)
    ensures var r := UpsertRow(table, proposed, target, u); r.Some? ==> UniqueIds(r.value)
  {
    hide Collides, Resolve, Fits;
  }

  // When immutable columns are kept, a row is refused exactly when a column cannot hold its value, or when it
  // collides with no stored row and its id is taken all the same.
  lemma UpsertRefused(table: seq<Row>, proposed: Row, target: seq<Column>, columns: set<Column>, seen: seq<Row>)
    requires IsTable(table) && UniqueIds(table) && IsTotal(proposed) && KeepsImmutable(Updates(NEW_VALUES, columns, seen))
    ensures UpsertRow(table, proposed, target, Updates(NEW_VALUES, columns, seen)).None? <==>
              || !IsRow(proposed)
              || (FirstCollision(table, proposed, target) == |table| && IdTaken(table, |table|, proposed[Id]))
  {
    hide Updates, NEW_VALUES, Collides, KeepsImmutable, Fits, Resolve;
    var u := Updates(NEW_VALUES, columns, seen);
    var k := FirstCollision(table, proposed, target);
    if k < |table| && IsRow(proposed) {
      KeepsRow(table[k], proposed, u);
      ResolvesToRow(table[k], proposed, columns, seen);
    }
  }

  lemma ResolvesToRow(stored: Row, proposed: Row, columns: set<Column>, seen: seq<Row>)
    requires IsRow(stored) && IsRow(proposed)
    ensures IsRow(Resolve(stored, proposed, Updates(NEW_VALUES, columns, seen)))
  {
    hide Updates, NEW_VALUES, Fits, RUN_COLUMNS;
    forall c ensures var u := Updates(NEW_VALUES, columns, seen); c in u ==> u[c] == Excluded || u[c] == Itself {
      NewValuesIs(columns, seen, c);
    }
  }

  lemma UpsertRowContinues(table: seq<Row>, proposed: Row, target: seq<Column>, u: UpdateSet)
    requires IsTable(table) && IsTotal(proposed) && KeepsImmutable(u)
    ensures var r := UpsertRow(table, proposed, target, u); r.Some? ==> Continues(table, r.value)
  {
    hide KeepsImmutable, Collides, Resolve, Fits;
    var k := FirstCollision(table, proposed, target);
    ImmutableColumns();
    if UpsertRow(table, proposed, target, u).Some? && k < |table| {
      KeepsRow(table[k], proposed, u);
    }
    if UniqueIds(table) {
      UpsertKeepsIds(table, proposed, target, u);
    }
  }

  lemma ContinuesOn(table: seq<Row>, next: seq<Row>, later: seq<Row>)
    requires IsTable(table) && IsTable(next) && IsTable(later)
    requires Continues(table, next) && Continues(next, later)
    ensures Continues(table, later)
  {
    hide IsRow, UniqueIds, RUN_COLUMNS;
  }

  lemma {:induction false} UpsertContinues(table: seq<Row>, rows: seq<Row>, target: seq<Column>, u: UpdateSet)
    requires IsTable(table) && (forall k | 0 <= k < |rows| :: IsTotal(rows[k])) && KeepsImmutable(u)
    ensures var r := UpsertRows(table, rows, target, u); r.Some? ==> Continues(table, r.value)
    decreases |rows|
  {
    hide KeepsImmutable, Collides, UpsertRow, Continues, IsTotal, IsRow;
    if rows == [] {
      StaysItself(table);
    } else {
      var next := UpsertRow(table, rows[0], target, u);
      UpsertRowContinues(table, rows[0], target, u);
      if next.Some? {
        UpsertContinues(next.value, rows[1..], target, u);
        var r := UpsertRows(next.value, rows[1..], target, u);
        if r.Some? {
          ContinuesOn(table, next.value, r.value);
        }
      }
    }
  }

  lemma StaysItself(table: seq<Row>)
    requires IsTable(table)
    ensures Continues(table, table)
  {
  }

  lemma KeepsRow(stored: Row, proposed: Row, u: UpdateSet)
    requires IsRow(stored) && IsRow(proposed) && KeepsImmutable(u)
    ensures forall c | Immutable(c) :: Resolve(stored, proposed, u)[c] == stored[c]
  {
    hide RUN_COLUMNS;
    ImmutableColumns();
  }

  // ----- the ids a bulk reports -----

  lemma {:induction false} UpsertRowsSplit(table: seq<Row>, rows: seq<Row>, j: nat, target: seq<Column>, u: UpdateSet)
    requires IsTable(table) && (forall i | 0 <= i < |rows| :: IsTotal(rows[i])) && j <= |rows|
    ensures var first := UpsertRows(table, rows[..j], target, u);
            UpsertRows(table, rows, target, u) == if first.None? then None else UpsertRows(first.value, rows[j..], target, u)
    decreases j
  {
    hide IsTotal, IsRow, Collides, UpsertRow;
    if j > 0 {
      var next := UpsertRow(table, rows[0], target, u);
      assert rows[..j][1..] == rows[1..][..j - 1] && rows[..j][0] == rows[0] && rows[1..][j - 1..] == rows[j..];
      if next.Some? {
        UpsertRowsSplit(next.value, rows[1..], j - 1, target, u);
      }
    } else {
      assert rows[..0] == [] && rows[0..] == rows;
    }
  }

  // A bulk reports the id that each of its rows proposes. When the statement keeps immutable columns, that is the id
  // of the row that the table then holds for it exactly when it was inserted, or collided with a row of that id.
  lemma ReportedId(table: seq<Row>, rows: seq<Row>, j: nat, target: seq<Column>, u: UpdateSet)
    requires IsTable(table) && (forall i | 0 <= i < |rows| :: IsTotal(rows[i])) && j < |rows| && KeepsImmutable(u)
    requires UpsertRows(table, rows, target, u).Some?
    ensures var after := UpsertRows(table, rows, target, u).value;
            var before := UpsertRows(table, rows[..j], target, u);
            && before.Some?
            && var k := FirstCollision(before.value, rows[j], target);
               && k < |after|
               && (after[k][Id] == rows[j][Id] <==> k == |before.value| || before.value[k][Id] == rows[j][Id])
  {
    hide Fits, Collides, UpsertRow, UpsertRows, KeepsImmutable, RUN_COLUMNS, Resolve, FirstCollision, UniqueIds;
    ImmutableColumns();
    UpsertRowsSplit(table, rows, j, target, u);
    var before := UpsertRows(table, rows[..j], target, u).value;
    FirstOfRows(before, rows[j..], target, u);
    assert rows[j..][0] == rows[j] && rows[j..][1..] == rows[j + 1..];
    var next := UpsertRow(before, rows[j], target, u).value;
    PlacedAt(before, rows[j], target, u);
    UpsertContinues(next, rows[j + 1..], target, u);
    assert Immutable(Id);
  }

  lemma FirstOfRows(table: seq<Row>, rows: seq<Row>, target: seq<Column>, u: UpdateSet)
    requires IsTable(table) && (forall i | 0 <= i < |rows| :: IsTotal(rows[i])) && rows != []
    ensures var next := UpsertRow(table, rows[0], target, u);
            UpsertRows(table, rows, target, u) == if next.None? then None else UpsertRows(next.value, rows[1..], target, u)
  {
    hide IsTotal, IsRow, Collides, UpsertRow;
  }

  lemma PlacedAt(table: seq<Row>, proposed: Row, target: seq<Column>, u: UpdateSet)
    requires IsTable(table) && IsTotal(proposed) && KeepsImmutable(u) && UpsertRow(table, proposed, target, u).Some?
    ensures var k, after := FirstCollision(table, proposed, target), UpsertRow(table, proposed, target, u).value;
            k < |after| && after[k][Id] == if k < |table| then table[k][Id] else proposed[Id]
  {
    hide KeepsImmutable, Collides, Resolve, Fits;
    var k := FirstCollision(table, proposed, target);
    if k < |table| {
      KeepsRow(table[k], proposed, u);
    }
  }

  // Every column of the target has a value.
  predicate Matchable(proposed: Row, target: seq<Column>)
    requires IsTotal(proposed)
  {
    target != [] && forall c | c in target :: c in RUN_COLUMNS && proposed[c] != Null
  }

  // Upserting a row again that the store took: it is taken and changes nothing exactly when every column of the
  // target has a value. Otherwise it collides with no row, not even with itself, and the store refuses its id.
  lemma UpsertTwice(table: seq<Row>, proposed: Row, target: seq<Column>, columns: set<Column>, seen: seq<Row>)
    requires IsTable(table) && IsTotal(proposed)
    ensures var u := Updates(NEW_VALUES, columns, seen);
            var once := UpsertRow(table, proposed, target, u);
            once.Some? ==>
              UpsertRow(once.value, proposed, target, u) == if Matchable(proposed, target) then once else None
  {
    hide Updates, NEW_VALUES, Collides, Fits, Resolve, Matchable, RUN_COLUMNS;
    ImmutableColumns();
    var u := Updates(NEW_VALUES, columns, seen);
    var k := FirstCollision(table, proposed, target);
    var once := UpsertRow(table, proposed, target, u);
    if once.Some? {
      if Matchable(proposed, target) {
        SettledRow(if k < |table| then table[k] else proposed, proposed, target, columns, seen);
        FirstStays(table, once.value, proposed, target, k);
        assert once.value[k := once.value[k]] == once.value;
      } else {
        NoCollision(table, proposed, target);
        assert once.value == table + [proposed];
        NoCollision(once.value, proposed, target);
        assert once.value[|table|][Id] == proposed[Id];
      }
    }
  }

  // On the primary key, the one unique index of the table, neither can go wrong: a row that is taken twice is as it
  // was, and the id reported is the row's.
  lemma OnPrimaryKey(table: seq<Row>, proposed: Row, columns: set<Column>, seen: seq<Row>)
    requires IsTable(table) && IsTotal(proposed) && KeepsImmutable(Updates(NEW_VALUES, columns, seen))
    ensures var u := Updates(NEW_VALUES, columns, seen);
            var once := UpsertRow(table, proposed, [Id], u);
            once.Some? ==>
              && UpsertRow(once.value, proposed, [Id], u) == once
              && once.value[FirstCollision(table, proposed, [Id])][Id] == proposed[Id]
  {
    hide Updates, NEW_VALUES, Fits, Resolve, RUN_COLUMNS, KeepsImmutable;
    ImmutableColumns();
    var u := Updates(NEW_VALUES, columns, seen);
    if UpsertRow(table, proposed, [Id], u).Some? {
      assert Id in [Id];
      assert IsRow(proposed) && Fits(Id, proposed[Id]);
      NoNullId(proposed);
      UpsertTwice(table, proposed, [Id], columns, seen);
      PlacedAt(table, proposed, [Id], u);
    }
  }

  lemma NoNullId(row: Row)
    requires IsRow(row)
    ensures row[Id] != Null
  {
    ImmutableColumns();
    assert Fits(Id, row[Id]);
  }

  // The row updated or inserted is where the second upsert finds its collision.
  lemma FirstStays(table: seq<Row>, once: seq<Row>, proposed: Row, target: seq<Column>, k: nat)
    requires IsTable(table) && IsTable(once) && IsTotal(proposed)
    requires k == FirstCollision(table, proposed, target) < |once| && Collides(once[k], proposed, target)
    requires forall j | 0 <= j < k :: once[j] == table[j]
    ensures FirstCollision(once, proposed, target) == k
  {
    hide Collides;
  }

  lemma NoCollision(table: seq<Row>, proposed: Row, target: seq<Column>)
    requires IsTable(table) && IsTotal(proposed) && !Matchable(proposed, target)
    ensures FirstCollision(table, proposed, target) == |table|
  {
    hide RUN_COLUMNS;
  }

  lemma SettledRow(stored: Row, proposed: Row, target: seq<Column>, columns: set<Column>, seen: seq<Row>)
    requires IsTotal(stored) && IsTotal(proposed) && Matchable(proposed, target)
    requires stored == proposed || Collides(stored, proposed, target)
    ensures var u := Updates(NEW_VALUES, columns, seen);
            var r := Resolve(stored, proposed, u);
            Collides(r, proposed, target) && Resolve(r, proposed, u) == r
            && Collides(proposed, proposed, target) && Resolve(proposed, proposed, u) == proposed
  {
    hide Updates, NEW_VALUES, RUN_COLUMNS;
    var u := Updates(NEW_VALUES, columns, seen);
    forall c ensures c in u ==> u[c] == Excluded || u[c] == Itself {
      NewValuesIs(columns, seen, c);
    }
    assert Resolve(proposed, proposed, u) == proposed;
    assert Resolve(Resolve(stored, proposed, u), proposed, u) == Resolve(stored, proposed, u);
  }

  // ----- when the function looks -----

  // The columns a statement inserts: those set in some builder.
  function Inserted(fs: seq<Row>): (r: set<Column>)
    ensures forall c :: c in r <==> Seen(fs, c)
  {
    if fs == [] then {}
    else
      var rest := Inserted(fs[1..]);
      InsertedMore(fs);
      fs[0].Keys + rest
  }

  lemma InsertedMore(fs: seq<Row>)
    ensures forall c :: Seen(fs, c) <==> fs != [] && (c in fs[0] || Seen(fs[1..], c))
  {
    forall c ensures Seen(fs, c) <==> fs != [] && (c in fs[0] || Seen(fs[1..], c)) {
      SeenFirst(fs, c);
    }
  }

  // Called when the statement is built, the function sees the mutations that the statement is made from, and no
  // immutable column is ever changed.
  lemma DeferredKeeps(fs: seq<Row>)
    ensures KeepsImmutable(Updates(NEW_VALUES, Inserted(fs), fs))
  {
    hide Updates, NEW_VALUES, Seen, KeepsImmutable;
    KeptExactly(Inserted(fs), fs);
  }

  /** The clock and the id generator, read when defaults are filled in. */
  datatype RunEnv = RunEnv(now: int, newId: Uuid)

  function RunDefault(c: Column, env: RunEnv): Value {
    match c
    case Status => Text("pending")
    case ApprovedBy => Text("")
    case CreatedAt | UpdatedAt => TimeV(env.now)
    case _ => UuidV(env.newId)
  }

  const RUN_DEFAULTED: seq<Column> := [Status, ApprovedBy, CreatedAt, UpdatedAt, Id]

  function FillRun(f: Row, columns: seq<Column>, env: RunEnv): Row
    decreases |columns|
  {
    if columns == [] then f
    else FillRun(if columns[0] in f then f else f[columns[0] := RunDefault(columns[0], env)], columns[1..], env)
  }

  lemma {:induction false} FillRunFields(f: Row, columns: seq<Column>, env: RunEnv, c: Column)
    ensures c in FillRun(f, columns, env) <==> c in f || c in columns
    ensures c in FillRun(f, columns, env) ==> FillRun(f, columns, env)[c] == if c in f then f[c] else RunDefault(c, env)
    decreases |columns|
  {
    if columns != [] {
      assert c in columns <==> c == columns[0] || c in columns[1..];
      FillRunFields(if columns[0] in f then f else f[columns[0] := RunDefault(columns[0], env)], columns[1..], env, c);
    }
  }

  function RunDefaults(f: Row, env: RunEnv): Row {
    FillRun(f, RUN_DEFAULTED, env)
  }

  datatype RunError = MissingField(column: Column) | InvalidField(column: Column)

  const RUN_REQUIRED: seq<Column> := [OrganizationId, WorkflowRunId, Status, ApprovedBy, CreatedAt, UpdatedAt]

  const STATUSES: seq<string> := ["pending", "running", "succeeded", "failed", "skipped", "awaiting_approval"]

  function CheckColumns(f: Row, columns: seq<Column>): Option<RunError> {
    if columns == [] then None
    else if columns[0] !in f then Some(MissingField(columns[0]))
    else if columns[0] == Status && !(f[Status].Text? && f[Status].text in STATUSES) then Some(InvalidField(Status))
    else CheckColumns(f, columns[1..])
  }

  function RunCheck(f: Row): Option<RunError> {
    CheckColumns(f, RUN_REQUIRED)
  }

  lemma {:induction false} CheckedHas(f: Row, columns: seq<Column>, c: Column)
    requires CheckColumns(f, columns).None? && c in columns
    ensures c in f
  {
    if columns[0] != c {
      CheckedHas(f, columns[1..], c);
    }
  }

  function AllDefaults(fs: seq<Row>, envs: seq<RunEnv>): (r: seq<Row>)
    requires |fs| == |envs|
    ensures |r| == |fs| && forall k | 0 <= k < |fs| :: r[k] == RunDefaults(fs[k], envs[k])
  {
    seq(|fs|, k requires 0 <= k < |fs| => RunDefaults(fs[k], envs[k]))
  }

  // Called when UpdateNewValues is, before defaults, it would see the caller's fields only. On a bulk that
  // passes its checks the immutable columns would then be kept exactly when some builder had set an id by hand,
  // and some builder a creation time.
  lemma EagerKeepsExactly(fs: seq<Row>, envs: seq<RunEnv>)
    requires |fs| == |envs| && fs != [] && forall k | 0 <= k < |fs| :: RunCheck(RunDefaults(fs[k], envs[k])).None?
    ensures KeepsImmutable(Updates(NEW_VALUES, Inserted(AllDefaults(fs, envs)), fs)) <==> Seen(fs, Id) && Seen(fs, CreatedAt)
  {
    hide Updates, NEW_VALUES, KeepsImmutable, RunDefaults;
    var all := AllDefaults(fs, envs);
    KeptExactly(Inserted(all), fs);
    DefaultedHas(fs[0], envs[0]);
    assert all[0] == RunDefaults(fs[0], envs[0]);
    assert Seen(all, Id) && Seen(all, CreatedAt);
    assert fs[0] == fs[0] && Seen(fs, OrganizationId) && Seen(fs, WorkflowRunId);
  }

  lemma DefaultedHas(f: Row, env: RunEnv)
    requires RunCheck(RunDefaults(f, env)).None?
    ensures Id in RunDefaults(f, env) && CreatedAt in RunDefaults(f, env)
    ensures OrganizationId in f && WorkflowRunId in f
  {
    hide FillRun;
    var g := RunDefaults(f, env);
    assert RUN_DEFAULTED[4] == Id && RUN_DEFAULTED[2] == CreatedAt;
    assert OrganizationId !in RUN_DEFAULTED && WorkflowRunId !in RUN_DEFAULTED;
    FillRunFields(f, RUN_DEFAULTED, env, Id);
    FillRunFields(f, RUN_DEFAULTED, env, CreatedAt);
    FillRunFields(f, RUN_DEFAULTED, env, OrganizationId);
    FillRunFields(f, RUN_DEFAULTED, env, WorkflowRunId);
    assert RUN_REQUIRED[0] == OrganizationId && RUN_REQUIRED[1] == WorkflowRunId;
    CheckedHas(g, RUN_REQUIRED, OrganizationId);
    CheckedHas(g, RUN_REQUIRED, WorkflowRunId);
  }

  // The row of builder k can be stored exactly when every column that may not be NULL is set by it, or is set by no
  // builder and has a default.
  lemma StorableExactly(fs: seq<Row>, k: nat)
    requires k < |fs| && IsMutation(fs[k])
    ensures IsRow(Proposed(fs[k], Inserted(fs))) <==>
              forall c | c in RUN_COLUMNS && !Nullable(c) ::
                c in fs[k] || (!Seen(fs, c) && ColumnDefault(c) != Null)
  {
    hide RUN_COLUMNS, Inserted, Seen;
    forall c | c in RUN_COLUMNS
      ensures Fits(c, Proposed(fs[k], Inserted(fs))[c]) <==>
                Nullable(c) || c in fs[k] || (!Seen(fs, c) && ColumnDefault(c) != Null)
    {
      StorableAt(fs, k, c);
    }
  }

  lemma StorableAt(fs: seq<Row>, k: nat, c: Column)
    requires k < |fs| && IsMutation(fs[k]) && c in RUN_COLUMNS
    ensures Fits(c, Proposed(fs[k], Inserted(fs))[c]) <==>
              Nullable(c) || c in fs[k] || (!Seen(fs, c) && ColumnDefault(c) != Null)
  {
    hide RUN_COLUMNS, Inserted, Seen;
    ImmutableColumns();
  }

  // A mutable column that builder k leaves unset: a row that collides keeps it exactly when no other builder of the
  // bulk sets it, or it was NULL. Otherwise it becomes NULL, and the whole statement is refused when the column may
  // not be NULL. A single upsert always keeps it.
  lemma UnsetColumn(table: seq<Row>, fs: seq<Row>, options: seq<ConflictOption>, k: nat, stored: Row, c: Column)
    requires IsTable(table) && k < |fs| && IsRow(stored) && c in RUN_COLUMNS && !Immutable(c) && c !in fs[k]
    ensures var resolved := Resolve(stored, Proposed(fs[k], Inserted(fs)), Updates(NEW_VALUES, Inserted(fs), fs));
            && (resolved[c] == stored[c] <==> !Seen(fs, c) || stored[c] == Null)
            && (Seen(fs, c) ==> resolved[c] == Null)
    ensures Seen(fs, c) && !Nullable(c) ==> Statement(table, fs, options).None?
    ensures Resolve(stored, Proposed(fs[k], Inserted([fs[k]])), Updates(NEW_VALUES, Inserted([fs[k]]), [fs[k]]))[c] == stored[c]
  {
    hide Updates, NEW_VALUES, RUN_COLUMNS, UpsertRows, Inserted, Statement, Seen;
    OthersTakeNewValues(Inserted(fs), fs, stored, Proposed(fs[k], Inserted(fs)), c);
    OthersTakeNewValues(Inserted([fs[k]]), [fs[k]], stored, Proposed(fs[k], Inserted([fs[k]])), c);
    SeenFirst([fs[k]], c);
    SeenNowhere([fs[k]][1..], c);
    if Seen(fs, c) && !Nullable(c) {
      assert AllProposed(fs)[k][c] == Null;
      RefusedRow(table, fs, options, k, c);
    }
  }

  lemma SeenNowhere(fs: seq<Row>, c: Column)
    requires fs == []
    ensures !Seen(fs, c)
  {
  }

  lemma RefusedRow(table: seq<Row>, fs: seq<Row>, options: seq<ConflictOption>, k: nat, c: Column)
    requires IsTable(table) && k < |fs| && c in RUN_COLUMNS && !Fits(c, AllProposed(fs)[k][c])
    ensures Statement(table, fs, options).None?
  {
    hide Updates, RUN_COLUMNS, Inserted, Proposed, Fits;
    RefusedRows(table, AllProposed(fs), k, TargetOf(options), Updates(options, Inserted(fs), fs));
  }

  // One row that a column cannot hold is enough.
  lemma {:induction false} RefusedRows(table: seq<Row>, rows: seq<Row>, k: nat, target: seq<Column>, u: UpdateSet)
    requires IsTable(table) && (forall j | 0 <= j < |rows| :: IsTotal(rows[j])) && k < |rows| && !IsRow(rows[k])
    ensures UpsertRows(table, rows, target, u).None?
    decreases |rows|
  {
    hide IsRow, IsTotal, Collides, Resolve;
    if k > 0 && UpsertRow(table, rows[0], target, u).Some? {
      RefusedRows(UpsertRow(table, rows[0], target, u).value, rows[1..], k - 1, target, u);
    }
  }

  // ----- options as callers combine them -----

  // The conflict target: the last one given.
  function TargetOf(options: seq<ConflictOption>): seq<Column> {
    if options == [] then []
    else if options[|options| - 1].Target? then options[|options| - 1].columns
    else TargetOf(options[..|options| - 1])
  }

  // The options that resolve conflicts.
  function Resolutions(options: seq<ConflictOption>): seq<ConflictOption> {
    if options == [] then []
    else
      var earlier := Resolutions(options[..|options| - 1]);
      if options[|options| - 1].Target? then earlier else earlier + [options[|options| - 1]]
  }

  lemma {:induction false} UpdatesOfResolutions(options: seq<ConflictOption>, columns: set<Column>, seen: seq<Row>)
    ensures Updates(options, columns, seen) == Updates(Resolutions(options), columns, seen)
  {
    if options != [] {
      var earlier, last := options[..|options| - 1], options[|options| - 1];
      UpdatesOfResolutions(earlier, columns, seen);
      if !last.Target? {
        assert Resolutions(options)[..|Resolutions(options)| - 1] == Resolutions(earlier);
      }
    }
  }

  function AllProposed(fs: seq<Row>): (rows: seq<Row>)
    ensures |rows| == |fs| && forall k | 0 <= k < |fs| :: rows[k] == Proposed(fs[k], Inserted(fs)) && IsTotal(rows[k])
  {
    hide Inserted, RUN_COLUMNS;
    seq(|fs|, k requires 0 <= k < |fs| => Proposed(fs[k], Inserted(fs)))
  }

  // One statement: a row for each specification, with the options evaluated on what the builders' mutations hold by
  // then. None when the store refuses a row.
  function StatementSeeing(table: seq<Row>, fs: seq<Row>, seen: seq<Row>, options: seq<ConflictOption>): (r: Option<seq<Row>>)
    requires IsTable(table)
    ensures r.Some? ==> IsTable(r.value)
  {
    hide Inserted, Proposed, RUN_COLUMNS, IsRow;
    UpsertRows(table, AllProposed(fs), TargetOf(options), Updates(options, Inserted(fs), seen))
  }

  // The statement when the mutations still hold what the specifications were made from.
  function Statement(table: seq<Row>, fs: seq<Row>, options: seq<ConflictOption>): (r: Option<seq<Row>>)
    requires IsTable(table)
    ensures r.Some? ==> IsTable(r.value)
  {
    StatementSeeing(table, fs, fs, options)
  }

  // The table after a statement: as it was when the statement is refused.
  function AfterStatement(table: seq<Row>, fs: seq<Row>, options: seq<ConflictOption>): (r: seq<Row>)
    requires IsTable(table)
    ensures IsTable(r)
  {
    var r := Statement(table, fs, options);
    if r.Some? then r.value else table
  }

  // With UpdateNewValues as the only conflict resolution, every stored row stays, with its id, organization,
  // workflow run and creation time, and ids stay unique.
  lemma StatementContinues(table: seq<Row>, fs: seq<Row>, options: seq<ConflictOption>)
    requires IsTable(table) && Resolutions(options) == NEW_VALUES
    ensures Continues(table, AfterStatement(table, fs, options))
  {
    hide Updates, NEW_VALUES, KeepsImmutable, Continues, UpsertRows, Proposed, Inserted, IsRow, RUN_COLUMNS;
    UpdatesOfResolutions(options, Inserted(fs), fs);
    DeferredKeeps(fs);
    UpsertContinues(table, AllProposed(fs), TargetOf(options), Updates(options, Inserted(fs), fs));
    StaysItself(table);
  }

  function Statements(table: seq<Row>, bulks: seq<(seq<Row>, seq<ConflictOption>)>): (r: seq<Row>)
    requires IsTable(table)
    ensures IsTable(r)
    decreases |bulks|
  {
    if bulks == [] then table else Statements(AfterStatement(table, bulks[0].0, bulks[0].1), bulks[1..])
  }

  // The same over any run of such statements, refused ones included.
  lemma {:induction false} RunContinues(table: seq<Row>, bulks: seq<(seq<Row>, seq<ConflictOption>)>)
    requires IsTable(table) && forall k | 0 <= k < |bulks| :: Resolutions(bulks[k].1) == NEW_VALUES
    ensures Continues(table, Statements(table, bulks))
    decreases |bulks|
  {
    hide AfterStatement, Continues, NEW_VALUES, Resolutions, IsRow;
    if bulks == [] {
      StaysItself(table);
    } else {
      var next := AfterStatement(table, bulks[0].0, bulks[0].1);
      StatementContinues(table, bulks[0].0, bulks[0].1);
      RunContinues(next, bulks[1..]);
      ContinuesOn(table, next, Statements(next, bulks[1..]));
    }
  }
}
