/** Small bulk upserts that store, or report, otherwise than a caller would expect. */
module UpsertWitnesses {
  import opened Schema
  import opened Upserts

  function On(target: seq<Column>): seq<ConflictOption> {
    [Target(target)] + NEW_VALUES
  }

  lemma OnIs(target: seq<Column>)
    ensures TargetOf(On(target)) == target && Resolutions(On(target)) == NEW_VALUES
  {
    var options := [Target(target), NewValues, KeepImmutable];
    assert On(target) == options;
    assert options[..2] == [Target(target), NewValues] && options[..2][..1] == [Target(target)];
    assert options[..1][..0] == [] && options[..2][1] == NewValues && options[..1][0] == Target(target);
    assert Resolutions(options[..1]) == [];
    assert Resolutions(options[..2]) == [NewValues];
    assert TargetOf(options[..2]) == TargetOf(options[..1]) == target;
  }

  // The update set that a statement with these options has.
  lemma StatementIs(table: seq<Row>, fs: seq<Row>, target: seq<Column>)
    requires IsTable(table)
    ensures Statement(table, fs, On(target))
         == UpsertRows(table, AllProposed(fs), target, Updates(NEW_VALUES, Inserted(fs), fs))
  {
    hide Updates, NEW_VALUES, UpsertRows, On, Resolutions, TargetOf, AllProposed;
    OnIs(target);
    UpdatesOfResolutions(On(target), Inserted(fs), fs);
  }

  // Builders that set every column propose what they set.
  lemma WholeProposed(fs: seq<Row>)
    requires fs != [] && IsTotal(fs[|fs| - 1])
    ensures Inserted(fs) >= RUN_COLUMNS
    ensures forall f | IsTotal(f) :: Proposed(f, Inserted(fs)) == f
  {
    hide RUN_COLUMNS, Inserted;
    var k := |fs| - 1;
    forall c | c in RUN_COLUMNS ensures c in Inserted(fs) {
      assert c in fs[k];
    }
  }

  // What UpdateNewValues makes of a conflicting row.
  function Merged(stored: Row, proposed: Row, columns: set<Column>): Row
    requires IsTotal(stored) && IsTotal(proposed)
  {
    map c | c in RUN_COLUMNS :: if Immutable(c) || c !in columns then stored[c] else proposed[c]
  }

  lemma ResolvesMerged(stored: Row, proposed: Row, columns: set<Column>, seen: seq<Row>)
    requires IsRow(stored) && IsRow(proposed) && KeepsImmutable(Updates(NEW_VALUES, columns, seen))
    ensures Resolve(stored, proposed, Updates(NEW_VALUES, columns, seen)) == Merged(stored, proposed, columns)
  {
    hide Updates, NEW_VALUES, RUN_COLUMNS, Fits, KeepsImmutable, Resolve;
    var u := Updates(NEW_VALUES, columns, seen);
    KeepsRow(stored, proposed, u);
    forall c | c in RUN_COLUMNS ensures Resolve(stored, proposed, u)[c] == Merged(stored, proposed, columns)[c] {
      if !Immutable(c) {
        OthersTakeNewValues(columns, seen, stored, proposed, c);
      }
    }
  }

  // A row that collides with the only stored one takes its place.
  lemma Replaced(stored: Row, proposed: Row, target: seq<Column>, u: UpdateSet)
    requires IsRow(stored) && IsRow(proposed) && Collides(stored, proposed, target) && IsRow(Resolve(stored, proposed, u))
    ensures IsTable([stored])
    ensures UpsertRow([stored], proposed, target, u) == Some([Resolve(stored, proposed, u)])
  {
    hide Collides, Fits, Resolve, RUN_COLUMNS;
    ImmutableColumns();
    assert [stored][0] == stored && FirstCollision([stored], proposed, target) == 0;
    assert [stored][0 := Resolve(stored, proposed, u)] == [Resolve(stored, proposed, u)];
  }

  lemma Added(stored: Row, proposed: Row, u: UpdateSet)
    requires IsRow(stored) && IsRow(proposed) && stored[Id] != proposed[Id]
    ensures IsTable([stored]) && UpsertRow([stored], proposed, [Id], u) == Some([stored, proposed])
  {
    hide Fits, Resolve, RUN_COLUMNS;
    ImmutableColumns();
    assert Id in [Id] && !Collides([stored][0], proposed, [Id]);
    assert FirstCollision([stored], proposed, [Id]) == 1;
    assert [stored] + [proposed] == [stored, proposed];
  }

  lemma OneRow(table: seq<Row>, row: Row, target: seq<Column>, u: UpdateSet)
    requires IsTable(table) && IsTotal(row)
    ensures UpsertRows(table, [row], target, u) == UpsertRow(table, row, target, u)
  {
    hide UpsertRow, IsTotal;
    FirstOfRows(table, [row], target, u);
    assert [row][1..] == [];
  }

  lemma TwoRows(table: seq<Row>, rows: seq<Row>, next: seq<Row>, target: seq<Column>, u: UpdateSet)
    requires IsTable(table) && IsTable(next) && |rows| == 2 && forall k | 0 <= k < |rows| :: IsTotal(rows[k])
    requires UpsertRow(table, rows[0], target, u) == Some(next)
    ensures UpsertRows(table, rows, target, u) == UpsertRow(next, rows[1], target, u)
  {
    hide UpsertRow, UpsertRows, IsTotal;
    FirstOfRows(table, rows, target, u);
    assert rows[1..] == [rows[1]];
    OneRow(next, rows[1], target, u);
  }

  // A run without a component.
  function Without(n: nat): Row {
    Sample(n)[ComponentId := Null]
  }

  lemma WithoutIsRow(n: nat)
    ensures IsRow(Without(n))
  {
    hide RUN_COLUMNS;
    SampleIsRow(n);
    HasComponent();
    assert Without(n).Keys == RUN_COLUMNS;
    forall c | c in RUN_COLUMNS ensures Fits(c, Without(n)[c]) {
      assert c != ComponentId ==> Without(n)[c] == Sample(n)[c];
    }
  }

  lemma HasComponent()
    ensures ComponentId in RUN_COLUMNS
  {
  }

  // The fields of a builder that does not mention the component.
  function Unset(n: nat): Row {
    Sample(n) - {ComponentId}
  }

  lemma UnsetProposes(n: nat, columns: set<Column>)
    ensures Proposed(Unset(n), columns) == Without(n)
  {
    hide RUN_COLUMNS, SampleValue;
    HasComponent();
  }

  lemma {:induction false} ChecksOut(f: Row, columns: seq<Column>)
    requires (forall c | c in columns :: c in f) && (Status in f ==> f[Status] == Text("pending"))
    ensures CheckColumns(f, columns).None?
  {
    assert STATUSES[0] == "pending";
    if columns != [] {
      ChecksOut(f, columns[1..]);
    }
  }

  lemma UnsetPasses(n: nat)
    ensures RunCheck(Unset(n)).None? && RunCheck(Sample(n)).None?
  {
    hide CheckColumns;
    ChecksOut(Unset(n), RUN_REQUIRED);
    ChecksOut(Sample(n), RUN_REQUIRED);
  }

  lemma SameTarget(n: nat, target: Column)
    requires target == Id || target == WorkflowRunId
    ensures IsTotal(Sample(n)) && IsTotal(Without(n)) && Collides(Sample(n), Without(n), [target])
    ensures Sample(n)[Id] == UuidV(n) == Without(n)[Id]
  {
    hide RUN_COLUMNS;
    WithoutIsRow(n);
    SampleIsRow(n);
    ImmutableColumns();
  }

  // A run upserted by a builder that does not mention its component, in a bulk that inserts the columns.
  lemma UpsertUnset(columns: set<Column>, seen: seq<Row>)
    requires columns >= RUN_COLUMNS - {ComponentId} && KeepsImmutable(Updates(NEW_VALUES, columns, seen))
    ensures IsRow(Sample(1)) && IsTable([Sample(1)]) && IsRow(Without(1))
    ensures UpsertRow([Sample(1)], Without(1), [Id], Updates(NEW_VALUES, columns, seen))
         == Some([if ComponentId in columns then Without(1) else Sample(1)])
  {
    hide Updates, NEW_VALUES, RUN_COLUMNS, UpsertRow, KeepsImmutable, Fits, Resolve, SampleValue, Collides;
    SampleIsRow(1);
    WithoutIsRow(1);
    SameTarget(1, Id);
    ResolvesMerged(Sample(1), Without(1), columns, seen);
    assert Merged(Sample(1), Without(1), columns) == if ComponentId in columns then Without(1) else Sample(1);
    Replaced(Sample(1), Without(1), [Id], Updates(NEW_VALUES, columns, seen));
  }

  // A bulk of two: the first updates a stored run and does not mention its component, the second is new and has one.
  // The stored run loses its component. Upserted alone, the first would have left it.
  lemma ComponentLost()
    ensures var table, fs := [Sample(1)], [Unset(1), Sample(2)];
            && IsTable(table) && RunCheck(fs[0]).None? && RunCheck(fs[1]).None?
            && Statement(table, fs, On([Id])) == Some([Without(1), Sample(2)])
            && Statement(table, [Unset(1)], On([Id])) == Some(table)
  {
    UnsetPasses(1);
    UnsetPasses(2);
    LostInBulk();
    KeptAlone();
  }

  lemma LostInBulk()
    ensures IsTable([Sample(1)])
    ensures Statement([Sample(1)], [Unset(1), Sample(2)], On([Id])) == Some([Without(1), Sample(2)])
  {
    hide Updates, NEW_VALUES, RUN_COLUMNS, Statement, On, UpsertRows, UpsertRow, Inserted, Proposed, KeepsImmutable, Fits;
    hide Resolve, SampleValue, Unset, Collides;
    var fs := [Unset(1), Sample(2)];
    var columns := Inserted(fs);
    var u := Updates(NEW_VALUES, columns, fs);
    SampleIsRow(2);
    assert fs[|fs| - 1] == Sample(2);
    WholeProposed(fs);
    HasComponent();
    DeferredKeeps(fs);
    UpsertUnset(columns, fs);
    UnsetProposes(1, columns);
    assert AllProposed(fs)[0] == Without(1) && AllProposed(fs)[1] == Sample(2);
    StatementIs([Sample(1)], fs, [Id]);
    SameTarget(1, Id);
    SameTarget(2, Id);
    Added(Without(1), Sample(2), u);
    TwoRows([Sample(1)], AllProposed(fs), [Without(1)], [Id], u);
  }

  lemma KeptAlone()
    ensures IsTable([Sample(1)])
    ensures Statement([Sample(1)], [Unset(1)], On([Id])) == Some([Sample(1)])
  {
    hide Updates, NEW_VALUES, RUN_COLUMNS, Statement, On, UpsertRows, UpsertRow, Proposed, KeepsImmutable, Fits;
    hide Resolve, SampleValue, Collides;
    var fs := [Unset(1)];
    var columns := Inserted(fs);
    var u := Updates(NEW_VALUES, columns, fs);
    assert fs[1..] == [] && Inserted([]) == {};
    DeferredKeeps(fs);
    UpsertUnset(columns, fs);
    UnsetProposes(1, columns);
    assert AllProposed(fs) == [Without(1)];
    StatementIs([Sample(1)], fs, [Id]);
    OneRow([Sample(1)], Without(1), [Id], u);
  }

  // A row that collides on its workflow run, in a table with a unique index on that: it is stored under the id that
  // was there, and the bulk reports the one proposed. The migrations have no such index on component_runs, so that
  // their database refuses the target.
  lemma IdNotStored()
    ensures var table, f := [Sample(1)], Sample(1)[Id := UuidV(2)];
            && IsTable(table) && RunCheck(f).None?
            && Statement(table, [f], On([WorkflowRunId])) == Some([Sample(1)])
  {
    hide Updates, NEW_VALUES, RUN_COLUMNS, Statement, On, UpsertRows, UpsertRow, Inserted, Proposed, KeepsImmutable, Fits;
    hide Resolve, SampleValue, Collides, CheckColumns;
    var f := Sample(1)[Id := UuidV(2)];
    var fs := [f];
    var columns := Inserted(fs);
    var u := Updates(NEW_VALUES, columns, fs);
    OtherIdIsRow();
    OtherIdPasses();
    assert fs[|fs| - 1] == f;
    WholeProposed(fs);
    DeferredKeeps(fs);
    assert AllProposed(fs) == [f];
    StatementIs([Sample(1)], fs, [WorkflowRunId]);
    ResolvesMerged(Sample(1), f, columns, fs);
    assert Merged(Sample(1), f, columns) == Sample(1);
    Replaced(Sample(1), f, [WorkflowRunId], u);
    OneRow([Sample(1)], f, [WorkflowRunId], u);
  }

  lemma OtherIdIsRow()
    ensures var f := Sample(1)[Id := UuidV(2)];
            && IsRow(Sample(1)) && IsRow(f) && Collides(Sample(1), f, [WorkflowRunId])
  {
    hide RUN_COLUMNS;
    var f := Sample(1)[Id := UuidV(2)];
    SampleIsRow(1);
    ImmutableColumns();
    assert f.Keys == RUN_COLUMNS;
    forall c | c in RUN_COLUMNS ensures Fits(c, f[c]) {
      assert c != Id ==> f[c] == Sample(1)[c];
    }
  }

  lemma OtherIdPasses()
    ensures RunCheck(Sample(1)[Id := UuidV(2)]).None?
  {
    hide CheckColumns;
    ChecksOut(Sample(1)[Id := UuidV(2)], RUN_REQUIRED);
  }

  // A row without a component, upserted twice on the component, in a table with a unique index on that: inserted,
  // and then refused by its own id. The migrations have no such index on component_runs, so that their database
  // refuses the target the first time.
  lemma TwiceOnNull(columns: set<Column>, seen: seq<Row>)
    ensures var u := Updates(NEW_VALUES, columns, seen);
            && IsRow(Without(7))
            && UpsertRow([], Without(7), [ComponentId], u) == Some([Without(7)])
            && UpsertRow([Without(7)], Without(7), [ComponentId], u) == None
  {
    hide Updates, NEW_VALUES, RUN_COLUMNS, Resolve, Fits;
    WithoutIsRow(7);
    HasComponent();
    ImmutableColumns();
    var row := Without(7);
    assert ComponentId in [ComponentId];
    NoCollision([], row, [ComponentId]);
    NoCollision([row], row, [ComponentId]);
    assert [] + [row] == [row];
    assert [row][0][Id] == row[Id];
  }
}
