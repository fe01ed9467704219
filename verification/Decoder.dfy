/** The component entity as the program fills it in place: by creation, and by reading a row. */
module Decoder {
  import opened Schema
  import opened Codec

  class Component {
    var id: Uuid
    var organizationId: Uuid
    var applicationId: Uuid
    var name: string
    var kind: string
    var config: ConfigMap
    var stageId: Uuid
    var ordinal: int
    var continueOnFailure: bool
    var requiresApproval: bool
    var approvalPolicy: Approval
    var targetClusterId: Uuid
    var targetNamespace: string
    var chartCredentialId: Uuid
    var githubInstallationId: Uuid
    var createdAt: int
    var updatedAt: int
    var selectValues: map<Column, Scanned>

    // The field for a column.
    function Get(c: Column): Cell
      reads this
    {
      match c
      case Id => UuidC(id)
      case OrganizationId => UuidC(organizationId)
      case ApplicationId => UuidC(applicationId)
      case Name => TextC(name)
      case Type => TextC(kind)
      case Config => ConfigC(config)
      case StageId => UuidC(stageId)
      case Ordinal => IntC(ordinal)
      case ContinueOnFailure => BoolC(continueOnFailure)
      case RequiresApproval => BoolC(requiresApproval)
      case ApprovalPolicy => PolicyC(approvalPolicy)
      case TargetClusterId => UuidC(targetClusterId)
      case TargetNamespace => TextC(targetNamespace)
      case ChartCredentialId => UuidC(chartCredentialId)
      case GithubInstallationId => UuidC(githubInstallationId)
      case CreatedAt => TimeC(createdAt)
      case UpdatedAt => TimeC(updatedAt)
      case _ => UuidC(ZERO_UUID)
    }

    function Data(): Filled
      reads this
    {
      Filled(map c | c in COMPONENT_COLUMNS :: Get(c), selectValues)
    }

    lemma GetTyped(c: Column)
      requires ColumnKind(c) != UnknownK
      ensures KindOf(Get(c)) == ColumnKind(c)
    {
    }

    lemma DataIsEntity()
      ensures IsEntity(Data().fields)
    {
      hide COMPONENT_COLUMNS, ColumnKind, KindOf, Get;
      forall c
        ensures c in Data().fields <==> ColumnKind(c) != UnknownK
        ensures c in Data().fields ==> KindOf(Data().fields[c]) == ColumnKind(c)
      {
        ColumnsAre(c);
        if ColumnKind(c) != UnknownK {
          GetTyped(c);
        }
      }
    }

    // An entity is empty when it is made.
    constructor ()
      ensures Data() == EMPTY
    {
      id, organizationId, applicationId, stageId := ZERO_UUID, ZERO_UUID, ZERO_UUID, ZERO_UUID;
      targetClusterId, chartCredentialId, githubInstallationId := ZERO_UUID, ZERO_UUID, ZERO_UUID;
      name, kind, targetNamespace := "", "", "";
      config, approvalPolicy := None, NO_POLICY;
      ordinal, continueOnFailure, requiresApproval := 0, false, false;
      createdAt, updatedAt, selectValues := 0, 0, map[];
      new;
      hide COMPONENT_COLUMNS;
      forall c | c in COMPONENT_COLUMNS ensures Get(c) == ZeroCell(ColumnKind(c)) {
        ColumnsAre(c);
        GetZero(c);
      }
      assert Data().fields == EMPTY.fields;
    }

    lemma GetZero(c: Column)
      requires ColumnKind(c) != UnknownK
      requires id == organizationId == applicationId == stageId == ZERO_UUID
      requires targetClusterId == chartCredentialId == githubInstallationId == ZERO_UUID
      requires name == kind == targetNamespace == "" && config.None? && approvalPolicy == NO_POLICY
      requires ordinal == 0 && !continueOnFailure && !requiresApproval && createdAt == updatedAt == 0
      ensures Get(c) == ZeroCell(ColumnKind(c))
    {
    }

    // The columns written so far hold what the mutation set; the others are zero.
    ghost predicate Holds(f: Fields, written: set<Column>)
      reads this
    {
      && selectValues == map[]
      && forall c | ColumnKind(c) != UnknownK :: Get(c) == if c in written && c in f then f[c] else ZeroCell(ColumnKind(c))
    }

    lemma EmptyAt()
      requires Data() == EMPTY
      ensures forall f: Fields :: Holds(f, {})
    {
      hide COMPONENT_COLUMNS, ColumnKind, ZeroCell, Get;
      forall c | ColumnKind(c) != UnknownK ensures Get(c) == ZeroCell(ColumnKind(c)) {
        ColumnsAre(c);
        assert c in EMPTY.fields;
      }
    }

    lemma HoldsAll(f: Fields, written: set<Column>)
      requires Holds(f, written)
      requires written == {Id} + (set c | c in FIELD_COLUMNS) + set c | c in EDGE_COLUMNS
      ensures Data() == Filled(NodeOf(f), map[])
    {
      hide COMPONENT_COLUMNS, FIELD_COLUMNS, EDGE_COLUMNS, ColumnKind, ZeroCell, Get;
      forall c | c in COMPONENT_COLUMNS ensures Get(c) == NodeOf(f)[c] {
        ColumnsAre(c);
        FieldColumnsAre(c);
        EdgeColumnsAre(c);
      }
      assert Data().fields == NodeOf(f);
    }

    method Put(c: Column, cell: Cell)
      requires ColumnKind(c) == KindOf(cell)
      modifies this
      ensures Get(c) == cell
      ensures forall d | d != c :: Get(d) == old(Get(d))
      ensures selectValues == old(selectValues)
    {
      match c {
        case Id => id := cell.uuid;
        case OrganizationId => organizationId := cell.uuid;
        case ApplicationId => applicationId := cell.uuid;
        case Name => name := cell.text;
        case Type => kind := cell.text;
        case Config => config := cell.config;
        case StageId => stageId := cell.uuid;
        case Ordinal => ordinal := cell.number;
        case ContinueOnFailure => continueOnFailure := cell.flag;
        case RequiresApproval => requiresApproval := cell.flag;
        case ApprovalPolicy => approvalPolicy := cell.policy;
        case TargetClusterId => targetClusterId := cell.uuid;
        case TargetNamespace => targetNamespace := cell.text;
        case ChartCredentialId => chartCredentialId := cell.uuid;
        case GithubInstallationId => githubInstallationId := cell.uuid;
        case CreatedAt => createdAt := cell.time;
        case UpdatedAt => updatedAt := cell.time;
      }
    }

    // A field takes what the mutation set for it, if anything.
    method Set(c: Column, f: Fields, ghost written: set<Column>)
      requires WellTyped(f) && Holds(f, written)
      modifies this
      ensures Holds(f, written + {c})
    {
      hide ColumnKind, KindOf, ZeroCell, Get;
      if c in f {
        Put(c, f[c]);
      }
    }

    // The new state after one write, as a value.
    twostate lemma PutData(c: Column)
      requires ColumnKind(c) != UnknownK && selectValues == old(selectValues)
      requires forall d | d != c :: Get(d) == old(Get(d))
      ensures Data() == old(Data()).(fields := old(Data()).fields[c := Get(c)])
    {
      hide COMPONENT_COLUMNS, ColumnKind, Get;
      ColumnsAre(c);
      assert Data().fields == old(Data()).fields[c := Get(c)];
    }

    // One column of a row: a field of the entity, or a value selected beside them.
    method AssignColumn(c: Column, v: Scanned, json: Json) returns (failure: Option<AssignError>)
      modifies this
      ensures HasField(old(Data()).fields, c)
      ensures match Assign(old(Data()), c, v, json)
              case Err(error) => failure == Some(error) && Data() == old(Data())
              case Ok(next) => failure == None && Data() == next
    {
      hide COMPONENT_COLUMNS, Get, ColumnKind;
      ghost var was := Data();
      DataIsEntity();
      AssignKeepsEntity(was, c, v, json);
      if ColumnKind(c) != UnknownK {
        DataAt(c);
      }
      failure := None;
      match ColumnKind(c) {
        case UuidK =>
          if !v.ScannedUuid? { return Some(UnexpectedType(c)); }
          Put(c, UuidC(v.uuid));
        case TextK =>
          if !v.ScannedText? { return Some(UnexpectedType(c)); }
          if v.text.None? { return; }
          Put(c, TextC(v.text.value));
        case IntK =>
          if !v.ScannedInt? { return Some(UnexpectedType(c)); }
          if v.number.None? { return; }
          Put(c, IntC(v.number.value));
        case BoolK =>
          if !v.ScannedBool? { return Some(UnexpectedType(c)); }
          if v.flag.None? { return; }
          Put(c, BoolC(v.flag.value));
        case TimeK =>
          if !v.ScannedTime? { return Some(UnexpectedType(c)); }
          if v.time.None? { return; }
          Put(c, TimeC(v.time.value));
        case ConfigK =>
          if !v.ScannedBytes? { return Some(UnexpectedType(c)); }
          if v.bytes == [] { return; }
          ConfigIs(c);
          var decoded := json.decodeConfig(v.bytes, config);
          if decoded.None? { return Some(BadJson(c)); }
          Put(c, ConfigC(decoded.value));
        case PolicyK =>
          if !v.ScannedBytes? { return Some(UnexpectedType(c)); }
          if v.bytes == [] { return; }
          ConfigIs(c);
          var decoded := json.decodePolicy(v.bytes, approvalPolicy);
          if decoded.None? { return Some(BadJson(c)); }
          Put(c, PolicyC(decoded.value));
        case UnknownK =>
          SelectData(c, v);
          return;
      }
      PutData(c);
    }

    method SelectData(c: Column, v: Scanned)
      modifies this
      ensures Data() == old(Data()).(selected := old(Data()).selected[c := v])
    {
      hide COMPONENT_COLUMNS;
      selectValues := selectValues[c := v];
      assert forall d :: Get(d) == old(Get(d));
      assert Data().fields == old(Data()).fields;
    }

    lemma DataAt(c: Column)
      requires ColumnKind(c) != UnknownK
      ensures c in Data().fields && Data().fields[c] == Get(c)
    {
      hide COMPONENT_COLUMNS, ColumnKind, Get;
      ColumnsAre(c);
    }

    lemma ConfigIs(c: Column)
      ensures ColumnKind(c) == ConfigK ==> Get(c) == ConfigC(config)
      ensures ColumnKind(c) == PolicyK ==> Get(c) == PolicyC(approvalPolicy)
    {
    }

    // A row into the entity, column by column.
    method AssignValues(columns: seq<Column>, values: array<Scanned>, json: Json) returns (failure: Option<AssignError>)
      modifies this
      ensures IsEntity(old(Data()).fields)
      ensures match Codec.AssignValues(old(Data()), columns, values[..], json)
              case Err(error) => failure == Some(error)
              case Ok(entity) => failure == None && Data() == entity
    {
      hide Assign, IsEntity, HasField, Get, COMPONENT_COLUMNS, Data;
      DataIsEntity();
      ghost var was := Data();
      if values.Length < |columns| {
        return Some(TooFewValues);
      }
      var i := 0;
      while i < |columns|
        invariant 0 <= i <= |columns|
        invariant IsEntity(Data().fields)
        invariant AssignAll(was, columns, values[..], json) == AssignAll(Data(), columns[i..], values[i..], json)
      {
        assert columns[i..][0] == columns[i] && columns[i..][1..] == columns[i + 1..];
        assert values[i..][0] == values[i] && values[i..][1..] == values[i + 1..];
        failure := AssignColumn(columns[i], values[i], json);
        if failure.Some? {
          return;
        }
        DataIsEntity();
        i := i + 1;
      }
      return None;
    }
  }

  // The destinations for scanning a row, one for each column.
  method ScanValues(columns: seq<Column>) returns (values: array<Dest>)
    ensures fresh(values) && values.Length == |columns|
    ensures forall i | 0 <= i < |columns| :: values[i] == DestOf(columns[i])
  {
    values := new Dest[|columns|](_ => UnknownDest);
    for i := 0 to |columns|
      invariant forall k | 0 <= k < i :: values[k] == DestOf(columns[k])
    {
      values[i] := DestOf(columns[i]);
    }
  }

  // The fields of a new entity, and of the specification beside it.
  method WriteFields(node: Component, f: Fields) returns (fields: seq<(Column, Cell)>)
    requires WellTyped(f) && node.Holds(f, {Id})
    modifies node
    ensures node.Holds(f, {Id} + set c | c in FIELD_COLUMNS) && fields == SetFields(f, FIELD_COLUMNS)
  {
    hide COMPONENT_COLUMNS, FIELD_COLUMNS, ColumnKind, ZeroCell, WellTyped, Component.Holds;
    fields := [];
    ghost var written := {Id};
    for i := 0 to |FIELD_COLUMNS|
      invariant written == {Id} + set c | c in FIELD_COLUMNS[..i]
      invariant node.Holds(f, written)
      invariant fields + SetFields(f, FIELD_COLUMNS[i..]) == SetFields(f, FIELD_COLUMNS)
    {
      var c := FIELD_COLUMNS[i];
      assert FIELD_COLUMNS[i..][1..] == FIELD_COLUMNS[i + 1..];
      node.Set(c, f, written);
      if c in f {
        fields := fields + [(c, f[c])];
      }
      written := written + {c};
      assert FIELD_COLUMNS[..i + 1] == FIELD_COLUMNS[..i] + [c];
    }
    assert FIELD_COLUMNS[..|FIELD_COLUMNS|] == FIELD_COLUMNS;
  }

  // The keys of a new entity, and the edges of the specification beside it.
  method WriteEdges(node: Component, f: Fields, ghost before: set<Column>) returns (edges: seq<(Column, seq<Cell>)>)
    requires WellTyped(f) && node.Holds(f, before)
    modifies node
    ensures node.Holds(f, before + set c | c in EDGE_COLUMNS) && edges == SetEdges(f, EDGE_COLUMNS)
  {
    hide COMPONENT_COLUMNS, EDGE_COLUMNS, ColumnKind, ZeroCell, WellTyped, Component.Holds;
    edges := [];
    ghost var written := before;
    for i := 0 to |EDGE_COLUMNS|
      invariant written == before + set c | c in EDGE_COLUMNS[..i]
      invariant node.Holds(f, written)
      invariant edges + SetEdges(f, EDGE_COLUMNS[i..]) == SetEdges(f, EDGE_COLUMNS)
    {
      var c := EDGE_COLUMNS[i];
      assert EDGE_COLUMNS[i..][1..] == EDGE_COLUMNS[i + 1..];
      node.Set(c, f, written);
      if c in f {
        edges := edges + [(c, [f[c]])];
      }
      written := written + {c};
      assert EDGE_COLUMNS[..i + 1] == EDGE_COLUMNS[..i] + [c];
    }
    assert EDGE_COLUMNS[..|EDGE_COLUMNS|] == EDGE_COLUMNS;
  }

  // What creation does with a mutation: the specification to insert, and the entity to return.
  method NewNode(f: Fields) returns (node: Component, spec: CreateSpec)
    requires WellTyped(f)
    ensures fresh(node) && spec == SpecOf(f)
    ensures node.Data() == Filled(NodeOf(f), map[])
  {
    hide COMPONENT_COLUMNS, FIELD_COLUMNS, EDGE_COLUMNS, ColumnKind, ZeroCell, WellTyped, Component.Holds, Component.Data;
    hide NodeOf, SetFields, SetEdges;
    node := new Component();
    node.EmptyAt();
    node.Set(Id, f, {});
    assert {} + {Id} == {Id};
    var fields := WriteFields(node, f);
    var edges := WriteEdges(node, f, {Id} + set c | c in FIELD_COLUMNS);
    spec := CreateSpec(if Id in f then Some(f[Id]) else None, fields, edges);
    node.HoldsAll(f, {Id} + (set c | c in FIELD_COLUMNS) + set c | c in EDGE_COLUMNS);
  }
}
