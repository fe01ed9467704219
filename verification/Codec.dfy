/** Components as they are created, stored and read back: what a mutation puts in the row, and what
  * scanning that row puts in the entity. */
module Codec {
  import opened Schema

  // A nil list of approvers and an empty one are different values, and so are a nil map and an empty one.
  datatype Approval = Approval(
    approvers: Option<seq<string>>, required: int, differentApprover: bool, timeoutMinutes: int)

  const NO_POLICY := Approval(None, 0, false, 0)

  type ConfigMap = Option<map<string, string>>

  /** The value of a field of the entity. */
  datatype Cell =
    | UuidC(uuid: Uuid)
    | TextC(text: string)
    | IntC(number: int)
    | BoolC(flag: bool)
    | TimeC(time: int)
    | ConfigC(config: ConfigMap)
    | PolicyC(policy: Approval)

  datatype Kind = UuidK | TextK | IntK | BoolK | TimeK | ConfigK | PolicyK | UnknownK

  function KindOf(cell: Cell): Kind {
    match cell
    case UuidC(_) => UuidK
    case TextC(_) => TextK
    case IntC(_) => IntK
    case BoolC(_) => BoolK
    case TimeC(_) => TimeK
    case ConfigC(_) => ConfigK
    case PolicyC(_) => PolicyK
  }

  // The type of each column of components.
  function ColumnKind(c: Column): Kind {
    match c
    case Id | OrganizationId | ApplicationId | StageId | TargetClusterId | ChartCredentialId
      | GithubInstallationId => UuidK
    case Name | Type | TargetNamespace => TextK
    case Ordinal => IntK
    case ContinueOnFailure | RequiresApproval => BoolK
    case CreatedAt | UpdatedAt => TimeK
    case Config => ConfigK
    case ApprovalPolicy => PolicyK
    case _ => UnknownK
  }

  // Go's zero value of the type.
  function ZeroCell(kind: Kind): Cell {
    match kind
    case TextK => TextC("")
    case IntK => IntC(0)
    case BoolK => BoolC(false)
    case TimeK => TimeC(0)
    case ConfigK => ConfigC(None)
    case PolicyK => PolicyC(NO_POLICY)
    case _ => UuidC(ZERO_UUID)
  }

  // ----- mutations -----

  /** The fields a mutation has set. */
  type Fields = map<Column, Cell>

  ghost predicate WellTyped(f: Fields) {
    forall c | c in f :: KindOf(f[c]) == ColumnKind(c)
  }

  /** The clock and the id generator, read when defaults are filled in. */
  datatype Env = Env(now: int, newId: Uuid)

  // The fields that have a default, in the order in which they are filled in.
  const DEFAULTED: seq<Column> := [Type, Ordinal, ContinueOnFailure, RequiresApproval, CreatedAt, UpdatedAt, Id]

  function DefaultCell(c: Column, env: Env): Cell {
    match c
    case Type => TextC("helm")
    case Ordinal => IntC(0)
    case ContinueOnFailure | RequiresApproval => BoolC(false)
    case CreatedAt | UpdatedAt => TimeC(env.now)
    case _ => UuidC(env.newId)
  }

  function FillIn(f: Fields, columns: seq<Column>, env: Env): Fields
    decreases |columns|
  {
    if columns == [] then f
    else FillIn(if columns[0] in f then f else f[columns[0] := DefaultCell(columns[0], env)], columns[1..], env)
  }

  function Defaults(f: Fields, env: Env): Fields {
    FillIn(f, DEFAULTED, env)
  }

  lemma {:induction false} FillInFields(f: Fields, columns: seq<Column>, env: Env, c: Column)
    ensures c in FillIn(f, columns, env) <==> c in f || c in columns
    ensures c in FillIn(f, columns, env) ==> FillIn(f, columns, env)[c] == if c in f then f[c] else DefaultCell(c, env)
    decreases |columns|
  {
    if columns != [] {
      FillInFields(if columns[0] in f then f else f[columns[0] := DefaultCell(columns[0], env)], columns[1..], env, c);
    }
  }

  // Defaults change nothing that is set, so filling in twice is filling in once.
  lemma DefaultsOnce(f: Fields, env: Env, later: Env)
    ensures Defaults(Defaults(f, env), later) == Defaults(f, env)
  {
    hide FillIn, DEFAULTED;
    var once, twice := Defaults(f, env), Defaults(Defaults(f, env), later);
    forall c ensures (c in twice <==> c in once) && (c in once ==> twice[c] == once[c]) {
      FillInFields(f, DEFAULTED, env, c);
      FillInFields(once, DEFAULTED, later, c);
    }
  }

  lemma DefaultsTyped(f: Fields, env: Env)
    requires WellTyped(f)
    ensures WellTyped(Defaults(f, env))
  {
    hide FillIn;
    forall c | c in Defaults(f, env) ensures KindOf(Defaults(f, env)[c]) == ColumnKind(c) {
      FillInFields(f, DEFAULTED, env, c);
      assert c in DEFAULTED ==> c in {Type, Ordinal, ContinueOnFailure, RequiresApproval, CreatedAt, UpdatedAt, Id};
    }
  }

  datatype ValidationError = MissingField(column: Column) | InvalidField(column: Column) | MissingEdge(column: Column)

  predicate ValidValue(c: Column, cell: Cell) {
    match c
    case Name => cell.TextC? && cell.text != ""
    case Type => cell.TextC? && cell.text in ["helm", "manifest", "terraform"]
    case _ => true
  }

  // The required fields, in the order in which they are checked.
  const REQUIRED: seq<Column> := [
    OrganizationId, ApplicationId, Name, Type, StageId, Ordinal, ContinueOnFailure, RequiresApproval,
    CreatedAt, UpdatedAt]

  function CheckFields(f: Fields, required: seq<Column>): Option<ValidationError> {
    if required == [] then None
    else if required[0] !in f then Some(MissingField(required[0]))
    else if !ValidValue(required[0], f[required[0]]) then Some(InvalidField(required[0]))
    else CheckFields(f, required[1..])
  }

  // The required edges share their keys with required fields, so only a field can be reported.
  function Check(f: Fields): Option<ValidationError> {
    var fields := CheckFields(f, REQUIRED);
    if fields.Some? then fields
    else if OrganizationId !in f then Some(MissingEdge(OrganizationId))
    else if ApplicationId !in f then Some(MissingEdge(ApplicationId))
    else if StageId !in f then Some(MissingEdge(StageId))
    else None
  }

  lemma {:induction false} CheckFieldsPass(f: Fields, required: seq<Column>)
    ensures CheckFields(f, required).None? <==> forall c | c in required :: c in f && ValidValue(c, f[c])
    ensures CheckFields(f, required).Some? ==> !CheckFields(f, required).value.MissingEdge?
  {
    if required != [] {
      assert forall c :: c in required <==> c == required[0] || c in required[1..];
      CheckFieldsPass(f, required[1..]);
    }
  }

  // A mutation passes exactly when every required field is there and valid, and the edge checks never fire.
  lemma CheckPasses(f: Fields)
    ensures Check(f).None? <==> forall c | c in REQUIRED :: c in f && ValidValue(c, f[c])
    ensures Check(f).Some? ==> !Check(f).value.MissingEdge?
  {
    CheckFieldsPass(f, REQUIRED);
    assert REQUIRED[0] == OrganizationId && REQUIRED[1] == ApplicationId && REQUIRED[4] == StageId;
  }

  // What filling in defaults leaves, value by value.
  lemma DefaultsAre(f: Fields, env: Env, c: Column)
    ensures var g := Defaults(f, env);
            && (c in g <==> c in f || c in {Type, Ordinal, ContinueOnFailure, RequiresApproval, CreatedAt, UpdatedAt, Id})
            && (c in f ==> g[c] == f[c])
            && (c in g && c !in f ==>
                  g[c] ==
                    match c
                    case Type => TextC("helm")
                    case Ordinal => IntC(0)
                    case ContinueOnFailure | RequiresApproval => BoolC(false)
                    case CreatedAt | UpdatedAt => TimeC(env.now)
                    case _ => UuidC(env.newId))
  {
    hide FillIn, DEFAULTED;
    DefaultedAre();
    FillInFields(f, DEFAULTED, env, c);
  }

  lemma DefaultedAre()
    ensures forall c :: c in DEFAULTED <==>
              c in {Type, Ordinal, ContinueOnFailure, RequiresApproval, CreatedAt, UpdatedAt, Id}
  {
    assert DEFAULTED[0] == Type && DEFAULTED[1] == Ordinal && DEFAULTED[2] == ContinueOnFailure;
    assert DEFAULTED[3] == RequiresApproval && DEFAULTED[4] == CreatedAt && DEFAULTED[5] == UpdatedAt && DEFAULTED[6] == Id;
  }

  ghost predicate NamedAndTyped(f: Fields) {
    && Name in f && f[Name].TextC? && f[Name].text != ""
    && Type in f && f[Type] in {TextC("helm"), TextC("manifest"), TextC("terraform")}
  }

  // The mutations that the check accepts.
  lemma CheckAccepts(f: Fields)
    ensures Check(f).None? <==>
              && OrganizationId in f && ApplicationId in f && StageId in f && NamedAndTyped(f)
              && Ordinal in f && ContinueOnFailure in f && RequiresApproval in f && CreatedAt in f && UpdatedAt in f
  {
    hide Check;
    CheckPasses(f);
    RequiredAre();
  }

  lemma RequiredAre()
    ensures forall c :: c in REQUIRED <==>
              c in {OrganizationId, ApplicationId, Name, Type, StageId, Ordinal, ContinueOnFailure, RequiresApproval,
                    CreatedAt, UpdatedAt}
  {
    assert REQUIRED[0] == OrganizationId && REQUIRED[1] == ApplicationId && REQUIRED[2] == Name && REQUIRED[3] == Type;
    assert REQUIRED[4] == StageId && REQUIRED[5] == Ordinal && REQUIRED[6] == ContinueOnFailure;
    assert REQUIRED[7] == RequiresApproval && REQUIRED[8] == CreatedAt && REQUIRED[9] == UpdatedAt;
  }

  // The error names the first field, in this order, that is missing or invalid.
  lemma CheckReports(f: Fields)
    ensures var order := [OrganizationId, ApplicationId, Name, Type, StageId, Ordinal, ContinueOnFailure, RequiresApproval,
                          CreatedAt, UpdatedAt];
            Check(f).Some? ==>
              exists k :: 0 <= k < |order|
                && Check(f).value == (if order[k] !in f then MissingField(order[k]) else InvalidField(order[k]))
                && (order[k] in f ==> order[k] in {Name, Type} && !ValidValue(order[k], f[order[k]]))
                && forall j | 0 <= j < k :: order[j] in f && ValidValue(order[j], f[order[j]])
  {
    hide Check;
    CheckPasses(f);
    FirstReported(f, REQUIRED);
    CheckIsFields(f);
  }

  lemma CheckIsFields(f: Fields)
    ensures Check(f) == CheckFields(f, REQUIRED)
  {
    CheckPasses(f);
    CheckFieldsPass(f, REQUIRED);
    assert REQUIRED[0] == OrganizationId && REQUIRED[1] == ApplicationId && REQUIRED[4] == StageId;
  }

  lemma {:induction false} FirstReported(f: Fields, required: seq<Column>)
    ensures CheckFields(f, required).Some? ==>
              exists k :: 0 <= k < |required|
                && CheckFields(f, required).value
                     == (if required[k] !in f then MissingField(required[k]) else InvalidField(required[k]))
                && (required[k] in f ==> required[k] in {Name, Type} && !ValidValue(required[k], f[required[k]]))
                && forall j | 0 <= j < k :: required[j] in f && ValidValue(required[j], f[required[j]])
  {
    if required != [] && required[0] in f && ValidValue(required[0], f[required[0]])
       && CheckFields(f, required).Some? {
      FirstReported(f, required[1..]);
      var rest := required[1..];
      var k :| 0 <= k < |rest|
        && CheckFields(f, rest).value == (if rest[k] !in f then MissingField(rest[k]) else InvalidField(rest[k]))
        && (rest[k] in f ==> rest[k] in {Name, Type} && !ValidValue(rest[k], f[rest[k]]))
        && forall j | 0 <= j < k :: rest[j] in f && ValidValue(rest[j], f[rest[j]]);
      assert required[k + 1] == rest[k];
      assert forall j | 1 <= j < k + 1 :: required[j] == rest[j - 1];
    }
  }

  // A builder that sets its organization, application, stage and a name, and no type or a valid one, passes the check
  // once its defaults are filled in; and no other does.
  lemma SavedPasses(f: Fields, env: Env)
    ensures Check(Defaults(f, env)).None? <==>
              && OrganizationId in f && ApplicationId in f && StageId in f
              && Name in f && f[Name].TextC? && f[Name].text != ""
              && (Type in f ==> f[Type] in {TextC("helm"), TextC("manifest"), TextC("terraform")})
  {
    hide Check, Defaults;
    forall c ensures c in f ==> c in Defaults(f, env) && Defaults(f, env)[c] == f[c] {
      DefaultsAre(f, env, c);
    }
    DefaultsAre(f, env, OrganizationId);
    DefaultsAre(f, env, ApplicationId);
    DefaultsAre(f, env, StageId);
    DefaultsAre(f, env, Name);
    DefaultsAre(f, env, Type);
    DefaultsAre(f, env, Ordinal);
    DefaultsAre(f, env, ContinueOnFailure);
    DefaultsAre(f, env, RequiresApproval);
    DefaultsAre(f, env, CreatedAt);
    DefaultsAre(f, env, UpdatedAt);
    CheckAccepts(Defaults(f, env));
  }

  // ----- creation -----

  // The columns written as fields, in the order in which they are written.
  const FIELD_COLUMNS: seq<Column> := [
    Name, Type, Config, Ordinal, ContinueOnFailure, RequiresApproval, ApprovalPolicy, TargetNamespace,
    CreatedAt, UpdatedAt]

  // The columns written as edges.
  const EDGE_COLUMNS: seq<Column> := [
    OrganizationId, ApplicationId, TargetClusterId, ChartCredentialId, GithubInstallationId, StageId]

  datatype CreateSpec = CreateSpec(id: Option<Cell>, fields: seq<(Column, Cell)>, edges: seq<(Column, seq<Cell>)>)

  function SetFields(f: Fields, columns: seq<Column>): seq<(Column, Cell)> {
    if columns == [] then []
    else
      var rest := SetFields(f, columns[1..]);
      if columns[0] in f then [(columns[0], f[columns[0]])] + rest else rest
  }

  function SetEdges(f: Fields, columns: seq<Column>): seq<(Column, seq<Cell>)> {
    if columns == [] then []
    else
      var rest := SetEdges(f, columns[1..]);
      if columns[0] in f then [(columns[0], [f[columns[0]]])] + rest else rest
  }

  function SpecOf(f: Fields): CreateSpec {
    CreateSpec(if Id in f then Some(f[Id]) else None, SetFields(f, FIELD_COLUMNS), SetEdges(f, EDGE_COLUMNS))
  }

  // The entity that creation returns: the fields set, zero values elsewhere.
  function NodeOf(f: Fields): Fields {
    map c | c in COMPONENT_COLUMNS :: if c in f then f[c] else ZeroCell(ColumnKind(c))
  }

  // ----- the store -----

  /** The JSON encoding of the two structured columns. Decoding goes on top of the value already there. */
  datatype Json = Json(
    encodeConfig: ConfigMap -> seq<char>,
    decodeConfig: (seq<char>, ConfigMap) -> Option<ConfigMap>,
    encodePolicy: Approval -> seq<char>,
    decodePolicy: (seq<char>, Approval) -> Option<Approval>)

  // The policy without an empty list of approvers: encoding omits the list when it is empty.
  function Omitting(v: Approval): Approval {
    if v.approvers == Some([]) then v.(approvers := None) else v
  }

  // What is encoded decodes to itself on top of a zero value, up to what encoding omits, and decoding the same text
  // again on top of what it gave changes nothing.
  ghost predicate RoundTrips(json: Json) {
    && (forall v: ConfigMap :: json.encodeConfig(v) != [] && json.decodeConfig(json.encodeConfig(v), None) == Some(v))
    && (forall v: Approval :: json.encodePolicy(v) != [] && json.decodePolicy(json.encodePolicy(v), NO_POLICY) == Some(Omitting(v)))
    && (forall text, v ::
          var w := json.decodeConfig(text, v); w.Some? ==> json.decodeConfig(text, w.value) == w)
    && (forall text, v ::
          var w := json.decodePolicy(text, v); w.Some? ==> json.decodePolicy(text, w.value) == w)
  }

  function Stored(cell: Cell, json: Json): Value {
    match cell
    case UuidC(u) => UuidV(u)
    case TextC(s) => Text(s)
    case IntC(n) => IntV(n)
    case BoolC(b) => BoolV(b)
    case TimeC(t) => TimeV(t)
    case ConfigC(v) => Bytes(json.encodeConfig(v))
    case PolicyC(v) => Bytes(json.encodePolicy(v))
  }

  function FieldIn(fields: seq<(Column, Cell)>, c: Column): Option<Cell> {
    if fields == [] then None
    else if fields[0].0 == c then Some(fields[0].1)
    else FieldIn(fields[1..], c)
  }

  function EdgeIn(edges: seq<(Column, seq<Cell>)>, c: Column): Option<Cell> {
    if edges == [] then None
    else if edges[0].0 == c && edges[0].1 != [] then Some(edges[0].1[0])
    else EdgeIn(edges[1..], c)
  }

  function CellIn(spec: CreateSpec, c: Column): Option<Cell> {
    if c == Id then spec.id
    else
      var field := FieldIn(spec.fields, c);
      if field.Some? then field else EdgeIn(spec.edges, c)
  }

  // The row that an insert of the specification stores: where nothing was set, what the table puts there. That is
  // the default of the column, or NULL when it has none.
  function RowOf(spec: CreateSpec, json: Json, unset: map<Column, Value>): Row {
    map c | c in COMPONENT_COLUMNS ::
      var cell := CellIn(spec, c);
      if cell.Some? then Stored(cell.value, json) else Unset(c, unset)
  }

  function Unset(c: Column, unset: map<Column, Value>): Value {
    if c in unset then unset[c] else Null
  }

  // ----- reading -----

  /** What a column is scanned into. */
  datatype Dest = BytesDest | BoolDest | IntDest | TextDest | TimeDest | UuidDest | UnknownDest

  /** A destination after scanning. NULL leaves an invalid value, except that a UUID stays zero and bytes stay empty. */
  datatype Scanned =
    | ScannedBytes(bytes: seq<char>)
    | ScannedBool(flag: Option<bool>)
    | ScannedInt(number: Option<int>)
    | ScannedText(text: Option<string>)
    | ScannedTime(time: Option<int>)
    | ScannedUuid(uuid: Uuid)
    | ScannedAny(value: Value)

  function DestOf(c: Column): Dest {
    match c
    case Config | ApprovalPolicy => BytesDest
    case ContinueOnFailure | RequiresApproval => BoolDest
    case Ordinal => IntDest
    case Name | Type | TargetNamespace => TextDest
    case CreatedAt | UpdatedAt => TimeDest
    case Id | OrganizationId | ApplicationId | StageId | TargetClusterId | ChartCredentialId
      | GithubInstallationId => UuidDest
    case _ => UnknownDest
  }

  // The driver's scan of a stored value.
  function Scan(dest: Dest, value: Value): Option<Scanned> {
    match (dest, value)
    case (UnknownDest, _) => Some(ScannedAny(value))
    case (BytesDest, Null) => Some(ScannedBytes([]))
    case (BytesDest, Bytes(b)) => Some(ScannedBytes(b))
    case (BoolDest, Null) => Some(ScannedBool(None))
    case (BoolDest, BoolV(b)) => Some(ScannedBool(Some(b)))
    case (IntDest, Null) => Some(ScannedInt(None))
    case (IntDest, IntV(n)) => Some(ScannedInt(Some(n)))
    case (TextDest, Null) => Some(ScannedText(None))
    case (TextDest, Text(s)) => Some(ScannedText(Some(s)))
    case (TimeDest, Null) => Some(ScannedTime(None))
    case (TimeDest, TimeV(t)) => Some(ScannedTime(Some(t)))
    case (UuidDest, Null) => Some(ScannedUuid(ZERO_UUID))
    case (UuidDest, UuidV(u)) => Some(ScannedUuid(u))
    case _ => None
  }

  datatype AssignError = TooFewValues | UnexpectedType(column: Column) | BadJson(column: Column)

  /** The entity being filled: its fields, and the columns it has no field for. */
  datatype Filled = Filled(fields: Fields, selected: map<Column, Scanned>)

  // The field after a scanned value is assigned to it.
  function AssignCell(cell: Cell, c: Column, v: Scanned, json: Json): Result<Cell, AssignError>
    requires KindOf(cell) == ColumnKind(c)
  {
    match ColumnKind(c)
    case UuidK => if v.ScannedUuid? then Ok(UuidC(v.uuid)) else Err(UnexpectedType(c))
    case TextK =>
      if !v.ScannedText? then Err(UnexpectedType(c)) else Ok(if v.text.None? then cell else TextC(v.text.value))
    case IntK =>
      if !v.ScannedInt? then Err(UnexpectedType(c)) else Ok(if v.number.None? then cell else IntC(v.number.value))
    case BoolK =>
      if !v.ScannedBool? then Err(UnexpectedType(c)) else Ok(if v.flag.None? then cell else BoolC(v.flag.value))
    case TimeK =>
      if !v.ScannedTime? then Err(UnexpectedType(c)) else Ok(if v.time.None? then cell else TimeC(v.time.value))
    case ConfigK =>
      if !v.ScannedBytes? then Err(UnexpectedType(c))
      else if v.bytes == [] then Ok(cell)
      else
        var config := json.decodeConfig(v.bytes, cell.config);
        if config.None? then Err(BadJson(c)) else Ok(ConfigC(config.value))
    case PolicyK =>
      if !v.ScannedBytes? then Err(UnexpectedType(c))
      else if v.bytes == [] then Ok(cell)
      else
        var policy := json.decodePolicy(v.bytes, cell.policy);
        if policy.None? then Err(BadJson(c)) else Ok(PolicyC(policy.value))
  }

  // The entity has the field for the column, at its type.
  ghost predicate HasField(f: Fields, c: Column) {
    ColumnKind(c) != UnknownK ==> c in f && KindOf(f[c]) == ColumnKind(c)
  }

  function Assign(e: Filled, c: Column, v: Scanned, json: Json): Result<Filled, AssignError>
    requires HasField(e.fields, c)
  {
    if ColumnKind(c) == UnknownK then Ok(e.(selected := e.selected[c := v]))
    else
      match AssignCell(e.fields[c], c, v, json)
      case Err(error) => Err(error)
      case Ok(cell) => Ok(e.(fields := e.fields[c := cell]))
  }

  // An entity has all its fields, at their types.
  ghost predicate IsEntity(f: Fields) {
    WellTyped(f) && forall c :: c in f <==> ColumnKind(c) != UnknownK
  }

  lemma AssignCellKind(cell: Cell, c: Column, v: Scanned, json: Json)
    requires KindOf(cell) == ColumnKind(c)
    ensures AssignCell(cell, c, v, json).Ok? ==> KindOf(AssignCell(cell, c, v, json).value) == ColumnKind(c)
  {
  }

  lemma AssignKeepsEntity(e: Filled, c: Column, v: Scanned, json: Json)
    requires IsEntity(e.fields)
    ensures HasField(e.fields, c)
    ensures Assign(e, c, v, json).Ok? ==> IsEntity(Assign(e, c, v, json).value.fields)
  {
    hide AssignCell, ColumnKind, KindOf;
    if ColumnKind(c) != UnknownK {
      AssignCellKind(e.fields[c], c, v, json);
    }
  }

  function AssignAll(e: Filled, columns: seq<Column>, values: seq<Scanned>, json: Json): Result<Filled, AssignError>
    requires IsEntity(e.fields) && |columns| <= |values|
    decreases |columns|
  {
    if columns == [] then Ok(e)
    else
      AssignKeepsEntity(e, columns[0], values[0], json);
      match Assign(e, columns[0], values[0], json)
      case Err(error) => Err(error)
      case Ok(next) => AssignAll(next, columns[1..], values[1..], json)
  }

  function AssignValues(e: Filled, columns: seq<Column>, values: seq<Scanned>, json: Json): Result<Filled, AssignError>
    requires IsEntity(e.fields)
  {
    if |values| < |columns| then Err(TooFewValues) else AssignAll(e, columns, values, json)
  }

  // Too few values is reported exactly for fewer values than columns, whatever the values.
  lemma TooFew(e: Filled, columns: seq<Column>, values: seq<Scanned>, json: Json)
    requires IsEntity(e.fields)
    ensures AssignValues(e, columns, values, json) == Err(TooFewValues) <==> |values| < |columns|
  {
    if |values| >= |columns| {
      EnoughValues(e, columns, values, json);
    }
  }

  lemma {:induction false} EnoughValues(e: Filled, columns: seq<Column>, values: seq<Scanned>, json: Json)
    requires IsEntity(e.fields) && |columns| <= |values|
    ensures AssignAll(e, columns, values, json) != Err(TooFewValues)
    decreases |columns|
  {
    if columns != [] {
      AssignKeepsEntity(e, columns[0], values[0], json);
      if Assign(e, columns[0], values[0], json).Ok? {
        EnoughValues(Assign(e, columns[0], values[0], json).value, columns[1..], values[1..], json);
      }
    }
  }

  // ----- scanning and assigning agree -----

  // The values are what the driver scanned into the destinations prepared for the columns.
  ghost predicate ScannedFor(columns: seq<Column>, values: seq<Scanned>, stored: seq<Value>) {
    && |values| == |columns| == |stored|
    && forall i | 0 <= i < |columns| :: Scan(DestOf(columns[i]), stored[i]) == Some(values[i])
  }

  // A scan into the destinations prepared for the columns never has the wrong type.
  lemma {:induction false} NeverUnexpectedType(e: Filled, columns: seq<Column>, values: seq<Scanned>,
                                               stored: seq<Value>, json: Json)
    requires IsEntity(e.fields) && ScannedFor(columns, values, stored)
    ensures var r := AssignValues(e, columns, values, json); r.Err? ==> r.error.BadJson?
    decreases |columns|
  {
    if columns != [] {
      assert Scan(DestOf(columns[0]), stored[0]) == Some(values[0]);
      AssignKeepsEntity(e, columns[0], values[0], json);
      match Assign(e, columns[0], values[0], json) {
        case Err(_) =>
        case Ok(next) =>
          NeverUnexpectedType(next, columns[1..], values[1..], stored[1..], json);
      }
    }
  }

  // ----- repeated, absent and NULL columns -----

  // A scanned value that assigns something: NULL does not, except to a UUID.
  predicate Effective(v: Scanned) {
    match v
    case ScannedBytes(b) => b != []
    case ScannedBool(b) => b.Some?
    case ScannedInt(n) => n.Some?
    case ScannedText(s) => s.Some?
    case ScannedTime(t) => t.Some?
    case _ => true
  }

  // The last position at which the column assigns something, or -1.
  function LastEffective(columns: seq<Column>, values: seq<Scanned>, c: Column): (k: int)
    requires |columns| <= |values|
    ensures -1 <= k < |columns|
    ensures k >= 0 ==> columns[k] == c && Effective(values[k])
    ensures forall j | k < j < |columns| :: columns[j] == c ==> !Effective(values[j])
  {
    if columns == [] then -1
    else
      var k := LastEffective(columns[1..], values[1..], c);
      if k >= 0 then k + 1 else if columns[0] == c && Effective(values[0]) then 0 else -1
  }

  function Plain(v: Scanned): Cell
    requires Effective(v) && !v.ScannedBytes? && !v.ScannedAny?
  {
    match v
    case ScannedBool(b) => BoolC(b.value)
    case ScannedInt(n) => IntC(n.value)
    case ScannedText(s) => TextC(s.value)
    case ScannedTime(t) => TimeC(t.value)
    case ScannedUuid(u) => UuidC(u)
  }

  // A value that assigns nothing leaves the field; outside the JSON columns any other is what the field then holds.
  lemma AssignCellIs(cell: Cell, c: Column, v: Scanned, json: Json)
    requires KindOf(cell) == ColumnKind(c) && AssignCell(cell, c, v, json).Ok?
    ensures !Effective(v) ==> AssignCell(cell, c, v, json) == Ok(cell)
    ensures Effective(v) && c != Config && c != ApprovalPolicy ==>
              !v.ScannedBytes? && !v.ScannedAny? && AssignCell(cell, c, v, json) == Ok(Plain(v))
  {
  }

  lemma EntityFields(f: Fields)
    requires IsEntity(f)
    ensures forall c :: c in f <==> ColumnKind(c) != UnknownK
  {
  }

  // What assigning a column list leaves in a field: the value it had, or what the last value that assigns something
  // makes of what the columns before it left.
  lemma {:induction false} AssignLast(e: Filled, columns: seq<Column>, values: seq<Scanned>, json: Json, c: Column)
    requires IsEntity(e.fields) && |columns| <= |values| && AssignAll(e, columns, values, json).Ok? && c in e.fields
    ensures var r := AssignAll(e, columns, values, json).value;
            var k := LastEffective(columns, values, c);
            && c in r.fields
            && (k < 0 ==> r.fields[c] == e.fields[c])
            && (k >= 0 ==>
                  && AssignAll(e, columns[..k], values, json).Ok?
                  && var before := AssignAll(e, columns[..k], values, json).value.fields;
                     && c in before && KindOf(before[c]) == ColumnKind(c)
                     && AssignCell(before[c], c, values[k], json) == Ok(r.fields[c]))
    decreases |columns|
  {
    hide AssignCell, IsEntity, HasField, Effective, ColumnKind, KindOf;
    if columns != [] {
      AssignFirst(e, columns[0], values[0], json, c);
      var next := Assign(e, columns[0], values[0], json).value;
      AssignLast(next, columns[1..], values[1..], json, c);
      var k := LastEffective(columns[1..], values[1..], c);
      if k >= 0 {
        assert columns[..k + 1][0] == columns[0] && columns[..k + 1][1..] == columns[1..][..k];
      }
    }
  }

  // One column, as seen from one field.
  lemma AssignFirst(e: Filled, d: Column, v: Scanned, json: Json, c: Column)
    requires IsEntity(e.fields) && c in e.fields
    ensures HasField(e.fields, d) && KindOf(e.fields[c]) == ColumnKind(c)
    ensures Assign(e, d, v, json).Ok? ==>
              var next := Assign(e, d, v, json).value;
              && IsEntity(next.fields) && c in next.fields
              && (d == c ==> AssignCell(e.fields[c], c, v, json) == Ok(next.fields[c]))
              && (d != c || !Effective(v) ==> next.fields[c] == e.fields[c])
  {
    hide AssignCell, IsEntity, HasField, ColumnKind, KindOf, Effective;
    AssignKeepsEntity(e, d, v, json);
    EntityFields(e.fields);
    FieldKinds(e, c);
    FieldKinds(e, d);
    if d == c && Assign(e, d, v, json).Ok? {
      AssignCellIs(e.fields[c], c, v, json);
    }
  }

  // Outside the JSON columns that is the last value itself.
  lemma AssignLastPlain(e: Filled, columns: seq<Column>, values: seq<Scanned>, json: Json, c: Column)
    requires IsEntity(e.fields) && |columns| <= |values| && AssignAll(e, columns, values, json).Ok? && c in e.fields
    requires c != Config && c != ApprovalPolicy && LastEffective(columns, values, c) >= 0
    ensures var r := AssignAll(e, columns, values, json).value;
            var v := values[LastEffective(columns, values, c)];
            c in r.fields && !v.ScannedBytes? && !v.ScannedAny? && r.fields[c] == Plain(v)
  {
    hide AssignCell, IsEntity, HasField, Effective, Plain, ColumnKind, KindOf;
    AssignLast(e, columns, values, json, c);
    var k := LastEffective(columns, values, c);
    AssignCellIs(AssignAll(e, columns[..k], values, json).value.fields[c], c, values[k], json);
  }

  lemma FieldKinds(e: Filled, c: Column)
    requires IsEntity(e.fields)
    ensures HasField(e.fields, c)
    ensures c in e.fields ==> ColumnKind(c) != UnknownK && KindOf(e.fields[c]) == ColumnKind(c)
  {
  }

  // Columns without a field go to the selected values, and only they do.
  lemma {:induction false} AssignSelected(e: Filled, columns: seq<Column>, values: seq<Scanned>, json: Json, c: Column)
    requires IsEntity(e.fields) && |columns| <= |values| && AssignAll(e, columns, values, json).Ok?
    ensures IsEntity(AssignAll(e, columns, values, json).value.fields)
    ensures (c in AssignAll(e, columns, values, json).value.selected) <==>
      c in e.selected || (ColumnKind(c) == UnknownK && c in columns)
    decreases |columns|
  {
    hide IsEntity;
    if columns != [] {
      assert c in columns <==> c == columns[0] || c in columns[1..];
      AssignKeepsEntity(e, columns[0], values[0], json);
      AssignSelected(Assign(e, columns[0], values[0], json).value, columns[1..], values[1..], json, c);
    }
  }

  // ----- the round trip -----

  lemma {:induction false} FieldInSet(f: Fields, columns: seq<Column>, c: Column)
    ensures FieldIn(SetFields(f, columns), c) == if c in columns && c in f then Some(f[c]) else None
  {
    if columns != [] {
      assert c in columns <==> c == columns[0] || c in columns[1..];
      FieldInSet(f, columns[1..], c);
      assert columns[0] in f ==> SetFields(f, columns)[1..] == SetFields(f, columns[1..]);
    }
  }

  lemma {:induction false} EdgeInSet(f: Fields, columns: seq<Column>, c: Column)
    ensures EdgeIn(SetEdges(f, columns), c) == if c in columns && c in f then Some(f[c]) else None
  {
    if columns != [] {
      assert c in columns <==> c == columns[0] || c in columns[1..];
      EdgeInSet(f, columns[1..], c);
      assert columns[0] in f ==> SetEdges(f, columns)[1..] == SetEdges(f, columns[1..]);
    }
  }

  // The columns with a type.
  lemma TypedColumns(c: Column)
    ensures (ColumnKind(c) != UnknownK && ColumnKind(c) != UuidK) <==>
      (|| c == Name || c == Type || c == Config || c == Ordinal || c == ContinueOnFailure || c == RequiresApproval
       || c == ApprovalPolicy || c == TargetNamespace || c == CreatedAt || c == UpdatedAt)
    ensures ColumnKind(c) == UuidK <==>
      (|| c == Id || c == OrganizationId || c == ApplicationId || c == TargetClusterId || c == ChartCredentialId
       || c == GithubInstallationId || c == StageId)
  {
    match ColumnKind(c)
    case UuidK =>
    case TextK =>
    case IntK =>
    case BoolK =>
    case TimeK =>
    case ConfigK =>
    case PolicyK =>
    case UnknownK =>
  }

  // The columns of the table are those with a type.
  lemma ColumnsAre(c: Column)
    ensures c in COMPONENT_COLUMNS <==> ColumnKind(c) != UnknownK
  {
    hide ColumnKind;
    TypedColumns(c);
    assert c in COMPONENT_COLUMNS <==>
      || c == Id || c == OrganizationId || c == ApplicationId || c == Name || c == Type || c == Config
      || c == StageId || c == Ordinal || c == ContinueOnFailure || c == RequiresApproval || c == ApprovalPolicy
      || c == TargetClusterId || c == TargetNamespace || c == ChartCredentialId || c == GithubInstallationId
      || c == CreatedAt || c == UpdatedAt;
  }

  lemma FieldColumnsAre(c: Column)
    ensures c in FIELD_COLUMNS <==> ColumnKind(c) != UnknownK && ColumnKind(c) != UuidK
  {
    hide ColumnKind;
    TypedColumns(c);
    assert c in FIELD_COLUMNS <==>
      || c == Name || c == Type || c == Config || c == Ordinal || c == ContinueOnFailure || c == RequiresApproval
      || c == ApprovalPolicy || c == TargetNamespace || c == CreatedAt || c == UpdatedAt;
  }

  lemma EdgeColumnsAre(c: Column)
    ensures c in EDGE_COLUMNS <==> ColumnKind(c) == UuidK && c != Id
  {
    hide ColumnKind;
    TypedColumns(c);
    assert c in EDGE_COLUMNS <==>
      || c == OrganizationId || c == ApplicationId || c == TargetClusterId || c == ChartCredentialId
      || c == GithubInstallationId || c == StageId;
  }

  // The specification carries exactly the fields set.
  lemma SpecCarries(f: Fields, c: Column)
    requires ColumnKind(c) != UnknownK
    ensures CellIn(SpecOf(f), c) == if c in f then Some(f[c]) else None
  {
    hide COMPONENT_COLUMNS, FIELD_COLUMNS, EDGE_COLUMNS, ColumnKind, SetFields, SetEdges, FieldIn, EdgeIn;
    FieldColumnsAre(c);
    EdgeColumnsAre(c);
    FieldInSet(f, FIELD_COLUMNS, c);
    EdgeInSet(f, EDGE_COLUMNS, c);
  }

  // A column of the row, and the field of the entity that creation returned.
  lemma ColumnHolds(f: Fields, json: Json, unset: map<Column, Value>, c: Column)
    requires ColumnKind(c) != UnknownK
    ensures var row := RowOf(SpecOf(f), json, unset);
            c in row && row[c] == if c in f then Stored(f[c], json) else Unset(c, unset)
    ensures c in NodeOf(f) && NodeOf(f)[c] == if c in f then f[c] else ZeroCell(ColumnKind(c))
  {
    hide COMPONENT_COLUMNS, SpecOf, CellIn, Stored, ColumnKind, ZeroCell, Unset;
    ColumnsAre(c);
    SpecCarries(f, c);
  }

  // The entity that creation returns, value by value.
  lemma NodeIs(f: Fields, c: Column)
    ensures c in NodeOf(f) <==> c in COMPONENT_COLUMNS
    ensures c in NodeOf(f) && c in f ==> NodeOf(f)[c] == f[c]
    ensures c in NodeOf(f) && c !in f ==>
              NodeOf(f)[c] ==
                match c
                case Name | Type | TargetNamespace => TextC("")
                case Ordinal => IntC(0)
                case ContinueOnFailure | RequiresApproval => BoolC(false)
                case CreatedAt | UpdatedAt => TimeC(0)
                case Config => ConfigC(None)
                case ApprovalPolicy => PolicyC(Approval(None, 0, false, 0))
                case _ => UuidC(0)
  {
    hide COMPONENT_COLUMNS;
    ColumnsAre(c);
  }

  // The stored row, value by value: what was set under its own type, and what the table puts there for the rest.
  lemma RowIs(f: Fields, json: Json, unset: map<Column, Value>, c: Column)
    requires ColumnKind(c) != UnknownK
    ensures var row := RowOf(SpecOf(f), json, unset);
            && c in row
            && (c !in f ==> row[c] == if c in unset then unset[c] else Null)
            && (c in f ==>
                  row[c] ==
                    match f[c]
                    case UuidC(u) => UuidV(u)
                    case TextC(s) => Text(s)
                    case IntC(n) => IntV(n)
                    case BoolC(b) => BoolV(b)
                    case TimeC(t) => TimeV(t)
                    case ConfigC(v) => Bytes(json.encodeConfig(v))
                    case PolicyC(v) => Bytes(json.encodePolicy(v)))
  {
    hide RowOf, SpecOf, COMPONENT_COLUMNS;
    ColumnHolds(f, json, unset, c);
  }

  lemma ZeroKind(c: Column)
    requires ColumnKind(c) != UnknownK
    ensures KindOf(ZeroCell(ColumnKind(c))) == ColumnKind(c)
  {
  }

  // What a new entity's field holds after the stored value is read into it; None when the value has the wrong type.
  function ReadNew(c: Column, stored: Value, json: Json): Option<Result<Cell, AssignError>>
    requires ColumnKind(c) != UnknownK
  {
    ZeroKind(c);
    match Scan(DestOf(c), stored)
    case None => None
    case Some(v) => Some(AssignCell(ZeroCell(ColumnKind(c)), c, v, json))
  }

  // The field after it was stored and read.
  function Reread(cell: Cell): Cell {
    match cell
    case PolicyC(v) => PolicyC(Omitting(v))
    case _ => cell
  }

  // What was stored reads as itself, except for an empty list of approvers.
  lemma StoredReads(c: Column, cell: Cell, json: Json)
    requires RoundTrips(json) && ColumnKind(c) != UnknownK && KindOf(cell) == ColumnKind(c)
    ensures ReadNew(c, Stored(cell, json), json) == Some(Ok(Reread(cell)))
  {
    match ColumnKind(c)
    case UuidK =>
    case TextK =>
    case IntK =>
    case BoolK =>
    case TimeK =>
    case ConfigK =>
    case PolicyK =>
  }

  // NULL reads as the zero value.
  lemma NullReads(c: Column, json: Json)
    requires ColumnKind(c) != UnknownK
    ensures ReadNew(c, Null, json) == Some(Ok(ZeroCell(ColumnKind(c))))
  {
  }

  // Reading a value again changes nothing.
  lemma ReadAgain(c: Column, stored: Value, v: Scanned, cell: Cell, json: Json)
    requires RoundTrips(json) && ColumnKind(c) != UnknownK && Scan(DestOf(c), stored) == Some(v)
    requires ReadNew(c, stored, json) == Some(Ok(cell))
    ensures KindOf(cell) == ColumnKind(c) && AssignCell(cell, c, v, json) == Ok(cell)
  {
    ZeroKind(c);
    AssignCellKind(ZeroCell(ColumnKind(c)), c, v, json);
    match ColumnKind(c)
    case UuidK =>
    case TextK =>
    case IntK =>
    case BoolK =>
    case TimeK =>
    case ConfigK =>
    case PolicyK =>
  }

  // The row has every column of the table.
  ghost predicate FullRow(row: Row) {
    forall c | ColumnKind(c) != UnknownK :: c in row
  }

  // What has been read so far: the row in the columns read, zero in the others.
  ghost predicate Reading(row: Row, e: Filled, read: set<Column>, json: Json)
    requires FullRow(row)
  {
    && IsEntity(e.fields)
    && forall c | ColumnKind(c) != UnknownK && c in e.fields ::
         if c in read then ReadNew(c, row[c], json) == Some(Ok(e.fields[c])) else e.fields[c] == ZeroCell(ColumnKind(c))
  }

  // The stored values are those of the row, in the columns that the row has.
  ghost predicate FromRow(row: Row, columns: seq<Column>, stored: seq<Value>) {
    |stored| == |columns| && forall i | 0 <= i < |columns| && columns[i] in row :: stored[i] == row[columns[i]]
  }

  ghost predicate Readable(row: Row, c: Column, json: Json)
    requires FullRow(row)
  {
    ColumnKind(c) != UnknownK ==> ReadNew(c, row[c], json).Some? && ReadNew(c, row[c], json).value.Ok?
  }

  lemma ReadStep(row: Row, e: Filled, read: set<Column>, c: Column, v: Scanned, stored: Value, json: Json)
    requires RoundTrips(json) && FullRow(row) && Reading(row, e, read, json)
    requires Scan(DestOf(c), stored) == Some(v) && (c in row ==> stored == row[c])
    ensures HasField(e.fields, c)
    ensures var r := Assign(e, c, v, json);
            && (r.Ok? <==> Readable(row, c, json))
            && (r.Ok? ==> Reading(row, r.value, read + {c}, json))
  {
    hide AssignCell, Scan, ZeroCell, RoundTrips, DestOf, ColumnKind, KindOf;
    AssignKeepsEntity(e, c, v, json);
    EntityFields(e.fields);
    if ColumnKind(c) != UnknownK {
      ZeroKind(c);
      if c in read {
        ReadAgain(c, row[c], v, e.fields[c], json);
      }
    }
  }

  // Reading a row succeeds exactly when every column does, and each field then holds its column.
  lemma {:induction false} ReadColumns(row: Row, e: Filled, read: set<Column>, columns: seq<Column>, values: seq<Scanned>,
                                       stored: seq<Value>, json: Json)
    requires RoundTrips(json) && FullRow(row) && Reading(row, e, read, json)
    requires ScannedFor(columns, values, stored) && FromRow(row, columns, stored)
    ensures var r := AssignAll(e, columns, values, json);
            && (r.Ok? <==> forall c | c in columns :: Readable(row, c, json))
            && (r.Ok? ==> Reading(row, r.value, read + (set c | c in columns), json))
    decreases |columns|
  {
    hide Assign, Scan, RoundTrips, DestOf, Readable, Reading, HasField;
    ReadingEntity(row, e, read, json);
    if columns == [] {
      assert read + (set c | c in columns) == read;
    } else {
      var c := columns[0];
      assert Scan(DestOf(columns[0]), stored[0]) == Some(values[0]);
      ReadStep(row, e, read, c, values[0], stored[0], json);
      assert forall d :: d in columns <==> d == c || d in columns[1..];
      if Readable(row, c, json) {
        var next := Assign(e, c, values[0], json).value;
        ReadColumns(row, next, read + {c}, columns[1..], values[1..], stored[1..], json);
        assert read + {c} + (set d | d in columns[1..]) == read + set d | d in columns;
      }
    }
  }

  lemma ReadingEntity(row: Row, e: Filled, read: set<Column>, json: Json)
    requires FullRow(row) && Reading(row, e, read, json)
    ensures IsEntity(e.fields)
  {
  }

  // A new entity: every field at its zero value.
  const EMPTY: Filled := Filled(NodeOf(map[]), map[])

  lemma EmptyIsEntity(row: Row, json: Json)
    requires FullRow(row)
    ensures IsEntity(EMPTY.fields) && Reading(row, EMPTY, {}, json)
  {
    hide COMPONENT_COLUMNS;
    forall c ensures c in COMPONENT_COLUMNS <==> ColumnKind(c) != UnknownK {
      ColumnsAre(c);
    }
  }

  lemma NodeColumns(f: Fields)
    ensures forall c :: c in NodeOf(f) <==> ColumnKind(c) != UnknownK
  {
    hide COMPONENT_COLUMNS, ColumnKind, ZeroCell;
    forall c ensures c in NodeOf(f) <==> ColumnKind(c) != UnknownK {
      ColumnsAre(c);
    }
  }

  lemma RowIsFull(f: Fields, json: Json, unset: map<Column, Value>)
    ensures FullRow(RowOf(SpecOf(f), json, unset))
  {
    hide RowOf, SpecOf, ColumnKind, NodeOf;
    forall c | ColumnKind(c) != UnknownK ensures c in RowOf(SpecOf(f), json, unset) {
      ColumnHolds(f, json, unset, c);
    }
  }

  // What the table puts in the column of an unset field reads as that field's zero value.
  ghost predicate ReadsZero(c: Column, stored: Value, json: Json)
    requires ColumnKind(c) != UnknownK
  {
    ReadNew(c, stored, json) == Some(Ok(ZeroCell(ColumnKind(c))))
  }

  // A policy that was set has no empty list of approvers.
  predicate KeepsApprovers(f: Fields) {
    ApprovalPolicy in f && f[ApprovalPolicy].PolicyC? ==> f[ApprovalPolicy].policy.approvers != Some([])
  }

  // Scanning the row of what was created and assigning the values gives the entity that creation returned,
  // for every column list that has the columns of the table, in any order, with repeats and with columns of other
  // origin, exactly when what the table puts in every unset column reads as the zero value and no policy was set
  // with an empty list of approvers.
  lemma CreateReadRoundTrip(f: Fields, unset: map<Column, Value>, columns: seq<Column>, values: seq<Scanned>,
                            stored: seq<Value>, json: Json)
    requires WellTyped(f) && RoundTrips(json)
    requires forall c | ColumnKind(c) != UnknownK :: c in columns
    requires ScannedFor(columns, values, stored) && FromRow(RowOf(SpecOf(f), json, unset), columns, stored)
    ensures IsEntity(EMPTY.fields)
    ensures var r := AssignValues(EMPTY, columns, values, json);
            r.Ok? && r.value.fields == NodeOf(f) <==>
              && KeepsApprovers(f)
              && forall c | ColumnKind(c) != UnknownK && c !in f :: ReadsZero(c, Unset(c, unset), json)
  {
    hide RowOf, NodeOf, SpecOf, AssignAll, Scan, ZeroCell, Reading, ReadNew, Unset, FullRow, Readable;
    hide RoundTrips, DestOf, ColumnKind, KindOf, EMPTY, IsEntity, Stored;
    var row := RowOf(SpecOf(f), json, unset);
    RowIsFull(f, json, unset);
    EmptyIsEntity(row, json);
    ReadColumns(row, EMPTY, {}, columns, values, stored, json);
    NodeColumns(f);
    var r := AssignAll(EMPTY, columns, values, json);
    forall c | ColumnKind(c) != UnknownK
      ensures c in NodeOf(f) && Readable(row, c, json) == CellReadable(f, c, unset, json)
      ensures r.Ok? ==> c in r.value.fields && (r.value.fields[c] == NodeOf(f)[c] <==> ReadsAsSet(f, c, unset, json))
    {
      ReadBack(f, unset, c, json);
      if r.Ok? {
        ReadingAt(row, r.value, {} + (set d | d in columns), c, json);
      }
    }
    if r.Ok? {
      ReadingEntity(row, r.value, {} + (set c | c in columns), json);
      EntityFields(r.value.fields);
      assert r.value.fields == NodeOf(f) <==> forall c | ColumnKind(c) != UnknownK :: r.value.fields[c] == NodeOf(f)[c];
    }
    forall c | ColumnKind(c) == UnknownK ensures Readable(row, c, json) {
      UnknownReadable(row, c, json);
    }
    if forall c | ColumnKind(c) != UnknownK && c !in f :: ReadsZero(c, Unset(c, unset), json) {
      assert forall c | c in columns :: Readable(row, c, json);
    }
    SetReads(f, unset, json);
  }

  // The field reads back as it was created.
  ghost predicate ReadsAsSet(f: Fields, c: Column, unset: map<Column, Value>, json: Json)
    requires ColumnKind(c) != UnknownK
  {
    if c in f then Reread(f[c]) == f[c] else ReadsZero(c, Unset(c, unset), json)
  }

  lemma SetReads(f: Fields, unset: map<Column, Value>, json: Json)
    requires WellTyped(f)
    ensures (forall c | ColumnKind(c) != UnknownK :: ReadsAsSet(f, c, unset, json)) <==>
              && KeepsApprovers(f)
              && forall c | ColumnKind(c) != UnknownK && c !in f :: ReadsZero(c, Unset(c, unset), json)
  {
    hide ReadsZero, Unset;
    forall c | c in f ensures Reread(f[c]) == f[c] <==> c != ApprovalPolicy || KeepsApprovers(f) {
      PolicyColumn(f, c);
    }
    if ApprovalPolicy in f && forall c | ColumnKind(c) != UnknownK :: ReadsAsSet(f, c, unset, json) {
      assert ReadsAsSet(f, ApprovalPolicy, unset, json);
    }
  }

  lemma PolicyColumn(f: Fields, c: Column)
    requires WellTyped(f) && c in f
    ensures Reread(f[c]) == f[c] <==> c != ApprovalPolicy || KeepsApprovers(f)
  {
    assert KindOf(f[c]) == ColumnKind(c);
  }

  // A column can be read when it was set, or when what the table put there can.
  ghost predicate CellReadable(f: Fields, c: Column, unset: map<Column, Value>, json: Json)
    requires ColumnKind(c) != UnknownK
  {
    c in f || (ReadNew(c, Unset(c, unset), json).Some? && ReadNew(c, Unset(c, unset), json).value.Ok?)
  }

  lemma UnknownReadable(row: Row, c: Column, json: Json)
    requires FullRow(row) && ColumnKind(c) == UnknownK
    ensures Readable(row, c, json)
  {
  }

  lemma ReadBack(f: Fields, unset: map<Column, Value>, c: Column, json: Json)
    requires WellTyped(f) && RoundTrips(json) && ColumnKind(c) != UnknownK
    ensures FullRow(RowOf(SpecOf(f), json, unset)) && c in NodeOf(f)
    ensures var row := RowOf(SpecOf(f), json, unset);
            && Readable(row, c, json) == CellReadable(f, c, unset, json)
            && (ReadNew(c, row[c], json) == Some(Ok(NodeOf(f)[c])) <==> ReadsAsSet(f, c, unset, json))
  {
    hide RowOf, NodeOf, SpecOf, ReadNew, Unset, RoundTrips, ZeroCell, Stored, ColumnKind, KindOf, Reread;
    RowIsFull(f, json, unset);
    ColumnHolds(f, json, unset, c);
    if c in f {
      StoredReads(c, f[c], json);
    }
  }

  lemma ReadingAt(row: Row, e: Filled, read: set<Column>, c: Column, json: Json)
    requires FullRow(row) && Reading(row, e, read, json) && ColumnKind(c) != UnknownK && c in read
    ensures c in e.fields && ReadNew(c, row[c], json) == Some(Ok(e.fields[c]))
  {
  }

  // The keys by which a read component is joined are those of the columns fetched, NULL and an absent column reading as
  // zero: the loaders may take them from the row.
  lemma KeyRead(row: Row, columns: seq<Column>, values: seq<Scanned>, stored: seq<Value>, c: Column, json: Json)
    requires FullRow(row) && RoundTrips(json) && ColumnKind(c) == UuidK
    requires ScannedFor(columns, values, stored) && FromRow(row, columns, stored)
    ensures IsEntity(EMPTY.fields)
    ensures var r := AssignValues(EMPTY, columns, values, json);
            r.Ok? ==>
              c in r.value.fields
              && r.value.fields[c] == UuidC(ReadUuid(map d | d in row && d in columns :: row[d], c))
  {
    hide AssignAll, RoundTrips, Reading, Readable, ReadNew, IsEntity, FullRow, EMPTY, FromRow, Scan;
    EmptyIsEntity(row, json);
    ReadColumns(row, EMPTY, {}, columns, values, stored, json);
    var r := AssignAll(EMPTY, columns, values, json);
    if r.Ok? {
      UuidField(row, r.value, {} + (set d | d in columns), c, json);
    }
  }

  lemma UuidField(row: Row, e: Filled, read: set<Column>, c: Column, json: Json)
    requires FullRow(row) && Reading(row, e, read, json) && ColumnKind(c) == UuidK
    ensures c in row && c in e.fields && e.fields[c] == UuidC(if c in read then ReadUuid(row, c) else ZERO_UUID)
  {
    assert c in row && c in e.fields;
    assert ReadUuid(row, c) == if row[c].UuidV? then row[c].uuid else ZERO_UUID;
  }

  // ----- the table as the migrations make it -----

  // The column defaults of the components table; the columns without one hold NULL when unset.
  const TABLE_DEFAULTS: map<Column, Value> := map[
    Type := Text("helm"), Config := Bytes("{}"), Ordinal := IntV(0), ContinueOnFailure := BoolV(false),
    RequiresApproval := BoolV(false), ApprovalPolicy := Bytes("{}"), TargetNamespace := Text("")]

  // An empty JSON object decodes to an empty map, and to a policy that says nothing.
  ghost predicate EmptyObjects(json: Json) {
    json.decodeConfig("{}", None) == Some(Some(map[])) && json.decodePolicy("{}", NO_POLICY) == Some(NO_POLICY)
  }

  // Of the columns with a default, an unset type and an unset configuration alone do not read as zero.
  lemma DefaultReads(c: Column, json: Json)
    requires EmptyObjects(json) && ColumnKind(c) != UnknownK
    ensures ReadsZero(c, Unset(c, TABLE_DEFAULTS), json) <==> c != Type && c != Config
  {
    if c !in TABLE_DEFAULTS {
      NullReads(c, json);
    }
  }

  // What a field of a component reads as on that table.
  function MigratedCell(f: Fields, c: Column): Cell
    requires ColumnKind(c) != UnknownK
  {
    if c in f then Reread(f[c])
    else if c == Type then TextC("helm")
    else if c == Config then ConfigC(Some(map[]))
    else ZeroCell(ColumnKind(c))
  }

  lemma MigratedReads(f: Fields, c: Column, json: Json)
    requires WellTyped(f) && RoundTrips(json) && EmptyObjects(json) && ColumnKind(c) != UnknownK
    ensures var row := RowOf(SpecOf(f), json, TABLE_DEFAULTS);
            FullRow(row) && ReadNew(c, row[c], json) == Some(Ok(MigratedCell(f, c)))
  {
    hide RowOf, NodeOf, SpecOf, RoundTrips, ReadNew, FullRow, EmptyObjects, Unset, Stored, ColumnKind, KindOf, TABLE_DEFAULTS;
    hide ZeroCell, Reread;
    var row := RowOf(SpecOf(f), json, TABLE_DEFAULTS);
    RowIsFull(f, json, TABLE_DEFAULTS);
    FullAt(row, c);
    ColumnHolds(f, json, TABLE_DEFAULTS, c);
    if c in f {
      StoredReads(c, f[c], json);
    } else {
      DefaultCells(c, json);
    }
  }

  lemma FullAt(row: Row, c: Column)
    requires FullRow(row) && ColumnKind(c) != UnknownK
    ensures c in row
  {
  }

  lemma DefaultCells(c: Column, json: Json)
    requires EmptyObjects(json) && ColumnKind(c) != UnknownK
    ensures ReadNew(c, Unset(c, TABLE_DEFAULTS), json) == Some(Ok(
              if c == Type then TextC("helm") else if c == Config then ConfigC(Some(map[])) else ZeroCell(ColumnKind(c))))
  {
    if c !in TABLE_DEFAULTS {
      NullReads(c, json);
    }
  }

  // Every component can be read on that table, and this is what is read.
  lemma MigratedRead(f: Fields, columns: seq<Column>, values: seq<Scanned>, stored: seq<Value>, json: Json)
    requires WellTyped(f) && RoundTrips(json) && EmptyObjects(json)
    requires forall c | ColumnKind(c) != UnknownK :: c in columns
    requires ScannedFor(columns, values, stored) && FromRow(RowOf(SpecOf(f), json, TABLE_DEFAULTS), columns, stored)
    ensures IsEntity(EMPTY.fields)
    ensures var r := AssignValues(EMPTY, columns, values, json);
            r.Ok? && forall c | ColumnKind(c) != UnknownK :: c in r.value.fields && r.value.fields[c] == MigratedCell(f, c)
  {
    hide RowOf, SpecOf, AssignAll, Scan, RoundTrips, WellTyped, EMPTY, EmptyObjects, FromRow, IsEntity, Reading, ReadNew;
    hide ColumnKind, FullRow, Readable, MigratedCell, TABLE_DEFAULTS;
    var row := RowOf(SpecOf(f), json, TABLE_DEFAULTS);
    RowIsFull(f, json, TABLE_DEFAULTS);
    EmptyIsEntity(row, json);
    ReadColumns(row, EMPTY, {}, columns, values, stored, json);
    forall c | c in columns ensures Readable(row, c, json) {
      MigratedReadable(f, c, json);
    }
    var r := AssignAll(EMPTY, columns, values, json).value;
    forall c | ColumnKind(c) != UnknownK ensures c in r.fields && r.fields[c] == MigratedCell(f, c) {
      MigratedReads(f, c, json);
      ReadingAt(row, r, {} + (set d | d in columns), c, json);
    }
  }

  lemma MigratedReadable(f: Fields, c: Column, json: Json)
    requires WellTyped(f) && RoundTrips(json) && EmptyObjects(json)
    ensures FullRow(RowOf(SpecOf(f), json, TABLE_DEFAULTS)) && Readable(RowOf(SpecOf(f), json, TABLE_DEFAULTS), c, json)
  {
    hide RowOf, SpecOf, RoundTrips, WellTyped, EmptyObjects, ReadNew, ColumnKind, FullRow, MigratedCell, TABLE_DEFAULTS;
    RowIsFull(f, json, TABLE_DEFAULTS);
    if ColumnKind(c) != UnknownK {
      MigratedReads(f, c, json);
    }
  }

  // On that table a component that passed its check reads back as it was returned exactly when its configuration
  // was set and it has no policy with an empty list of approvers. An unset configuration is nil in the entity returned
  // and empty in the entity read; an empty list of approvers is empty in the one and nil in the other.
  lemma MigratedRoundTrip(f: Fields, columns: seq<Column>, values: seq<Scanned>, stored: seq<Value>, json: Json)
    requires WellTyped(f) && RoundTrips(json) && EmptyObjects(json) && Check(f).None?
    requires forall c | ColumnKind(c) != UnknownK :: c in columns
    requires ScannedFor(columns, values, stored) && FromRow(RowOf(SpecOf(f), json, TABLE_DEFAULTS), columns, stored)
    ensures IsEntity(EMPTY.fields)
    ensures var r := AssignValues(EMPTY, columns, values, json);
            r.Ok? && r.value.fields == NodeOf(f) <==> Config in f && KeepsApprovers(f)
  {
    hide RowOf, NodeOf, SpecOf, AssignValues, Scan, ReadsZero, Unset, TABLE_DEFAULTS, RoundTrips, WellTyped, EMPTY, Check;
    hide EmptyObjects, ScannedFor, FromRow, IsEntity, ColumnKind, KeepsApprovers;
    CreateReadRoundTrip(f, TABLE_DEFAULTS, columns, values, stored, json);
    CheckPasses(f);
    assert REQUIRED[3] == Type;
    assert ColumnKind(Config) != UnknownK && ColumnKind(Type) != UnknownK by { TypedColumns(Config); TypedColumns(Type); }
    forall c | ColumnKind(c) != UnknownK
      ensures ReadsZero(c, Unset(c, TABLE_DEFAULTS), json) <==> c != Type && c != Config
    {
      DefaultReads(c, json);
    }
  }

  // A component saved with its required fields only, as its mutation stands after defaults.
  const BARE_COMPONENT: Fields := map c | c in {
    Id, OrganizationId, ApplicationId, StageId, Name, Type, Ordinal, ContinueOnFailure, RequiresApproval, CreatedAt,
    UpdatedAt} :: BareCell(c)

  function BareCell(c: Column): Cell {
    match c
    case OrganizationId => UuidC(1)
    case ApplicationId => UuidC(2)
    case StageId => UuidC(3)
    case Name => TextC("infra")
    case Type => TextC("terraform")
    case Ordinal => IntC(0)
    case ContinueOnFailure | RequiresApproval => BoolC(false)
    case CreatedAt | UpdatedAt => TimeC(5)
    case _ => UuidC(4)
  }

  // It passes the check, and its configuration is nil when returned and empty when read.
  lemma UnsetConfig(columns: seq<Column>, values: seq<Scanned>, stored: seq<Value>, json: Json)
    requires RoundTrips(json) && EmptyObjects(json)
    requires forall c | ColumnKind(c) != UnknownK :: c in columns
    requires ScannedFor(columns, values, stored)
    requires FromRow(RowOf(SpecOf(BARE_COMPONENT), json, TABLE_DEFAULTS), columns, stored)
    ensures WellTyped(BARE_COMPONENT) && Check(BARE_COMPONENT).None? && IsEntity(EMPTY.fields)
    ensures Config in NodeOf(BARE_COMPONENT) && NodeOf(BARE_COMPONENT)[Config] == ConfigC(None)
    ensures var r := AssignValues(EMPTY, columns, values, json);
            r.Ok? && Config in r.value.fields && r.value.fields[Config] == ConfigC(Some(map[]))
  {
    hide RowOf, NodeOf, SpecOf, AssignValues, RoundTrips, EMPTY, Check, FromRow, IsEntity, BARE_COMPONENT, EmptyObjects, ScannedFor;
    BareChecks();
    MigratedRead(BARE_COMPONENT, columns, values, stored, json);
    ColumnHolds(BARE_COMPONENT, json, TABLE_DEFAULTS, Config);
  }

  // The same component with a configuration, and with a policy that has an empty list of approvers.
  const EMPTY_APPROVERS: Fields :=
    BARE_COMPONENT[Config := ConfigC(Some(map[]))][ApprovalPolicy := PolicyC(NO_POLICY.(approvers := Some([])))]

  // It passes the check, and its list of approvers is empty when returned and nil when read.
  lemma EmptyApprovers(columns: seq<Column>, values: seq<Scanned>, stored: seq<Value>, json: Json)
    requires RoundTrips(json) && EmptyObjects(json)
    requires forall c | ColumnKind(c) != UnknownK :: c in columns
    requires ScannedFor(columns, values, stored)
    requires FromRow(RowOf(SpecOf(EMPTY_APPROVERS), json, TABLE_DEFAULTS), columns, stored)
    ensures WellTyped(EMPTY_APPROVERS) && Check(EMPTY_APPROVERS).None? && IsEntity(EMPTY.fields)
    ensures ApprovalPolicy in NodeOf(EMPTY_APPROVERS)
         && NodeOf(EMPTY_APPROVERS)[ApprovalPolicy] == PolicyC(NO_POLICY.(approvers := Some([])))
    ensures var r := AssignValues(EMPTY, columns, values, json);
            r.Ok? && ApprovalPolicy in r.value.fields && r.value.fields[ApprovalPolicy] == PolicyC(NO_POLICY)
  {
    hide RowOf, NodeOf, SpecOf, AssignValues, RoundTrips, EMPTY, Check, FromRow, IsEntity, BARE_COMPONENT, EmptyObjects, ScannedFor;
    ApproversCheck();
    MigratedRead(EMPTY_APPROVERS, columns, values, stored, json);
    ColumnHolds(EMPTY_APPROVERS, json, TABLE_DEFAULTS, ApprovalPolicy);
  }

  lemma ApproversCheck()
    ensures WellTyped(EMPTY_APPROVERS) && Check(EMPTY_APPROVERS).None?
  {
    hide Check, BARE_COMPONENT, ValidValue, REQUIRED;
    BareChecks();
    CheckPasses(BARE_COMPONENT);
    CheckPasses(EMPTY_APPROVERS);
    forall c | c in REQUIRED ensures c in EMPTY_APPROVERS && ValidValue(c, EMPTY_APPROVERS[c]) {
      NotRequired(c);
    }
  }

  lemma NotRequired(c: Column)
    requires c in REQUIRED
    ensures c != Config && c != ApprovalPolicy
  {
  }

  lemma BareChecks()
    ensures WellTyped(BARE_COMPONENT) && Check(BARE_COMPONENT).None? && Config !in BARE_COMPONENT
  {
    hide Check, ValidValue;
    forall c | c in BARE_COMPONENT ensures KindOf(BARE_COMPONENT[c]) == ColumnKind(c) {}
    CheckPasses(BARE_COMPONENT);
    forall c | c in REQUIRED ensures c in BARE_COMPONENT && ValidValue(c, BARE_COMPONENT[c]) {
      hide BARE_COMPONENT;
      BareValid(c);
    }
  }

  lemma BareValid(c: Column)
    requires c in REQUIRED
    ensures c in BARE_COMPONENT && ValidValue(c, BARE_COMPONENT[c])
  {
    assert c in {OrganizationId, ApplicationId, Name, Type, StageId, Ordinal, ContinueOnFailure, RequiresApproval,
                 CreatedAt, UpdatedAt};
  }
}
