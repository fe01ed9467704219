/** The tables as db/migrations leaves them, and the columns and edges of the generated code: each follows from the
  * other. */
module Migrations {
  import opened Schema
  import Codec
  import Upserts

  // ----- columns -----

  // The columns of the CREATE TABLE statements, with those that later migrations add and without those they drop.
  function Columns(table: Table): set<Column> {
    match table
    case Components => {
      Id, OrganizationId, ApplicationId, Name, Type, Config, ContinueOnFailure, TargetClusterId, TargetNamespace,
      ChartCredentialId, GithubInstallationId, CreatedAt, UpdatedAt, RequiresApproval, ApprovalPolicy, StageId, Ordinal}
    case Organizations => {Id, Name, CreatedAt, UpdatedAt}
    case Applications => {
      Id, OrganizationId, Name, RunnerClusterId, CreatedAt, UpdatedAt, Named("imported"), Named("group_id"),
      Named("drift_interval_minutes"), Named("push_trigger"), Named("pr_plans")}
    case Clusters => {
      Id, OrganizationId, Name, Named("connection_method"), Named("endpoint"), Config, Named("encrypted_credentials"),
      Status, Named("status_message"), Named("k8s_version"), Named("last_checked_at"), CreatedAt, UpdatedAt}
    case ChartCredentials => {
      Id, OrganizationId, Name, Named("username"), Named("encrypted_password"), CreatedAt, UpdatedAt}
    case GithubInstallations => {
      Id, OrganizationId, Named("installation_id"), Named("account_login"), Named("account_type"), CreatedAt, UpdatedAt}
    case WorkflowStages => {Id, OrganizationId, ApplicationId, Name, Ordinal, CreatedAt, UpdatedAt}
    case TektonInstallations => {
      Id, ClusterId, Named("enabled"), Status, Named("installed_version"), Named("status_message"), Named("job_id"),
      Named("last_checked_at"), CreatedAt, UpdatedAt, Named("plugin_cache_size"), Named("plugin_cache_storage_class")}
  }

  // A query without selected fields fetches exactly the columns that its table has after all migrations.
  lemma ColumnsMigrated(table: Table, c: Column)
    ensures c in TableColumns(table) <==> c in Columns(table)
  {
    hide TableColumns, Columns;
    match table
    case Components => ComponentsMigrated(c);
    case Organizations => OrganizationsMigrated(c);
    case Applications => ApplicationsMigrated(c);
    case Clusters => ClustersMigrated(c);
    case ChartCredentials => ChartCredentialsMigrated(c);
    case GithubInstallations => GithubInstallationsMigrated(c);
    case WorkflowStages => WorkflowStagesMigrated(c);
    case TektonInstallations => TektonInstallationsMigrated(c);
  }

  lemma ComponentsMigrated(c: Column)
    ensures c in TableColumns(Components) <==> c in Columns(Components)
  {
    hide COMPONENT_COLUMNS, Codec.ColumnKind;
    Codec.ColumnsAre(c);
    Codec.TypedColumns(c);
  }

  lemma OrganizationsMigrated(c: Column)
    ensures c in TableColumns(Organizations) <==> c in Columns(Organizations)
  {
  }

  lemma ApplicationsMigrated(c: Column)
    ensures c in TableColumns(Applications) <==> c in Columns(Applications)
  {
  }

  lemma ClustersMigrated(c: Column)
    ensures c in TableColumns(Clusters) <==> c in Columns(Clusters)
  {
  }

  lemma ChartCredentialsMigrated(c: Column)
    ensures c in TableColumns(ChartCredentials) <==> c in Columns(ChartCredentials)
  {
  }

  lemma GithubInstallationsMigrated(c: Column)
    ensures c in TableColumns(GithubInstallations) <==> c in Columns(GithubInstallations)
  {
  }

  lemma WorkflowStagesMigrated(c: Column)
    ensures c in TableColumns(WorkflowStages) <==> c in Columns(WorkflowStages)
  {
  }

  lemma TektonInstallationsMigrated(c: Column)
    ensures c in TableColumns(TektonInstallations) <==> c in Columns(TektonInstallations)
  {
  }

  const RUNS_CREATED: set<Column> := {
    Id, OrganizationId, WorkflowRunId, ComponentId, Name, Type, Status, Message, RunName, Logs, ChartRevision,
    ValuesRevision, CreatedAt, StartedAt, FinishedAt, UpdatedAt}

  const RUNS_ADDED: set<Column> := {ApprovedBy, ApprovedAt, Outputs, Resources, Approvals, Policy}

  // A builder of component runs can set every column of its table, and no other.
  lemma RunColumnsMigrated()
    ensures Upserts.RUN_COLUMNS == RUNS_CREATED + RUNS_ADDED
  {
  }

  // ----- edges -----

  // The table whose id a column refers to, by the REFERENCES clauses of the migrations.
  function References(table: Table, c: Column): Option<Table> {
    match table
    case Organizations => None
    case Clusters | ChartCredentials | GithubInstallations => if c == OrganizationId then Some(Organizations) else None
    case TektonInstallations => if c == ClusterId then Some(Clusters) else None
    case Applications =>
      if c == OrganizationId then Some(Organizations)
      else if c == RunnerClusterId then Some(Clusters)
      else None
    case WorkflowStages =>
      if c == OrganizationId then Some(Organizations)
      else if c == ApplicationId then Some(Applications)
      else None
    case Components =>
      match c {
        case OrganizationId => Some(Organizations)
        case ApplicationId => Some(Applications)
        case StageId => Some(WorkflowStages)
        case TargetClusterId => Some(Clusters)
        case ChartCredentialId => Some(ChartCredentials)
        case GithubInstallationId => Some(GithubInstallations)
        case _ => None
      }
  }

  // An edge joins its tables on a foreign key, on either side, and the id it refers to.
  lemma EdgeIsKey(e: Edge)
    ensures !KeyOnTarget(e) ==> References(Source(e), OwnColumn(e)) == Some(Target(e)) && FarColumn(e) == Id
    ensures KeyOnTarget(e) ==> References(Target(e), FarColumn(e)) == Some(Source(e)) && OwnColumn(e) == Id
  {
  }

  // Every foreign key is an edge that can be loaded, and no two edges of a table share one.
  lemma KeyIsEdge(table: Table, c: Column) returns (e: Edge)
    requires References(table, c).Some?
    ensures Source(e) == table && !KeyOnTarget(e) && OwnColumn(e) == c && Target(e) == References(table, c).value
    ensures forall f | Source(f) == table && !KeyOnTarget(f) && OwnColumn(f) == c :: f == e
  {
    e :=
      match table
      case Clusters => ClusterOrganization
      case ChartCredentials => ChartCredentialOrganization
      case GithubInstallations => GithubInstallationOrganization
      case TektonInstallations => TektonCluster
      case Applications => if c == OrganizationId then ApplicationOrganization else ApplicationRunnerCluster
      case WorkflowStages => if c == OrganizationId then StageOrganization else StageApplication
      case _ =>
        match c {
          case OrganizationId => ComponentOrganization
          case ApplicationId => ComponentApplication
          case StageId => ComponentStage
          case TargetClusterId => ComponentTargetCluster
          case ChartCredentialId => ComponentChartCredential
          case _ => ComponentGithubInstallation
        };
  }

  // A table loads all edges it is the source of, and no others.
  lemma EveryEdgeLoads(e: Edge, table: Table)
    ensures e in EdgesOf(table) <==> Source(e) == table
  {
    var edges := EdgesOf(Source(e));
    assert e in edges by {
      match e
      case ComponentApplication | ClusterTekton | ApplicationRunnerCluster | StageApplication => assert edges[1] == e;
      case ComponentTargetCluster => assert edges[2] == e;
      case ComponentChartCredential => assert edges[3] == e;
      case ComponentGithubInstallation => assert edges[4] == e;
      case ComponentStage => assert edges[5] == e;
      case _ => assert edges[0] == e;
    }
  }
}
