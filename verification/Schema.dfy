/** The tables, columns and edges of the store, and the rows its tables hold.
  *
  * Columns that no join, default or codec reads are `Named`.
  */
module Schema {

  datatype Option<+T> = None | Some(value: T)

  datatype Result<+T, +E> = Ok(value: T) | Err(error: E)

  type Uuid = nat

  // What a NULL key scans to: the all-zero UUID.
  const ZERO_UUID: Uuid := 0

  datatype Column =
    | Id
    // join keys
    | OrganizationId | ApplicationId | StageId | TargetClusterId | ChartCredentialId
    | GithubInstallationId | RunnerClusterId | ClusterId | WorkflowRunId | ComponentId
    // columns of components
    | Name | Type | Config | Ordinal | ContinueOnFailure | RequiresApproval | ApprovalPolicy
    | TargetNamespace | CreatedAt | UpdatedAt
    // columns of component_runs
    | Status | Message | RunName | Logs | Outputs | Resources | Policy | ApprovedBy | ApprovedAt
    | Approvals | ChartRevision | ValuesRevision | StartedAt | FinishedAt
    | Named(name: string)

  datatype Value =
    | Null
    | UuidV(uuid: Uuid)
    | Text(text: string)
    | IntV(number: int)
    | BoolV(flag: bool)
    | TimeV(time: int)
    | Bytes(bytes: seq<char>)

  type Row = map<Column, Value>

  datatype Table =
    | Components | Organizations | Applications | Clusters | ChartCredentials
    | GithubInstallations | WorkflowStages | TektonInstallations

  const COMPONENT_COLUMNS: seq<Column> := [
    Id, OrganizationId, ApplicationId, Name, Type, Config, StageId, Ordinal, ContinueOnFailure,
    RequiresApproval, ApprovalPolicy, TargetClusterId, TargetNamespace, ChartCredentialId,
    GithubInstallationId, CreatedAt, UpdatedAt]

  function TableColumns(table: Table): seq<Column> {
    match table
    case Components => COMPONENT_COLUMNS
    case Organizations => [Id, Name, CreatedAt, UpdatedAt]
    case Applications => [
      Id, OrganizationId, Name, Named("imported"), Named("drift_interval_minutes"), Named("push_trigger"),
      Named("pr_plans"), RunnerClusterId, Named("group_id"), CreatedAt, UpdatedAt]
    case Clusters => [
      Id, OrganizationId, Name, Named("connection_method"), Named("endpoint"), Config,
      Named("encrypted_credentials"), Status, Named("status_message"), Named("k8s_version"),
      Named("last_checked_at"), CreatedAt, UpdatedAt]
    case ChartCredentials => [
      Id, OrganizationId, Name, Named("username"), Named("encrypted_password"), CreatedAt, UpdatedAt]
    case GithubInstallations => [
      Id, OrganizationId, Named("installation_id"), Named("account_login"), Named("account_type"),
      CreatedAt, UpdatedAt]
    case WorkflowStages => [Id, OrganizationId, ApplicationId, Name, Ordinal, CreatedAt, UpdatedAt]
    case TektonInstallations => [
      Id, ClusterId, Named("enabled"), Status, Named("installed_version"), Named("status_message"),
      Named("job_id"), Named("last_checked_at"), Named("plugin_cache_size"),
      Named("plugin_cache_storage_class"), CreatedAt, UpdatedAt]
  }

  /** The edges a query can eager-load. All are many-to-one, through a key on the row itself,
    * except ClusterTekton, which is one-to-one through a key on the other row. */
  datatype Edge =
    | ComponentOrganization | ComponentApplication | ComponentTargetCluster
    | ComponentChartCredential | ComponentGithubInstallation | ComponentStage
    | ClusterOrganization | ClusterTekton
    | TektonCluster
    | ApplicationOrganization | ApplicationRunnerCluster
    | ChartCredentialOrganization | GithubInstallationOrganization
    | StageOrganization | StageApplication

  // The edges of a table, in the order in which they are loaded.
  function EdgesOf(table: Table): seq<Edge> {
    match table
    case Components => [
      ComponentOrganization, ComponentApplication, ComponentTargetCluster, ComponentChartCredential,
      ComponentGithubInstallation, ComponentStage]
    case Clusters => [ClusterOrganization, ClusterTekton]
    case TektonInstallations => [TektonCluster]
    case Applications => [ApplicationOrganization, ApplicationRunnerCluster]
    case ChartCredentials => [ChartCredentialOrganization]
    case GithubInstallations => [GithubInstallationOrganization]
    case WorkflowStages => [StageOrganization, StageApplication]
    case Organizations => []
  }

  // The table the edge is loaded for.
  function Source(edge: Edge): Table {
    match edge
    case ComponentOrganization | ComponentApplication | ComponentTargetCluster
      | ComponentChartCredential | ComponentGithubInstallation | ComponentStage => Components
    case ClusterOrganization | ClusterTekton => Clusters
    case TektonCluster => TektonInstallations
    case ApplicationOrganization | ApplicationRunnerCluster => Applications
    case ChartCredentialOrganization => ChartCredentials
    case GithubInstallationOrganization => GithubInstallations
    case StageOrganization | StageApplication => WorkflowStages
  }

  // The table the edge leads to.
  function Target(edge: Edge): Table {
    match edge
    case ComponentOrganization | ClusterOrganization | ApplicationOrganization
      | ChartCredentialOrganization | GithubInstallationOrganization | StageOrganization => Organizations
    case ComponentApplication | StageApplication => Applications
    case ComponentTargetCluster | TektonCluster | ApplicationRunnerCluster => Clusters
    case ComponentChartCredential => ChartCredentials
    case ComponentGithubInstallation => GithubInstallations
    case ComponentStage => WorkflowStages
    case ClusterTekton => TektonInstallations
  }

  // True of an edge whose key is stored on the other row.
  predicate KeyOnTarget(edge: Edge) {
    edge == ClusterTekton
  }

  // The column of the row itself that the edge joins on.
  function OwnColumn(edge: Edge): Column {
    match edge
    case ComponentOrganization | ClusterOrganization | ApplicationOrganization
      | ChartCredentialOrganization | GithubInstallationOrganization | StageOrganization => OrganizationId
    case ComponentApplication | StageApplication => ApplicationId
    case ComponentTargetCluster => TargetClusterId
    case ComponentChartCredential => ChartCredentialId
    case ComponentGithubInstallation => GithubInstallationId
    case ComponentStage => StageId
    case TektonCluster => ClusterId
    case ApplicationRunnerCluster => RunnerClusterId
    case ClusterTekton => Id
  }

  // The column of the other row that the edge joins on.
  function FarColumn(edge: Edge): Column {
    if KeyOnTarget(edge) then ClusterId else Id
  }

  // The key a decoded entity carries: NULL and an absent column both read as the zero UUID.
  function ReadUuid(row: Row, column: Column): Uuid {
    if column in row && row[column].UuidV? then row[column].uuid else ZERO_UUID
  }
}
