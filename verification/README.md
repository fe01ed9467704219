# Verification of the persistence layer

The program stores pipelines of components through generated entity builders. This project models the four
engines inside that layer, for the entity Component, with Cluster for the one-to-one edge and ComponentRun for
upserts, and proves what they promise:

- **Reading.** A query builder is a mutable object with a tree of child builders, one for each edge to load.
  A run fetches rows, groups them by foreign key, sends one child query for all keys and scatters its results.
  It is proved to be the naive join that looks every edge up row by row (`Join.ExecIsNaive`, `Join.ExecByKey`), with
  the exact conditions under which a NULL key or a child limit breaks that (`Edges.ZeroKeyExact`,
  `Edges.WindowExact`), to be stable when repeated although each run leaves more predicates behind (`Rerun.RerunIsStable`), and to be
  isolated from copies of the builder (`Builders.Query.ApplyToClone`). Any builder, however it was used, asks for
  such a join, and its run succeeds exactly when every query that the rows lead to can be served
  (`WellBuilt.Joined`, `Success.RunsExactly`).
- **Creating.** A bulk save is a chain of closures, each inside its builder's hooks, that ends in one batch.
  For hooks that forward, it is proved to be two plain passes (`Create.ChainIsPasses`) and all or nothing
  (`BulkLaws.BulkAllOrNothing`); for arbitrary hooks, which may call the next mutator any number of times, edit
  the mutation, substitute another one, stop or fail, the nesting of events and the soundness of every batch
  are proved (`Create.Nested`, `Create.BatchesAreSound`, `Create.SuccessMeansStored`).
- **Hooks.** Composition is a right fold (`Hooks.HookedConcat`), and registration through slices that share
  backing arrays gives every builder the hooks registered before it was made, and only those (`Clients.Run`).
- **Codec and upserts.** A created row reads back as the entity that creation returned, for every column list,
  exactly when what the table puts in unset columns reads as zero and no list of approvers is empty
  (`Codec.CreateReadRoundTrip`). `UpdateNewValues` keeps the immutable columns because it looks at the mutations late,
  and exactly then (`Upserts.KeptExactly`, `Upserts.EagerKeepsExactly`); no hook can make it overwrite one, whatever it
  writes to which mutation and however often it calls (`RunChains.HooksKeep`). For any options, the table that
  a bulk upsert leaves is described exactly, row by row and column by column, with when it is refused
  (`UpsertLaws.StatementUpserts`).

What the operations return, store and report is also stated value by value, from what the caller set and not through
the functions that the methods compute with (Asked.dfy, BulkStored.dfy, UpsertLaws.dfy, and `Codec.DefaultsAre`,
`Codec.CheckAccepts`, `Codec.NodeIs`, `Hooks.SingleInserts`, `Terminals.IdsAre`).

The layers are tied together: the builder, entity, bulk and upsert classes are changed in place, and each method's
new state is a function of the old one that the lemmas are about.

## What the source and its documentation disagree on

The model follows the code. Each of these is a lemma, most with a small store or bulk beside it on which the result
is the wrong one (Witness.dfy, BulkWitness.dfy, UpsertWitness.dfy):

- A limit or an offset on an eager-loaded child query counts over the whole batch and not per row
  (`Edges.WindowExact`), and a row with a NULL key is joined to a child whose id is all zero
  (`Edges.ZeroKeyExact`).
- `First`, `Only`, `IDs` and `Exist` leave their limit or their selected field in the builder they are called on: what
  it returns from then on is cut to one or two rows, or to ids (`Terminals.AllAfterFirst`, `Terminals.AllAfterOnly`,
  `Terminals.AllAfterIds`, `Terminals.AllAfterExist`), and `IDs` and `Exist` fail on it (`Terminals.IdsOnce`,
  `Terminals.ExistOnce`). A query run again after the store has changed finds only
  edges whose keys it already asked for (`Edges.StaleRun`).
- In a bulk, the check looks at the builder's own mutation while the row is made from the one that the hooks hand
  down (`Create.HandedDown`, `BulkLaws.UncheckedExact`); a single save copies the mutation first, and checks what it
  stores (`Hooks.SingleSaveChecks`).
- A hook that reports success without calling on makes a bulk succeed with nothing stored and the earlier builders
  marked as done (`BulkLaws.StoppedChain`); a single save turns that into an error unless the hook made up an
  entity (`Hooks.SingleStopped`).
- A hook that reports failure after its call makes the bulk fail, with the batch stored whenever it would have been
  without the failure (`BulkLaws.FailedLate`).
- A component saved without a config is returned with a nil map and read back with an empty one, since the column has
  a default; one saved with an empty list of approvers is returned with it and read back without a list, since JSON
  omits it. Every other component that passes its check reads back as it was returned (`Codec.MigratedRoundTrip`,
  `Codec.MigratedRead`).
- A nil hook is an error in a single save and a panic in a bulk (`Hooks.HookedConcat`,
  `BulkBuilder.ComponentCreateBulk.Save`).
- In a bulk upsert, a column that one builder leaves unset and another sets is proposed as NULL. A column that may be
  NULL then becomes NULL in a conflicting row, and for any other the whole statement is refused; a single upsert keeps
  the column (`Upserts.UnsetColumn`, `UpsertWitnesses.ComponentLost`).
- The ids a bulk reports are the proposed ones (`RunBuilders.RunCreateBulk.Save`), and those are the stored ones exactly
  for rows that were inserted or that collided with a row of their id (`Upserts.ReportedId`). On the primary key, the
  only unique index of component_runs, that is always so (`Upserts.OnPrimaryKey`); on another target it is not
  (`UpsertWitnesses.IdNotStored`).

## Files

| file | content |
|---|---|
| Schema.dfy, Driver.dfy | tables, columns, edges; the executor: filter, arrange, project, de-duplicate, truncate |
| Migrations.dfy | the columns and foreign keys of db/migrations against the columns and edges of the generated code |
| Plan.dfy | the run of a query as a function of what its builder asks for |
| Asked.dfy | what each setting of a query comes to: rows, columns, loaded edges, errors |
| Join.dfy, Edges.dfy | the naive join and the refinement; accessors, projection, order of loads, changed stores, exact limits |
| Rerun.dfy, Success.dfy, Terminal.dfy | repeated runs; when runs succeed; First, Only, IDs and Exist |
| Loaders.dfy, Query.dfy, Built.dfy | the grouping and scattering loops; the query builders as mutable trees; what any use of one asks for |
| Codec.dfy, Decoder.dfy | create/read round trip on values; the entity filled in place |
| Create.dfy, Bulk.dfy, BulkStored.dfy | the bulk chain; its laws; what it stores and reports, value by value |
| BulkCreate.dfy | the chain over arrays and mutations in place |
| Slices.dfy, Settings.dfy | slices over shared arrays; the settings of a query builder and of its copies in memory |
| Hooks.dfy, Client.dfy | hook and interceptor composition; registration on shared slices |
| Upsert.dfy, UpsertLaws.dfy, RunCreate.dfy, RunChain.dfy | conflict clauses; what they store, column by column; the bulk builder of component runs; a bulk upsert inside its hooks |
| Witness.dfy, BulkWitness.dfy, UpsertWitness.dfy | small stores, queries and bulks with the unexpected result |

Verify with `dafny verify dfyconfig.toml`.

## What is assumed of code outside the repository

- The query executor returns the rows that satisfy the predicates, arranged by the ordering terms or in an order of its
  choice, projected, de-duplicated when asked, and cut to offset and limit. It arranges the same rows in the same way
  each time, so a limit cuts what the query without it returns. It fails as a whole or not at all.
- The batch executor stores all specifications or none, and may refuse any batch.
- An insert puts the default of the table in a column that no row of its statement sets, NULL in one that only other
  rows set, and is refused when a column cannot be NULL. The defaults, the NULL constraints and the primary key are
  those of the SQL files in db/migrations; the round trip takes the defaults as a parameter.
- An upsert resolves the first stored row that equals a row in the target columns by the update set, and inserts the row
  otherwise; it is refused when another row has its id. A database may refuse a target without a unique index outright.
- In an update set, the last action for a column wins; `ResolveWithNewValues` sets every inserted column to its
  proposed value, and `SetIgnore` sets a column to itself.
- JSON encodes to a non-empty text that decodes to the same value, except that an empty list tagged omitempty is left
  out, and decoding a text twice is decoding it once (`Codec.RoundTrips`).
- `QueryContext.Clone` copies the context and its list of fields.
- The clock, the id generator, growth of slices and what hooks and traversers decide are parameters.

## Model

| member | source | states |
|---|---|---|
| Join.ExecIsNaive | ent/component_query.go:550-618 | a successful run returns, for every node list with repeated, shared or zero keys, exactly the nodes of the naive row-by-row join, edges of edges included |
| Join.ChosenIs | ent/component_query.go:846-858 | the specification selects the rows that satisfy the query's predicates and its traversers', in the query's order, from its offset on and no more than its limit |
| Asked.RunReads | ent/component_query.go:550-580 | a successful run returns one node for each such row, in that order, with the whole row, or with the fields selected, the id and the keys of the requested edges |
| Asked.RunUnique | ent/component_query.go:797-812 | on any store: a query asked for unique rows keeps the first of equal rows before its offset and limit cut, and no other query drops any |
| Asked.WantedHold | ent/component_query.go:524-533 | the rows wanted satisfy the query's predicates and those of each traverser |
| Asked.RunLoaded | ent/component_query.go:552-560 | every node has exactly the requested edges as loaded |
| Asked.PrepareFails | ent/component_query.go:524-540 | a query is stopped by its first interceptor that is nil or refuses, and else by its first field that the table lacks |
| Asked.RunFails | ent/component_query.go:524-618 | a run that fails reports such a problem of a query that it reached, or the failure of its table |
| Migrations.ColumnsMigrated | db/migrations/20260607120000_workflows.sql:18-34 | a query without fields fetches exactly the columns that its table has after all migrations |
| Migrations.RunColumnsMigrated | db/migrations/20260607120000_workflows.sql:68-85 | a builder of component runs can set every column of the table |
| Migrations.EdgeIsKey | ent/component_query.go:765-793 | an edge is joined on a foreign key of the migrations, on either side |
| Migrations.KeyIsEdge | db/migrations/20260607120000_workflows.sql:18-34 | every foreign key between these tables is one edge, to the table referred to |
| Migrations.EveryEdgeLoads | ent/component_query.go:581-616 | a query can load every edge of its table |
| Join.ExecByKey | ent/component_query.go:550-618 | on any store, zero ids included, a successful run returns the join on the keys as they are read, NULL reading as zero |
| Join.LoadKidsIsNaive | ent/component_query.go:581-616 | after the loads of all requested edges each node has exactly the edges looked up for its own row |
| Join.BatchLookup | ent/component_query.go:765-793 | the edge found in the results of one child query for all keys is the edge looked up for the row alone |
| Codec.KeyRead | ent/component.go:178-295 | the key columns of a component that was read hold what the loads take from its row: the fetched key, and zero for NULL and for a column not fetched |
| Join.LookupIsPartner | ent/component_query.go:779-791 | a key that was sent finds its one matching child, or nothing exactly when there is none |
| Join.RowsAreProjections | ent/component_query.go:804-860 | de-duplication and the window commute with projection, since the id is always fetched |
| Join.ColumnsCarryKeys | ent/component_query.go:812-838 | whatever fields are selected, the foreign key of every requested edge is fetched |
| Join.ColumnsCarryId | ent/component_query.go:812-819 | and so is the id |
| Join.ColumnsCarryFarKey | ent/cluster_query.go:485-490 | a child query fetches the key it is joined on, on the one-to-one edge too |
| Edges.EdgeOrErrIsJoin | ent/component.go:86-150 | an accessor gives the joined row, not-found, or not-loaded exactly for joined, requested-but-absent and not-requested edges |
| Edges.EdgeOrErrByKey | ent/component.go:86-150 | the same on any store, for the join on the keys as they are read |
| Edges.FieldsKeepEdges | ent/component_query.go:812-838 | selecting fields makes a run fail exactly when one is not of the table, and changes no loaded edge, whatever limits the child queries have |
| Edges.LoadsCommute | ent/component_query.go:581-616 | the loads in any order succeed or fail alike, and give the same nodes |
| Edges.LoadsApart | ent/component_query.go:554-616 | the loads succeed exactly when each would alone, and each sets only its own edge of a node |
| Edges.ZeroKeyExact | ent/component_query.go:769-777 | a load agrees with SQL's join exactly when no row has a NULL key or the child query wants no row with the zero id |
| Witnesses.NullKeyJoined | ent/component_query.go:769-791 | a component with a NULL target cluster gets the cluster whose id is zero |
| Edges.WindowByKey | ent/component_query.go:778-779 | every row gets the edge under the key it reads exactly when the child's limit and offset drop no matching row of the batch |
| Edges.WindowExact | ent/component_query.go:778-779 | and so SQL's edge, when no row has the zero id |
| Witnesses.LimitedChild | ent/component_query.go:778-791 | two components, a limit of one on their clusters: the second finds none |
| Edges.LastResultWins | ent/cluster_query.go:478-504 | of several results with a node's key the last one in result order is kept, and none leaves the edge absent |
| Success.RunsExactly | ent/component_query.go:524-618 | a run succeeds exactly when every query it reaches, through the rows returned above it, has valid fields, no nil or refusing interceptor, and a table that answers |
| Success.ServedRuns | ent/component_query.go:524-618 | when that holds of every query in the tree, the run succeeds on any rows |
| Success.NarrowerRuns | ent/component_query.go:550-618 | a query for fewer of the rows, with fewer keys at every depth, succeeds when the query for all does |
| Rerun.NeverUnexpected | ent/component_query.go:638-642 | no run reports an unexpected foreign key, whatever fields the child queries select |
| Rerun.ChildKeysExpected | ent/cluster_query.go:485-502 | a child query returns no key that it was not sent |
| Rerun.RerunIsStable | ent/component_query.go:778-779 | after any number of runs, each of which narrows the child queries further, a run returns what the first did |
| Edges.StaleRun | ent/component_query.go:778-791 | on a changed store a second run finds any requested edge of a row exactly when it exists and the first run returned nothing or sent its key |
| Witnesses.StaleKeys | ent/component_query.go:778-791 | a component and its cluster added between two runs of one builder: the second run does not find the cluster |
| Edges.RunStale | ent/component_query.go:778-779 | a run leaves each child builder as its run under the fetched keys left it |
| Terminals.OnlyExact | ent/component_query.go:254-267 | Only returns the node, not-found or not-singular exactly when the query without a limit has one, no or more rows |
| Terminals.LimitIsPrefix | ent/component_query.go:208-217 | when the child queries have no limit or offset of their own, a limit makes no run fail, and cuts the whole result with its edges |
| Terminals.FirstIsHead | ent/component_query.go:208-217 | when the child queries have no limit or offset, First returns the head of the whole result with all its edges, whenever that can be loaded |
| Terminals.AllRowsAre | ent/component_query.go:208-217 | the rows that First and Only are measured by are those the query chooses without its limit |
| Terminals.FirstFails | ent/component_query.go:208-217 | First and Only fail as their run does; otherwise First finds nothing exactly when no row is chosen |
| Terminals.AllAfterFirst | ent/component_query.go:208-217 | First leaves its limit behind: a later run is complete exactly when there is at most one row |
| Terminals.AllAfterOnly | ent/component_query.go:254-267 | and after Only, exactly when there are at most two |
| Witnesses.LimitStays | ent/component_query.go:208-217 | a query for two components returns one after First |
| Terminals.ExistExact | ent/component_query.go:365-375 | Exist is true exactly when the query without a limit has a row |
| Terminals.IdsAre | ent/component_query.go:326-335 | IDs returns the ids of the rows wanted, in their order, from the offset on and within the limit |
| Terminals.IdsFail | ent/component_query.go:326-335 | and fails with the query's problem, its table's, or the scan's; Exist fails as it does |
| Terminals.IdsOnce | ent/component_query.go:326-335 | IDs works on a builder exactly when it has no selected fields, and neither IDs nor Exist works after it |
| Terminals.ExistOnce | ent/component_query.go:365-375 | the same of Exist |
| Terminals.AllAfterIds | ent/component_query.go:326-335 | after IDs a run returns the same nodes and edges, but of each row only the id and what was selected or is a key of a requested edge |
| Terminals.AllAfterExist | ent/component_query.go:365-375 | after Exist, when the child queries have no limit or offset, it returns at most the first of them |
| Witnesses.ExistTwice | ent/component_query.go:365-375 | Exist answers, and fails on the same builder again |
| Terminals.SameCount | ent/component_query.go:862-893 | selecting distinct ids keeps the number of rows |
| Loaders.GroupByKey | ent/component_query.go:766-774 | the grouping loop: keys without repeats in first-occurrence order, and the group of each key in input order |
| Loaders.GroupsPartition | ent/component_query.go:766-774 | the groups share out the nodes: none lost, none twice |
| Loaders.FirstOccurrencesDistinct | ent/component_query.go:770-772 | the sent keys are exactly the keys of the nodes, each once |
| Loaders.Scatter | ent/component_query.go:784-792 | the scatter loop assigns each result to all nodes of its group, or reports the first stranger |
| Loaders.IndexByKey | ent/cluster_query.go:479-484 | the one-to-one index holds the last node of each key |
| Loaders.ScatterOne | ent/cluster_query.go:495-503 | the one-to-one scatter loop assigns each result to the node in the index, or reports the first stranger |
| Builders.Query.Where | ent/component_query.go:44-47 | appends predicates and changes nothing else |
| Builders.Query.Limit | ent/component_query.go:50-53 | sets the limit and changes nothing else |
| Builders.Query.Select | ent/component_query.go:511-517 | appends fields and changes nothing else |
| Builders.Query.With | ent/component_query.go:467-476 | the edge gets the child query in place of the one before, every other edge keeps its own, and the trees of builders stay separate |
| Builders.Query.Clone | ent/component_query.go:388-409 | a copy that asks for the same and shares no builder at any depth |
| QuerySettings.CloneApart | ent/component_query.go:386-409 | over any interleaving of setters on a builder and on its copy, which append to slices with room behind them, each asks for what its own calls make of it |
| QuerySettings.Settings.Clone | ent/component_query.go:392-396 | the copy shares no array and no context |
| Slices.Clobber | ent/component_query.go:394-396 | without the copies: of two appends to one slice with room behind it, the second writes over the first |
| Builders.Query.ApplyToClone | ent/component_query.go:386-409 | any sequence of setters and runs on a copy has the effect it would have on the original, which stays as it was |
| Builders.Query.CloneThenApply | ent/component_query.go:386-409 | nothing done to the original afterwards changes the copy |
| Builders.Query.PrepareQuery | ent/component_query.go:524-548 | interceptors narrow in order, a nil one or a refusing one or an invalid field stops, as the plan says |
| Builders.Query.BuildSpec | ent/component_query.go:804-860 | the specification is that of what the builder asks for |
| Builders.Query.LoadEdge | ent/component_query.go:765-793 | one load in place: the child runs narrowed, its results are attached, its builder stays narrowed, siblings are untouched |
| Builders.Query.LoadEdges | ent/component_query.go:581-616 | the loads in place, in order, until one fails |
| Builders.Query.SqlAll | ent/component_query.go:550-618 | fetches and loads as the plan does |
| Builders.Query.All | ent/component_query.go:307-314 | the builder and its result after a run are those of the run as a function |
| WellBuilt.AppliedBuilt | ent/component_query.go:412-476 | whatever is done to a builder, each child query is for an edge of its table, reads the table the edge leads to, and is the edge's only one |
| WellBuilt.Joined | ent/component_query.go:307-314 | a query made, used in any way and then run has exactly the edges requested loaded in every node, succeeds exactly when the queries reached are served, and returns the join of what it asks for |
| WellBuilt.AppliedEdges | ent/component_query.go:412-476 | whatever is done to a builder, it loads exactly the edges it did and those requested since |
| WellBuilt.EagerAsks | ent/component_query.go:412-476 | a requested edge gets exactly the query described, and no other edge changes |
| Builders.Query.First | ent/component_query.go:208-217 | the same for First |
| Builders.Query.Only | ent/component_query.go:254-267 | the same for Only |
| Builders.Query.IDs | ent/component_query.go:326-335 | the same for IDs |
| Builders.Query.Exist | ent/component_query.go:365-375 | the same for Exist |
| Codec.CreateReadRoundTrip | ent/component.go:153-295 | reading the row of a created component gives the entity that creation returned, for columns in any order, with repeats and strangers, exactly when what the table puts in each unset column reads as zero and no policy was set with an empty list of approvers |
| Codec.MigratedRoundTrip | db/migrations/20260607120000_workflows.sql:18-34 | with the defaults of the migrations, a component that passed its check reads back as returned exactly when its config was set and it has no policy with an empty list of approvers |
| Codec.MigratedRead | db/migrations/20260607120000_workflows.sql:18-34 | every component can be read, and each field is what was set, up to an omitted empty list, or the default |
| Codec.EmptyApprovers | ent/schema/component.go:59 | a component saved with an empty list of approvers is returned with it and read with none |
| Codec.UnsetConfig | db/migrations/20260607120000_workflows.sql:24 | a component saved without a config is returned with a nil map and read with an empty one |
| Codec.ReadColumns | ent/component.go:178-295 | reading a row succeeds exactly when each of its columns can be read, and each field then holds its column |
| Codec.NeverUnexpectedType | ent/component.go:153-174 | values scanned into the prepared destinations never have an unexpected type |
| Codec.AssignLast | ent/component.go:178-295 | a field keeps its value, or holds what the last value that assigns something makes of what the columns before it left |
| Codec.AssignLastPlain | ent/component.go:178-295 | outside the two JSON columns that is the last value itself |
| Codec.AssignSelected | ent/component.go:290-292 | exactly the columns without a field go to the selected values |
| Codec.DefaultsOnce | ent/component_create.go:296-325 | defaults change nothing that is set, so filling in twice is filling in once |
| Codec.DefaultsAre | ent/component_create.go:296-325 | the defaults are "helm", 0, false, false, the clock twice and a new id, in the fields that are not set and in no others |
| Codec.CheckAccepts | ent/component_create.go:328-379 | accepted are an organization, an application, a stage, a name that is not empty, one of three types, and the five fields with defaults |
| Codec.CheckReports | ent/component_create.go:328-379 | otherwise the first of them that is missing or invalid is reported |
| Codec.SavedPasses | ent/component_create.go:296-379 | after defaults a builder is accepted exactly when it set organization, application, stage and a name, and no type or a valid one |
| Codec.NodeIs | ent/component_create.go:404-557 | the entity returned holds each field set, and zero elsewhere |
| Codec.CheckPasses | ent/component_create.go:328-379 | the check passes exactly when every required field is there and valid, and the edge checks never fire |
| Codec.TooFew | ent/component.go:178-182 | fewer values than columns is an error, and only that is |
| Codec.RowIs | ent/component_create.go:404-557 | the row stored holds each field set, as the value of its type, and what the table puts there for the rest |
| Codec.SpecCarries | ent/component_create.go:404-557 | the specification carries exactly the fields set, each under its column |
| Decoder.Component.AssignValues | ent/component.go:178-295 | the loop over columns leaves the entity as the fold of its columns says, or stops at the first failure |
| Decoder.ScanValues | ent/component.go:153-174 | one destination for each column, of the column's type |
| Decoder.NewNode | ent/component_create.go:404-557 | the specification of the fields set, and an entity holding them over zero values |
| Create.Nested | ent/component_create.go:1171-1215 | whatever hooks do, every hook, check and batch happens at its one place in the nesting, and every hook entered is left |
| Create.BatchesAreSound | ent/component_create.go:1183-1196 | whatever hooks do, a stored batch has the specification of every builder; without substitution each is that of checked fields |
| Create.HandedDown | ent/component_create.go:1180-1185 | a batch carries what the mutation handed down sets and needs only the builder's own fields to pass |
| BulkLaws.UncheckedExact | ent/component_create.go:1180-1185 | fields that fail the check are stored by any builder exactly when its own fields pass, the builders after it are accepted and the store takes the batch |
| BulkLaws.HandedExactly | ent/component_create.go:1175-1204 | the exact batch, marks and outcome of a builder that is handed any mutation, another builder's included, with the builders after it forwarding |
| BulkWitnesses.EmptyRowStored | ent/component_create.go:1180-1196 | a hook hands down a mutation without fields, and its row is stored |
| Create.SuccessMeansStored | ent/component_create.go:1186-1203 | with hooks that report success exactly when a call of theirs had it, a save succeeds exactly when a batch was stored |
| Create.ChainIsPasses | ent/component_create.go:1171-1215 | with forwarding hooks the chain is a pass down, the rest, and a pass up that marks after success only |
| Create.HooksForward | ent/component_create.go:1205-1208 | forwarding hooks enter, edit and leave around the innermost mutator |
| BulkLaws.BulkAllOrNothing | ent/component_create.go:1164-1217 | with forwarding hooks a bulk succeeds exactly when all fields pass after defaults and edits and the store takes them; then one batch in order and all marks, otherwise neither |
| BulkStored.StoredDefaults | ent/component_create.go:1171-1196 | the row that a builder without hooks gets in the batch, column by column: what it set, "helm", 0, false, the clock, the new id, or nothing |
| BulkStored.BulkError | ent/component_create.go:1180-1199 | with forwarding hooks a failed bulk reports the first builder rejected, or the constraint or other refusal of the store |
| BulkStored.BulkPanics | ent/component_create.go:1205-1208 | a bulk panics exactly when a hook is nil, with nothing stored |
| BulkStored.SavedMutations | ent/component_create.go:1200-1203 | after success each mutation holds the fields stored, the id of its node, and its mark |
| BulkStored.CalledTwice | ent/component_create.go:1205-1207 | a hook that calls twice runs everything inside it twice, and its answer to both replies is the outcome |
| Create.EditsAre | ent/component_create.go:1205-1207 | each forwarding hook sees what the one before it left in the mutation |
| BulkLaws.AllOrNothing | ent/component_create.go:1175-1204 | the store is asked exactly when every check passes, for the specifications of all builders in order |
| BulkLaws.Tail | ent/component_create.go:1186-1203 | from any builder on, forwarding hooks store one batch of what was filled before and of their own fields, exactly when these pass and the store takes it |
| BulkLaws.MarksFollowRest | ent/component_create.go:1186-1203 | the marks of forwarding builders follow the outcome of what they call, whether or not a batch was stored |
| BulkLaws.StoppedChain | ent/component_create.go:1186-1216 | any hook of any builder that stops with success, behind hooks that forward: nothing stored, earlier builders marked, later nodes never filled |
| BulkWitnesses.NothingStored | ent/component_create.go:1186-1216 | two builders, the second stops with success: success, no batch, the first one marked |
| BulkLaws.FailedLate | ent/component_create.go:1186-1203 | any hook of any builder that reports failure after its call, with the other hooks forwarding: the bulk fails, its batch is stored exactly when it would have been, the builders from there on are marked and those before are not |
| BulkWitnesses.FailedButStored | ent/component_create.go:1186-1203 | one builder whose hook fails after its call: the save fails and the row is stored |
| BulkLaws.OrderOfEvents | ent/component_create.go:1171-1215 | the events are all hooks and checks in order, the batch if all pass, and the exits in exact reverse |
| BulkBuilder.ComponentCreate.Defaults | ent/component_create.go:296-325 | fills in place what has a default and is not set |
| BulkBuilder.Chain.TakeMutation | ent/component_create.go:1183-1185 | the builder adopts the mutation and fills its slots in the shared arrays |
| BulkBuilder.Chain.Innermost | ent/component_create.go:1175-1204 | the closure of builder i, in place, is the innermost mutator of the chain |
| BulkBuilder.Chain.Perform | ent/component_create.go:1205-1207 | a hook at work, in place, calling the next mutator as often as it decides |
| BulkBuilder.Chain.Mutate | ent/component_create.go:1171-1210 | the mutators of the chain in place; the chain ends, with the builders and hooks left as its measure |
| BulkBuilder.Chain.Prepare | ent/component_create.go:1171-1210 | defaults of all builders come before any mutator runs, and a nil hook stops the wrapping |
| BulkBuilder.ComponentCreateBulk.Save | ent/component_create.go:1164-1217 | the state of all mutations, builders, nodes and the store after a bulk save |
| Hooks.WithHooks | ent/ent.go:532-563 | the loop from the last hook to the first computes the fold; no hooks run the operation directly |
| Hooks.FoldConcat | ent/ent.go:548-553 | folding a then b is folding a around the fold of b |
| Hooks.HookedConcat | ent/ent.go:532-563 | hooks a then b wrap a around b around the operation; a nil hook anywhere means nothing runs |
| Hooks.PassingOn | ent/ent.go:536-556 | hooks that only pass on leave the operation as it is |
| Hooks.FirstIsOutermost | ent/client.go:1164-1168 | hooks are entered in registration order and left in reverse, whatever the operation does |
| Hooks.WithInterceptors | ent/ent.go:598-611 | the same fold for interceptors, and only the expected type is returned |
| Hooks.SingleSaveChecks | ent/component_create.go:381-402 | whatever the hooks do, a single save stores no row whose fields did not pass the check |
| Hooks.SingleNested | ent/ent.go:548-556 | whatever the hooks of a single save do, each is entered inside those before it and left before them, the insert runs inside all, and every hook entered is left |
| Hooks.SingleStopped | ent/ent.go:554-562 | any hook that stops with success, behind hooks that forward, stores nothing, and the save succeeds exactly when it made up an entity |
| Hooks.SingleInserts | ent/component_create.go:381-402 | with forwarding hooks a single save adds exactly one row, holding each field set and nothing else, returns its entity and marks the mutation with its id; or it stores nothing and reports the failed check or the refusal |
| Hooks.InnermostInserts | ent/ent.go:536-547 | the same for any mutation handed to the innermost mutator, which becomes the builder's own; one of another entity is refused |
| Hooks.SingleHanded | ent/ent.go:536-562 | a hook that hands down another mutation has that one inserted |
| Hooks.CalledTwice | ent/ent.go:548-562 | a hook that calls twice runs the operation twice, and its answer to both replies is the outcome |
| Hooks.SingleForwards | ent/component_create.go:268-271 | with forwarding hooks a single save is the insert of the fields after defaults and edits |
| Hooks.Save | ent/component_create.go:268-271 | defaults, then the insert inside the hooks |
| Slices.Append | ent/client.go:1166-1168 | append writes behind the slice or moves, and never changes what a slice of the same array shows |
| Clients.Client.UseOn | ent/client.go:1166-1168 | registering with one entity extends its hooks only, and no slice handed out before |
| Clients.Client.Use | ent/client.go:301-311 | registering with the client extends the hooks of all 21 entities, and no slice handed out before |
| Clients.Client.NewBuilder | ent/client.go:1177-1180 | a builder gets the hooks registered so far, in the shared array |
| Clients.Run | ent/client.go:1166-1180 | over any program of registrations and builders, each builder keeps the hooks registered before it was made, in order |
| Upserts.KeptExactly | ent/componentrun_create.go:1513-1532 | the immutable columns of every conflicting row are kept exactly when each one inserted is set in a mutation the function sees |
| Upserts.DeferredKeeps | ent/componentrun_create.go:1515-1530 | looking when the statement is built, it sees what the statement is made from and keeps them all |
| Upserts.EagerKeepsExactly | ent/componentrun_create.go:365-420 | looking before defaults, it would keep them exactly when an id and a creation time were set by hand |
| Upserts.OthersTakeNewValues | ent/componentrun_create.go:1513-1515 | every other column takes the proposed value when it is inserted, and stays otherwise |
| Upserts.UnsetColumn | ent/componentrun_create.go:1513-1532 | a mutable column that a builder leaves unset stays in a colliding row exactly when no other builder sets it or it was NULL; otherwise it becomes NULL, or the statement is refused when it may not; a single upsert keeps it |
| UpsertWitnesses.ComponentLost | ent/componentrun_create.go:1513-1532 | a bulk of an update without a component and an insert with one: the stored run loses its component, and upserted alone it does not |
| Upserts.ReportedId | ent/componentrun_create.go:1413-1434 | the id reported for a row of a bulk is that of the stored row exactly when it was inserted or collided with a row of its id |
| UpsertWitnesses.IdNotStored | ent/componentrun_create.go:1413-1434 | a bulk of one, on a target other than the id: it succeeds and reports an id that is not in the table |
| Upserts.OnPrimaryKey | db/migrations/20260607120000_workflows.sql:69 | on the primary key a row upserted twice is as it was, and the id reported is stored |
| Upserts.StorableExactly | db/migrations/20260607120000_workflows.sql:68-85 | a row of a bulk can be stored exactly when it sets every column that may not be NULL, or no builder does and the column has a default |
| UpsertLaws.StatementUpserts | ent/componentrun_create.go:1554-1559 | for any options, a statement succeeds with a table exactly when that is the table with every row in its place, one after the other, so it is refused exactly when there is none: a builder proposes what it set, NULL for what only others set and the table's default for the rest; the first stored row equal in the last target given holds in each column what the last option touching it puts there, or its old value; without one the row is added; proposed and resolved rows can be stored and no other row has their id |
| UpsertLaws.NullRefused | db/migrations/20260607120000_workflows.sql:68-85 | NULL is refused in every column but four |
| UpsertLaws.RunDefaultsAre | ent/componentrun_create.go:365-386 | the defaults are "pending", an empty approver, the clock twice and a new id |
| UpsertLaws.RunCheckReports | ent/componentrun_create.go:389-420 | the first required field that is missing, or a status that is not one of six |
| RunBuilders.FirstFailureIs | ent/componentrun_create.go:1391-1403 | the first builder rejected decides |
| Upserts.UpsertTwice | ent/componentrun_create.go:1513-1532 | upserting again a row that the store took: it succeeds and changes nothing exactly when the row has a value in every column of the target, and is refused otherwise |
| UpsertWitnesses.TwiceOnNull | db/migrations/20260607120000_workflows.sql:69 | a row without a component, upserted twice on the component: inserted, then refused by its own id. This needs a unique index on the component, which component_runs does not have: its database refuses the target at once |
| Upserts.UpsertRefused | db/migrations/20260607120000_workflows.sql:69 | a row is refused exactly when a column cannot hold its value, or when it collides with no row and its id is taken |
| Upserts.UpsertKeepsIds | db/migrations/20260607120000_workflows.sql:69 | whatever is updated or inserted, ids stay unique |
| Upserts.RunContinues | ent/componentrun_create.go:1384-1437 | over any sequence of bulk upserts, refused ones included, no row is lost, none changes its id, organization, workflow run or creation time, and ids stay unique |
| RunBuilders.RunCreate.Defaults | ent/componentrun_create.go:365-386 | fills in place what has a default and is not set |
| RunBuilders.RunCreateBulk.UpdateNewValues | ent/componentrun_create.go:1513-1532 | appends its two options, which are then the only resolutions if there were none |
| RunBuilders.RunCreateBulk.KeepImmutables | ent/componentrun_create.go:1515-1530 | the loop over the builders reads their mutations as they are when it is called |
| RunBuilders.RunCreateBulk.BuildUpdates | ent/componentrun_create.go:1384-1437 | the options in order on the builders' present mutations |
| RunBuilders.RunCreateBulk.Save | ent/componentrun_create.go:1384-1437 | the first failing check, or one statement over all rows, or its refusal with nothing changed; after a success the table is as the options say, column by column, and with UpdateNewValues alone every stored row keeps its immutable columns; it is refused only when the store turns the batch down or the options have no table |
| RunChains.BatchStores | ent/componentrun_create.go:1409-1420 | the batch at the end of the chain succeeds with a table exactly when the store takes it and that is the table with every specification in its place; a batch that fails leaves everything |
| RunChains.HooksKeep | ent/componentrun_create.go:1391-1427 | in a bulk upsert with UpdateNewValues, whatever the hooks write to any mutation, hand down, repeat or stop, no stored row is lost, none changes an immutable column, and ids stay unique |
| RunChains.LastKeeps | ent/componentrun_create.go:1515-1530 | the reason: a statement that is not refused has each immutable column in all rows or in none, and the last builder's mutation still holds what its row was made from |
| RunChains.HooksForward | ent/componentrun_create.go:1425-1428 | forwarding hooks write one after the other around the innermost mutator |
| RunChains.CalledTwice | ent/componentrun_create.go:1425-1428 | a hook that calls twice runs everything inside it twice, and its answer to both replies is the outcome |
| RunChains.InnermostIs | ent/componentrun_create.go:1394-1424 | the builder's own mutation is checked, the row is made from the one handed down, and after a success that one has the id |
| RunChains.NoHooks | ent/componentrun_create.go:1384-1437 | without hooks the chain does what the save in place does: the checks in order, then one statement over what the mutations hold |
| RunBuilders.RunCreateBulk.Exec | ent/componentrun_create.go:1919-1932 | refused at the first builder with a conflict clause of its own, or without options, with nothing stored; otherwise what a save does |

## Left out

- Traversal queries with a path (`QueryStage` and the like), and the unique flag they imply: they hand a selector to the SQL layer.
- Builders.Query.PrepareQuery: traversers narrow by predicates or refuse, and do not use the other setters; the path of a traversal query is not taken.
- Hooks.FirstIsOutermost: stated for hooks that note that they are entered and left; the nesting of arbitrary hooks is Hooks.SingleNested and Create.Nested.
- Negative limits and offsets: the builder's numbers are natural.
- Count, GroupBy, Aggregate, FirstID and OnlyID: Count is a number of rows, FirstID is inside Exist, OnlyID repeats Only over ids.
- Interceptors around a query as wrappers of its execution are composed in Hooks; inside the query builders they only narrow or refuse, as traversers do.
- Sharing of one loaded child object between several nodes: loaded edges are values in the model, so later writes to a shared child are not captured.
- The edge from a workflow stage to its components and the other one-to-many edges: no core file loads them for a component.
- Builders.Query.IDs: which column lists scan into ids is a parameter of the executor, since the scanning code is not in the repository.
- Create.Mutate: the id pointer of a mutation shares memory with the node; the model copies the id.
- BulkBuilder.ComponentCreateBulk.Save: one builder listed twice in a bulk is not modelled, and hooks hand down mutations from a known set.
- Hooks as code are modelled by what they decide from the replies and fields they see, with a bound on their calls; work done while a hook wraps the next mutator is not captured.
- Upserts.Statement: rows of one bulk that collide with each other are resolved in order, where some databases refuse the statement.
- RunBuilders.RunCreateBulk.Save: the save in place has no hooks; they are in RunChains, as functions, where none is nil.
- Builders.Query.Clone: the settings are values in the tree of builders; how the slices and the context lie in memory is in QuerySettings. The selector and the path of a copied query are not modelled.
- DoNothing, and the ids that single upserts read back: they depend on the SQL layer.
- ExecX of upserts skips the option checks that Exec makes, and then panics on errors; it is not modelled.
- Update and delete builders, transactions, debug drivers, MapCreateBulk, and the other entities: the same template, or reflection.
- JSON text, time precision, SQL text, dialects and encryption of credentials.
