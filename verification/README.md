# Verification of the logistics service's data layer

A Dafny model of the parts of the service where several functions, closures or
processes have to agree, with proofs of what they agree on:

* **Create builders.** `CreateBulk(...).Save` chains one mutator per builder,
  each inside its stack of hooks; the innermost core checks, fills its slots of
  the shared `nodes` and `specs` arrays and calls the next mutator; the last one
  issues the single batch insert. `Create().Save` runs the same hooks around a
  one-row insert. `Schema.dfy` holds the column tables of `Fleet`,
  `ChainOfCustody`, `FleetMember` and `Vehicle` (defaults, check rules, scan and
  assign switches), and `CreateRules.dfy` says what these come to;
  `Chain.dfy`, `BulkSave.dfy` and `SingleSave.dfy` are the builders, mutations,
  arrays and database on the heap, each method proved against a function on
  values; `ChainProofs.dfy`, `BulkTheorems.dfy`, `BulkCallers.dfy`,
  `BulkVsSingle.dfy` and `HookStack.dfy` prove what follows for any number of
  builders and any hooks.
* **Reading back.** `ReadBack.dfy` is `scanValues` and `assignValues`;
  `Query.dfy` the query builder with its projection and limited lookups;
  `EagerLoad.dfy` and `EagerShipment.dfy` the eager loading of edges, against
  the plain nested-loop join.
* **Migration start-up.** `Migrate.dfy` is `baselineAtlasIfNeeded` over a
  database that may fail at any statement, `AtlasSum.dfy` (with `Strings.dfy`)
  is `parseAtlasSum`, and `MigrateProtocol.dfy` and `MigrateTheorems.dfy` are any
  number of pods that contend for the advisory lock, crash, restart and lose
  their database sessions.
* **Seeding.** `Seed.dfy` describes seeding as atomic steps, `SeedProgram.dfy`
  the rows of `cmd/seed`, `SeedStore.dfy` the imperative `runSeed`,
  `SeedTheorems.dfy` convergence and referential integrity under interruption, and
  `SeedOutcome.dfy` what a finished run has put into the tables.
  `Zones.dfy` is `cmd/seed-delivery-zones`.

Methods follow the source's loops and assignments; each is tied to a function
that says what it computes, and the lemmas are about those functions. A hook is a
function of the mutation it sees: it calls the next mutator with the mutation
edited in place or with another one, and goes on with what comes back, or it
returns at once. Clocks, generated IDs and the answers of the database are
parameters. `dafny verify dfyconfig.toml` checks everything.

## What the proofs turned up

The code is modelled as it is. Where a natural expectation is false of it, there
is a lemma with an input that shows so, and one with the exact condition.

* **What a bulk save reports is not what it did.** With hooks that hand back a
  success for a success and an error for an error, which a caller can see from the
  hooks, the report is true exactly when no hook ends the chain with a value of its
  own (`KindKeptMeansInsertedIff`). If one does, the builders before it are marked
  done, the returned slice has nil nodes from there on, and no row is inserted
  (`ShortCircuitSavesNothing`). Other hooks can also hide a failed insert
  (`SwallowedErrorSavesNothing`) or turn a stored batch into an error
  (`LateRejectionKeepsTheRow`); for them the condition is how often the result is
  turned round on its way up (`SavedMeansInsertedIff`).
* **Bulk and single saves check different mutations.** The bulk core calls
  `builder.check()` before `builder.mutation = mutation`; the single save copies
  first and checks then. A hook that hands on another mutation gets it stored
  unchecked in bulk (`BulkStoresWhatSinglesRefuse`). `ChecksAgreeIff` says for one
  builder, and `BulkEqualsSingles` for any number, exactly when the two saves do
  the same.
* **A nil hook** is an error in `withHooks` and a panic in bulk: the bulk loop
  has no guard.
* **A repeated column keeps its last value that is not NULL**, not its last value
  (`LaterNullKeepsEarlierValue`, `AssignTakesLastNotNull`). Its last value decides
  exactly when it is not NULL or no earlier one left a value
  (`LastOccurrenceWinsIff`). The columns of one row are the same wherever they are
  repeated; it takes a second expression selected under the same name.
* **A required-edge error cannot occur**: the check for the missing foreign key,
  which stands before it, asks the same (`RequiredEdgeIsUnreachable`).
* **The page of an eager-loaded query is global**: the nodes share it, and they
  have the rows they would have without it exactly when it keeps every row that
  matches (`PageIsShared`).
* **Lookups change the builder they are called on.** After `Only` or `Exist` it
  returns two rows or one (`ExistNarrowsTheBuilder`). `Exist` also adds the ID to
  the projection and scans the whole projection into a list of IDs, so it works
  exactly on builders without a projection (`ExistIffSomeRow`), and only once
  (`SecondExistFails`).
* **A crash inside the baseline is final.** Once the revision table exists every
  later pod skips the baseline, so the rows the dead pod had not inserted stay
  missing (`CompleteIffNotTorn`).
* **The migration lock is as good as its session.** If the connection of the pod
  that has the lock breaks between two statements, the pool opens a new one and the
  pod goes on without the lock: a second pod gets in (`LostSessionLetsTwoIn`).
  Losing the session of the pod that holds the lock is exactly what breaks exclusion
  (`MutualExclusion`, `BreakableIff`). Even then the revision rows stay a prefix
  (`RowsAreAlwaysAPrefix`), they are complete if no pod died while it was filling
  the table (`UntornIsComplete`, `AnyUntornRunEndsAlike`), and nobody waits for ever
  (`EveryoneCanFinish`).

## Model

| member | source | states |
|---|---|---|
| Chain.Builder.SetDefaults | internal/ent/fleet_create.go:201-230 | After the loop each column with a default has the value it had if it was set, and otherwise its constant or the clock as it is read for this column; no other column changes; the ID is the one that was set, or the generated one |
| CreateRules.FleetCheck | internal/ent/fleet_create.go:201-272 | Once the defaults are filled in, the check of a fleet passes iff the caller has set tenant_id, and a tenant_slug and a name that are not empty: everything else it asks for has a default |
| CreateRules.CustodyCheck | internal/ent/chainofcustody_create.go:259-291 | The same for a custody event: iff shipment_id, actor_id, actor_name and event_type are set |
| CreateRules.MemberCheck | internal/ent/fleetmember_create.go:547-660 | The same for a member: iff tenant_id, fleet_id and user_id are set, and a payout method or status that is set is one of the five and two values of its enum; any other is refused |
| CreateRules.VehicleCheck | internal/ent/vehicle_create.go:285-371 | The same for a vehicle: iff tenant_id and fleet_id are set, and vehicle_type, make, model and license_plate are set and not empty |
| CreateRules.DefaultedIsTyped | internal/ent/fleetmember_create.go:547-600 | Every default has the type of its field, so a draft of the typed setters is still one after defaults |
| CreateRules.CreateSpecIs | internal/ent/fleet_create.go:297-376 | createSpec sends the ID and exactly the fields that are set, with their values; the struct it hands back has the same values, and nil or the zero of its type in every other field |
| Schema.CheckFindsFirst | internal/ent/fleet_create.go:233-272 | check passes iff no rule is violated, and otherwise reports the violated rule that comes first in the generated order |
| Schema.RequiredEdgeIsUnreachable | internal/ent/chainofcustody_create.go:271-291 | The missing-edge error of a check is never reported, for any entity, edge and builder |
| Schema.SwitchesAgree | internal/ent/chainofcustody.go:79-216 | For each of the four entities, the switches of scanValues and assignValues name the same columns, those of the table, and scanValues makes for each the holder that assignValues asserts |
| ReadBack.ScanValues | internal/ent/fleet.go:76-93 | One holder per requested column, of the kind the switch gives, UnknownType for a foreign name |
| ReadBack.NodeObject.AssignValues | internal/ent/fleet.go:97-170 | Too few values are a length mismatch that changes nothing; otherwise the call fails iff some holder does not have the type of its column, and the struct after the loop is the column-by-column assignment, stopped there |
| ReadBack.AssignStopsAtWrongHolder | internal/ent/fleet.go:97-170 | The error names the first column whose holder has the wrong type, and the columns in front of it have been assigned |
| ReadBack.AssignTakesLastNotNull | internal/ent/chainofcustody.go:104-216 | For any column list, repeats and unknown names included, assignValues never fails on scanValues' holders, and each field takes the last value of its column that is not NULL |
| ReadBack.AssignKeepsUnknown | internal/ent/chainofcustody.go:211-213 | Exactly the selected columns without a field end up in selectValues |
| ReadBack.AssignWrites | internal/ent/chainofcustody.go:104-216 | Exactly the fields of selected, known columns that are not NULL are written |
| ReadBack.LaterNullKeepsEarlierValue | internal/ent/chainofcustody.go:167-172 | A concrete list of columns and values on which the last occurrence does not win: a NULL leaves the earlier value |
| ReadBack.LastOccurrenceWinsIff | internal/ent/chainofcustody.go:104-216 | The last occurrence of a column decides as if it were the only one iff it is not NULL or no earlier occurrence left a value |
| ReadBack.ReadsWhatWasCreated | internal/ent/chainofcustody_create.go:316-400 | Create/read agreement under every projection: a selected field is read back as createSpec returned it, unset optional ones as nil or zero, and an unselected field is zero |
| ReadBack.FullReadRoundTrip | internal/ent/fleet_create.go:297-376 | With all columns selected the struct that was read equals the struct createSpec returned |
| Chain.Database.BatchCreate | internal/ent/chainofcustody_create.go:1120-1128 | The batch insert says which error it gives: a driver error when the driver fails; otherwise a constraint error iff an ID is missing, taken or occurs twice, or another constraint refuses a row; on an error the table is unchanged, and without one it holds the rows it had, the row of every spec, and no other |
| Chain.Mutate | internal/ent/chainofcustody_create.go:1105-1142 | Mutator i run on the heap, from any hook of its stack, has the effect on builders, mutations, arrays, table and event log, and the result, of the recursive function Run on values; n - i and the hooks left decrease |
| Chain.Core | internal/ent/chainofcustody_create.go:1106-1138 | The closure below the hooks: check first, then the builder takes over the mutation and fills slot i, then the next mutator or the insert, then the mutation is marked done, as Run says |
| Chain.EnterHook | internal/ent/chainofcustody_create.go:1139-1141 | The part of a hook before it calls on: the mutation edited in place (seen by its builder only if it is the builder's), replaced, or not passed on at all |
| BulkSave.BulkBuilder.Prepare | internal/ent/chainofcustody_create.go:1102-1143 | The loop of Save applies every builder's defaults and wraps its mutator in its hooks, the first outermost; it panics iff some builder has a nil hook |
| BulkSave.BulkBuilder.Save | internal/ent/chainofcustody_create.go:1095-1148 | Save leaves builders, mutations, table and log, and returns what BulkRun says; the stored error of MapCreateBulk and a panic leave the table alone |
| ChainProofs.Descends | internal/ent/chainofcustody_create.go:1105-1142 | The way through one builder: if a hook or the check blocks, nothing but the log and this builder's draft changes; otherwise the core runs on the mutation that arrives, and the result is handed up through all its hooks |
| ChainProofs.SlotsAre | internal/ent/fleet_create.go:744-777 | For every builder j: its slots are filled iff it and the builders before it let the call through, with its own node and row, and its mutation is done with its node's ID iff in addition everything below it succeeded |
| ChainProofs.TableIs | internal/ent/fleet_create.go:757-767 | The table gains the rows of all builders if all are clear and the insert succeeds, and is unchanged in every other case |
| BulkTheorems.BulkIs | internal/ent/chainofcustody_create.go:1095-1148 | The whole effect of a bulk save, for any builders and hooks, read off each builder on its own: event trace, table, result, nodes, specs and mutations |
| BulkTheorems.TraceIsNested | internal/ent/chainofcustody_create.go:1105-1142 | Hooks are left in the reverse of the order they were entered in, for every trace: replayed against a stack it ends where it began |
| BulkTheorems.BatchOnceIffAllClear | internal/ent/chainofcustody_create.go:1119-1128 | The batch insert is attempted exactly once if every hook and every check lets the call through, and never otherwise |
| BulkCallers.ReplyTransparent | internal/ent/chainofcustody_create.go:1129-1131 | Through hooks that hand results on, the error of the insert, or of the lowest builder that blocks, reaches the caller unchanged |
| BulkCallers.LowestBlockDecides | internal/ent/fleet_create.go:733-786 | If some builder blocks, the lowest one decides: no row is inserted, exactly the slots before it are filled; with an error, that error is returned and no mutation becomes done; with a value, the save succeeds and the mutations before it are done |
| BulkCallers.ClearBuildersDecide | internal/ent/fleet_create.go:733-786 | If no builder blocks: either every row is stored, every node returned, every mutation done with the ID of its own node, or nothing is stored, the insert's error is returned and no mutation becomes done; every spec slot was filled |
| BulkCallers.SuccessTrace | internal/ent/chainofcustody_create.go:1105-1142 | A successful save, event by event: for i = 0..n-1 the hooks, check and spec of builder i; one batch; then from n-1 to 0 the mark and the hooks back |
| BulkCallers.SavedMeansInsertedIff | internal/ent/fleet_create.go:733-786 | For any hooks: rows are inserted iff every builder is clear and the insert is accepted; and the caller is told so truly iff, on the way up, the result is turned from success to error or back an even number of times and no hook ended the chain with a value, or an odd number of times and one did |
| BulkCallers.ReplyFlips | internal/ent/chainofcustody_create.go:1129-1141 | For any hooks the chain answers with a success iff its turning point (the lowest builder that blocks, or the insert) was one and it was turned round an even number of times |
| BulkCallers.KindKeptMeansInsertedIff | internal/ent/fleet_create.go:733-786 | With hooks that hand back a success for a success and an error for an error, success is reported truly iff no hook ends the chain with a value of its own |
| BulkCallers.ShortCircuitSavesNothing | internal/ent/fleet_create.go:778-785 | A hook that answers by itself: success, a nil node, an empty table |
| BulkCallers.OneHook | internal/ent/fleet_create.go:733-786 | For one builder and one hook that calls on, over any table and database: the row is stored iff the insert is accepted, and the hook has the last word on the result |
| BulkCallers.LateRejectionKeepsTheRow | internal/ent/fleet_create.go:770-781 | A hook that rejects after the fact: an error, with the row in the table |
| BulkCallers.SwallowedErrorSavesNothing | internal/ent/fleet_create.go:762-773 | A hook that hides the insert's error: success, with an empty table |
| SingleSave.Save | internal/ent/fleet_create.go:173-176 | Create().Save leaves the mutation and the table, and returns what SaveOne says |
| SingleSave.SaveWithoutHooks | internal/ent/fleet_create.go:274-295 | Without hooks, for any draft of the typed setters: the error of the check, then the driver's, then a constraint error for a missing or taken ID or a refused row, each with nothing stored; or else the struct, with its row added to the table and the mutation marked done |
| SingleSave.FleetIsSavedIff | internal/ent/fleet_create.go:173-295 | A fleet is created iff the caller has set its tenant, slug and name and the database takes the row |
| SingleSave.NilHookStops | internal/ent/ent.go:572-576 | A nil hook anywhere in the list is an error, and nothing is run, checked or stored |
| SingleSave.OwnAnswerIsHandedOn | internal/ent/ent.go:577-586 | A hook that answers by itself: its error or node is handed to the caller, any other value is an unexpected node, and nothing is stored |
| SingleSave.Mutate | internal/ent/ent.go:556-587 | The nested mutators of one builder on the heap, with the mutation copied into the builder's before check, createSpec and insert, equal the recursion RunHooks on values |
| BulkVsSingle.SingleStoresIff | internal/ent/ent.go:562-577 | For any hooks, a single save stores the row of the mutation that was handed on and marks it iff no hook returns early, that mutation passes the check and the database accepts the row; otherwise the table is unchanged |
| BulkVsSingle.SingleIs | internal/ent/fleet_create.go:274-295 | Through hooks that only refuse, the single save returns the refusal, the check's error, the insert's error or the node, in this order |
| BulkVsSingle.SinglesSucceedIff | internal/ent/fleet_create.go:274-295 | Through hooks that only refuse, saving one after another succeeds iff every single save is clear and the database would accept all rows together |
| BulkVsSingle.SinglesLeave | internal/ent/fleet_create.go:274-295 | Successful single saves leave all rows, return each builder's node and mark each mutation |
| BulkVsSingle.BulkSucceedsIff | internal/ent/fleet_create.go:733-786 | Through hooks that only refuse, the bulk save succeeds iff all builders are clear and the insert is accepted, and otherwise leaves the table |
| BulkVsSingle.BulkEqualsSingles | internal/ent/fleet_create.go:733-786 | Through hooks that pass on, with any mutation, or refuse: when both succeed they leave the same table, nodes and mutations; a failed bulk save stores nothing; and they succeed or fail together iff a hook refuses, or the rows are refused, or the drafts the builders hold all pass the check exactly when the drafts handed on do |
| BulkVsSingle.AgreeingChecksSucceedTogether | internal/ent/fleet_create.go:750-754 | If the check agrees on the two drafts of every builder, the bulk save succeeds iff the single saves all do |
| BulkVsSingle.InPlaceHooksAgree | internal/ent/fleet_create.go:750-754 | Hooks that hand on the mutation they were given, edited or not, make the two checks agree |
| BulkVsSingle.ChecksAgreeIff | internal/ent/fleet_create.go:750-754 | For one builder with any hooks, Save of a bulk and Create().Save leave the same table iff a hook returns early, or the database refuses the row, or the check does not tell apart the draft of the builder's mutation and the draft that is handed on |
| BulkVsSingle.BulkStoresWhatSinglesRefuse | internal/ent/fleet_create.go:750-754 | A fleet without a name, handed on by a hook, is refused by a single save and stored by a bulk save |
| HookStack.WithHooks | internal/ent/ent.go:559-577 | The loop from the last hook to the first builds the right fold h0(h1(...(exec))), and no mutator at all iff the list has a nil hook |
| HookStack.FoldRunsHooks | internal/ent/ent.go:562-583 | The nested closures of the fold do what the recursion over the stack does, on every mutation and table |
| HookStack.HookList.Use | internal/ent/client.go:1168-1172 | Use appends its hooks to the list |
| HookStack.UseComposes | internal/ent/client.go:1168-1172 | Registering xs and then ys puts xs outside ys, for every mutator |
| Query.QuerySpecColumns | internal/ent/chainofcustody_query.go:451-463 | The loop of querySpec computes the column list QueryColumns |
| Query.IdFirstAndForeignKey | internal/ent/chainofcustody_query.go:444-463 | For every projection the ID comes first and exactly once, the foreign key of an eager-loaded edge is selected, and otherwise exactly the requested columns are |
| Query.QueryBuilder.All | internal/ent/fleet_query.go:381-430 | Fails iff a requested column is unknown, naming the first one. Otherwise node j is the row at position offset + j among the rows that meet the predicates, in the table's order, read through the projection, and there are as many as are left from the offset on, or as the limit allows (zero is none) |
| Query.PageOf | internal/ent/fleet_query.go:545-550 | The same for the rows behind First, Only and IDs, under any limit: the page is said by positions in the table, not by filtering and slicing |
| Query.PagesAreTheQuery | internal/modules/tasks/service.go:606-613 | Paging with one limit and growing offsets, from any offset to the end, gives exactly the rows of the query without a limit from there on: every matching row once and in order, none repeated, none skipped |
| Query.QueryBuilder.IDs | internal/ent/fleet_query.go:231-240 | IDs adds the ID to the projection and leaves it there. Without a projection it gives the IDs of the page: those at offset + j among the matching rows, where a limit of zero is taken at its word and an offset without a limit allows 0x7FFFFFFF; with one it fails |
| Query.QueryBuilder.Only | internal/ent/fleet_query.go:159-172 | Only decides on at most two rows and leaves its limit on the builder |
| Query.QueryBuilder.FirstID | internal/ent/fleet_query.go:135-146 | FirstID is the first of IDs under a limit of one, or not-found, and leaves both the limit and the ID column on the builder |
| Query.QueryBuilder.Exist | internal/ent/fleet_query.go:270-280 | Exist asks FirstID, maps not-found to false, hands every other error on, and leaves limit and ID column on the builder |
| Query.QueryBuilder.Clone | internal/ent/fleet_query.go:293-311 | A clone is a new builder with the same state |
| Query.OnlyDecidesByTheFullCount | internal/ent/fleet_query.go:159-172 | For any table, predicates, order and offset, Only gives the node, not-found or not-singular as the unlimited count is 1, 0 or more |
| Query.QueryBuilder.First | internal/ent/fleet_query.go:113-122 | First decides on at most one row and leaves its limit on the builder |
| Query.FirstIsTheFirst | internal/ent/fleet_query.go:113-122 | First gives the first row of the unlimited query, or not-found iff there is none |
| Query.ExistIffSomeRow | internal/ent/fleet_query.go:270-280 | Exist gives an answer iff the builder has no projection, and then true iff the unlimited query has a row; with a valid projection it fails on the columns that are selected beside the ID |
| Query.SecondExistFails | internal/ent/fleet_query.go:368-374 | A second Exist on one builder fails, for every table |
| Query.FirstIDIsTheFirst | internal/ent/fleet_query.go:135-146 | Without a projection FirstID gives the ID of the first row of the unlimited query, or not-found iff there is none |
| Query.GetIsNeverNotSingular | internal/ent/client.go:1253-1255 | Get by primary key is never not-singular, and finds a node iff a row has the ID |
| Query.ExistNarrowsTheBuilder | internal/ent/fleet_query.go:135-146 | After Exist, All on the same builder returns only the first of its rows; all of them iff it has at most one |
| EagerLoad.IndexNodes | internal/ent/fleet_query.go:452-460 | The first loop collects all IDs, gives every node an empty list, and its map sends each ID to the last node that has it |
| EagerLoad.Distribute | internal/ent/fleet_query.go:471-478 | The second loop gives each node its share of the rows before the first one with an unknown key, and reports that key |
| EagerLoad.FirstStrayIs | internal/ent/fleet_query.go:471-476 | The row that stops the loop is the first whose key no node has |
| EagerLoad.LoadChildren | internal/ent/fleet_query.go:451-480 | loadMembers on the heap: on a query error every list is empty; otherwise each node has its share, and the unexpected-foreign-key error names the first stray row |
| EagerLoad.KeyIsRead | internal/ent/fleet_query.go:461-463 | Under every projection that requests it or adds it for the edge, the join key is read as it is stored |
| EagerLoad.JoinKeys | internal/ent/fleetmember.go:213-218 | The foreign keys of members, vehicles and custody events are plain UUID fields, as the join requires |
| EagerLoad.UnexpectedKeyIsUnreachable | internal/ent/fleet_query.go:471-476 | For every projection, predicates, limit, offset and table the unexpected-foreign-key error does not occur |
| EagerLoad.EagerLoadIsTheJoin | internal/ent/fleet_query.go:451-480 | For every projection, predicates and table, and a query without a page of its own, each node gets the reads of exactly the rows that meet the predicates and whose stored foreign key is its ID, in the table's order, which is what the same query for this node alone returns; of several nodes with one ID only the last does, and the others get none |
| EagerLoad.EagerColumns | internal/ent/fleet_query.go:461-463 | The rows are read with all columns, or with the requested ones, the ID and the foreign key, and no others |
| EagerLoad.SharesPartition | internal/ent/fleet_query.go:471-478 | The lists of all nodes together are the returned rows: none lost, none handed out twice |
| EagerLoad.PageIsShared | internal/ent/fleet_query.go:467-478 | For a query with any limit and offset, every node has the rows it would have without them iff the page keeps every row that matches: none does, or there is no offset and the limit is none or large enough |
| EagerLoad.LoadEdge | internal/ent/fleet_query.go:433-480 | Eager loading from a table, on the heap: no error; and without limit and offset node i ends up with the reads of exactly the table rows that meet the predicates and whose stored foreign key is its ID, in the table's order, or with none if a later node has its ID |
| EagerShipment.AskedOnce | internal/ent/chainofcustody_query.go:406-415 | The keys asked for are the distinct foreign keys of the nodes, in the order in which they first occur |
| EagerShipment.GroupNodes | internal/ent/chainofcustody_query.go:406-415 | The first loop lists each key once, in order of first occurrence, and its multimap holds for each key exactly the nodes that have it |
| EagerShipment.ShareOut | internal/ent/chainofcustody_query.go:423-431 | The second loop gives each node the last returned shipment with its key, up to the first unexpected one, which it reports; other nodes keep what they had |
| EagerShipment.LoadShipment | internal/ent/chainofcustody_query.go:405-433 | loadShipment on the heap, with its early return and both errors |
| EagerShipment.SqlAll | internal/ent/chainofcustody_query.go:370-403 | The custody query builds one fresh struct per row, in order, reads it through the projection, records whether the edge was requested, and joins the shipments by the stored keys |
| EagerShipment.EagerShipmentIsTheJoin | internal/ent/chainofcustody.go:67-76 | For any predicates and page of the shipment query, the unexpected-foreign-key error does not occur; ShipmentOrErr gives the shipment the row refers to if the query returns it, otherwise not found, and never not loaded; the shipment is a row of the table with this ID that the query's predicates admit |
| EagerShipment.CustodyWithShipments | internal/ent/chainofcustody_query.go:370-403 | The eager custody query from its two tables, on the heap, for any shipment query: it succeeds, and ShipmentOrErr of each struct gives the shipment its row refers to if the query returns it, and not found otherwise; what it gives is a row of the table that the query's predicates admit, and if its page keeps all, every such row is given |
| Migrate.Database.BaselineAtlasIfNeeded | cmd/migrate/main.go:117-200 | For a failure after any number of statements: an existing table, an empty directory and a nil directory change nothing. Otherwise h executed statements leave no table for h < 2, and else the rows of the h - 2 oldest files; |files| + 1 of them are enough, and then every file but the newest has its row. Each row is its file: version + ".sql" is the name, the name is the description, the hash that of atlas.sum or empty |
| Migrate.InsertNext | cmd/migrate/main.go:184-190 | ON CONFLICT DO NOTHING on a prefix of the rows: inserting a row again does nothing, inserting the next one appends it |
| Migrate.VersionsDiffer | cmd/migrate/main.go:181-181 | Different migration files have different versions |
| MigrateProtocol.StepKeepsLock | cmd/migrate/main.go:65-73 | Every step of every pod, crashes, restarts and lost sessions without the lock included, keeps the lock with the one pod in its critical section and ties the table to that pod's progress |
| MigrateProtocol.MutualExclusion | cmd/migrate/main.go:51-73 | For any number of pods, any interleaving and any crashes, as long as every session that is lost is one without the lock, at most one pod is between lock and unlock |
| MigrateProtocol.BreakableIff | cmd/migrate/main.go:60-73 | The condition is exact: where exclusion holds, losing a pod's session lets some continuation, with no further lock session lost, break it iff that pod holds the lock and there is another pod |
| MigrateProtocol.BreaksIn | cmd/migrate/main.go:60-73 | After the lock holder's session is lost, one statement of any waiting pod breaks exclusion; a pod that is done needs a restart before |
| MigrateProtocol.LostSessionLetsTwoIn | cmd/migrate/main.go:60-67 | A run from the start, with one session of a lock holder lost, in which two pods are between lock and unlock |
| MigrateProtocol.RowsAreAlwaysAPrefix | cmd/migrate/main.go:172-196 | At every moment of every run, lost sessions included, row i is that of files[i], with its name and hash, there are fewer rows than files, and the newest file is not among them |
| MigrateTheorems.TableIsFinal | cmd/migrate/main.go:118-128 | Once the table exists and nobody is filling it, no continuation of the run that keeps the lock's session changes a row |
| MigrateTheorems.TornByACrash | cmd/migrate/main.go:172-196 | The history flag is exact: the table is torn iff some action of the run was the death of a pod that still had rows to insert |
| MigrateTheorems.CompleteIffNotTorn | cmd/migrate/main.go:117-200 | While the lock's session is kept, the settled table has a row for every file but the newest, |files| - 1 in all, now and after any continuation, iff no pod died while filling it |
| MigrateTheorems.UntornIsComplete | cmd/migrate/main.go:117-200 | For every run, lost sessions included: a table that no pod is filling, and that no pod died while filling, has the row of every file but the newest |
| MigrateTheorems.AlonePodRunsTheBaseline | cmd/migrate/main.go:96-98 | The protocol steps of a lone pod leave the table that baselineAtlasIfNeeded leaves after as many statements, and have not passed the baseline iff it fails |
| MigrateTheorems.AnyRunEndsAsOne | cmd/migrate/main.go:51-112 | While the lock's session is kept: when some pod has finished and none died while filling the table, the schema is migrated and the table is the one that a single undisturbed pod leaves, with the row of every file but the newest |
| MigrateTheorems.AnyUntornRunEndsAlike | cmd/migrate/main.go:51-112 | For every run, lost sessions included: once a pod has finished, none is filling the table and none died while filling it, the schema is migrated and the table is the one a single undisturbed pod leaves, but for the times of the rows |
| MigrateTheorems.SomeoneCanProceed | cmd/migrate/main.go:65-73 | No deadlock: at every moment of every run, lost sessions included, while a pod is not done some pod can proceed |
| MigrateTheorems.ProceedingIsProgress | cmd/migrate/main.go:51-112 | No livelock: every statement that has an effect lowers the work the pods have left, lost sessions or not |
| MigrateTheorems.EveryoneCanFinish | cmd/migrate/main.go:51-112 | From every state any run reaches, lost sessions included, the pods that are alive can all finish, in at most as many statements as they have left |
| AtlasSum.ParseAtlasSum | cmd/migrate/main.go:216-227 | The loop over the lines computes the fold of the lines into the map |
| AtlasSum.ParseInvertsPrint | cmd/migrate/main.go:204-228 | Parsing header and blank lines, `name hash` lines, and lines of one word or of three and more, with any white space around and between the parts, gives the map that the `name hash` lines stand for |
| AtlasSum.LastLineWins | cmd/migrate/main.go:222-225 | That map holds exactly the printed names, each with the hash of its last line |
| AtlasSum.BaselineCarriesPrintedHash | cmd/migrate/main.go:182-182 | Every baselined row carries the hash that the sum file prints for its migration |
| SeedStore.Store.EnsureOnePermission | cmd/seed/main.go:159-186 | One round of check-then-create: a permission that exists is kept, an absent one is created, a failed statement leaves the tables alone |
| SeedStore.Store.SeedPermissions | cmd/seed/main.go:148-216 | The nested loops and the extra permission execute the permission steps in order, all of them on success and a beginning of them otherwise |
| SeedStore.Store.SeedRateLimitConfigs | cmd/seed/main.go:219-273 | The same for the rate limits |
| SeedStore.Store.RemovePrefix | cmd/seed/main.go:115-133 | Grants of the retired permissions are deleted before the permissions; an interruption leaves neither, the first or both done |
| SeedStore.Store.RemoveRetiredSeedRows | cmd/seed/main.go:114-145 | The loop over the prefixes and the delete of the retired config rows execute the retiring steps in order |
| SeedStore.Store.SeedServiceConfigs | cmd/seed/main.go:276-326 | The same for the platform configs; tenant rows are not looked at |
| SeedStore.Store.RunSeed | cmd/seed/main.go:78-92 | Whenever runSeed ends it has executed a beginning of the program, all of it iff it reports success, which it does whenever the database executes two statements a step. On success, said of the four tables: every module and action has its permission, and so has the override; every rate limit and platform config is there, with the seeded value where its key was free; no retired code, key or grant is left; other rows are as they were; nothing else is new |
| SeedOutcome.SeedingIsDone | cmd/seed/main.go:78-326 | The outcome of the general theorems, for the program of cmd/seed, is this description of the tables, which mentions no steps |
| SeedOutcome.GridSeedIs | cmd/seed/main.go:161-183 | The permission of a module and an action: its code, its module, which is also its resource, its action, and the name of the capitalized module and the action with spaces for underscores |
| SeedProgram.ProgramIsSafe | cmd/seed/main.go:94-110 | The seeded modules and keys are disjoint from the retired ones, no key is seeded twice, and grants are dropped right before their permissions |
| SeedTheorems.CompleteRunSeeds | cmd/seed/main.go:78-92 | After a complete run retired rows and their grants are gone, every other row has the value it had (admin edits, tenant overrides), and the seeded rows whose key was free are there, and nothing else |
| SeedTheorems.Converges | cmd/seed/main.go:78-92 | Any number of interruptions, each after any write, and then one complete run leave the rows of one undisturbed run, but for generated permission IDs |
| SeedTheorems.Idempotent | cmd/seed/main.go:148-148 | A further complete run changes nothing, generated IDs included |
| SeedTheorems.IntegrityAtEveryMoment | cmd/seed/main.go:125-131 | After every single write no grant refers to a missing permission |
| SeedTheorems.OneOutcome | cmd/seed/main.go:78-92 | The table-by-table description of complete seeding has one solution |
| SeedStore.SeedingConverges | cmd/seed/main.go:78-145 | All of this for the program of cmd/seed: integrity before and after, the undisturbed outcome, every seeded row there and nothing retired left, other rows kept, further runs without effect |
| Zones.Tenant.SeedZones | cmd/seed-delivery-zones/main.go:193-235 | The loop over the areas in all four modes, stopped after any area by a failure |
| Zones.NamesAfterSeeding | cmd/seed-delivery-zones/main.go:209-230 | A dry run changes nothing in any mode; otherwise exactly the absent names are added and none disappears, overwrite or not |
| Zones.AdminEditsWin | cmd/seed-delivery-zones/main.go:211-213 | Without overwrite every existing zone keeps its value, and a new one has the fee, free flag, settings, status (active if the area has none) and price color of the first area of its name |
| Zones.OverwriteReplaces | cmd/seed-delivery-zones/main.go:214-222 | With overwrite a zone with an area has the fee, free flag, settings, status and color of the last area of its name, in its old type, and every other zone keeps its value |
| Zones.ResumesAndIsIdempotent | cmd/seed-delivery-zones/main.go:193-235 | Running again after an interrupted or complete run ends where one run ends, in both modes |
| Zones.FilterAreas | cmd/seed-delivery-zones/main.go:269-282 | The two loops keep the areas whose lower-cased name is among the trimmed, lower-cased, non-empty parts of the list |
| Zones.WantedAreTheNames | cmd/seed-delivery-zones/main.go:269-275 | For entries separated by commas, with any white space around them, the wanted names are those of the entries, lower-cased, without the empty ones |
| Zones.KeptAreNamed | cmd/seed-delivery-zones/main.go:269-282 | An area is kept iff the list names it, without regard to case and to the white space around a name |
| Zones.EveryListHasEntries | cmd/seed-delivery-zones/main.go:271-272 | Every string is such a list of entries |
| Zones.KeptInOrder | cmd/seed-delivery-zones/main.go:276-281 | The kept areas are the order-preserving subsequence of the preset at the wanted positions |
| Zones.PositionsAreWanted | cmd/seed-delivery-zones/main.go:276-281 | These are all positions whose name is wanted, and no others |
| Zones.OnlyWantedZonesChange | cmd/seed-delivery-zones/main.go:267-282 | With a filter, in any mode, a zone whose name is not wanted keeps its value and none is created |

## Left out

- Chain.Mutate: a hook sees the mutation once, when it is entered; what it does with the outcome that comes back may depend on what it saw then, but a hook that reads or edits the mutation again after the next mutator has returned is not modelled.
- Hooks that call the next mutator more than once, that keep it for later, or that pass a mutation of another entity: a hook is one call at most, with a mutation of its entity.
- Sharing: two entries of a bulk save that are the same builder, or two builders with one mutation object, are excluded (`Distinct`), and a hook replaces a mutation only by a new one.
- BulkSave.BulkBuilder.Save: without conflict options; the upsert builders and the guard in their bulk `Exec` are not modelled, and neither are the results of the `Exec` and `X` variants.
- ReadBack.ReadsWhatWasCreated: the O2M edges in `createSpec` (a fleet's members and vehicles, a member's assignments and ratings, a vehicle's members), which update rows of other tables, are not part of the row.
- Query.QueryBuilder.All: interceptors, traversal paths, `Unique`, `GroupBy` and aggregates; the order of the query is the order of the table it is given.
- Query.QueryBuilder.Clone: the state is predicates, limit, offset and projection; the copied order, interceptors and eager-load queries are not part of it.
- Query.QueryBuilder.IDs: that scanning several columns into a list of IDs is an error, before any row is read, is the SQL library's doing and taken as given.
- ReadBack.NodeObject.AssignValues: `json.Unmarshal` of `metadata` is taken to succeed and to replace the field; for two different documents in one repeated column it would merge them.
- EagerLoad.LoadChildren: the neighbours are the entities whose column tables are transcribed, among them members, vehicles and custody events.
- EagerShipment.EagerShipmentIsTheJoin: the columns of the shipment table are not transcribed; all that is used of the way its rows are read is that the ID is read as stored.
- internal/ent/ent.go: `withInterceptors`, `MaskNotFound` and the error predicates, which say little beyond their bodies.
- SQL, drivers, `sqlgraph`, `Schema.Create` and Atlas are library code that is not part of this model: an insert, query or delete is one atomic table operation, a batch insert stores all rows or none, and `Schema.Create` is one step.
- Times and JSON documents are opaque values that are read back as they were written.
- MigrateProtocol.MutualExclusion: all pods run one release, and a session is lost between statements; `RESET_DB` and the index drop are not modelled.
- Seeding assumes a single seeder, since the code takes no lock; the tenant sync and the system roles of the seed command are called from it but not modelled. Generated IDs and timestamps are kept only where another row refers to them.
- Zones.Tenant.SeedZones: `CreateZone` and `UpdateZone` are a keyed insert and update; zone geometry and `seedPolicy` are not modelled, and `strings.ToLower` is a parameter.
- internal/app/app.go, internal/config, internal/middleware and cmd/api: wiring and I/O.
