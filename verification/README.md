# Verification of the generated persistence layer

This project models the generated persistence code under `ent/`: the create
builders with their hooks and bulk saves, the query builders with the two
statements a query is lowered to, the row codec of an entity, and the registry
of hooks and interceptors that clients share. Entities are lists of columns
(`Schema`), instantiated with CodexTurnIntent and, for the two ways in which the
database assigns IDs, with AuditLog and PlatformSetting.

`dafny verify dfyconfig.toml` checks everything.

## How it is laid out

| file | what it holds |
|---|---|
| `Schema`, `CodexTurnIntent`, `AssignedIdEntities` | columns, `defaults()`, `check()` and `createSpec()` as functions of the column list; the three entities |
| `Runtime`, `Saves` | the meaning of a save: `Mutate`, `RunHook`, `Base` and `Inner` call each other as the closures of the Go code do, down to the batch write and back; `BulkSave` and `SingleSave` start it |
| `ChainCoherence`, `CallCounting`, `SkippedCalls`, `Relaying`, `Retrying`, `Nesting`, `Absorbing`, `QuietSave`, `SingleRefinement`, `CheckedSpecs`, `Editing`, `BuilderIds`, `EntityIds` | what holds over whole runs of a save: order, counts, verdicts, checks, the edits of hooks, and IDs, also for the three entities |
| `BulkBuilder` | the save builders on the heap, which fill the `specs`, `nodes` and `mutators` slices; each method is proved equal to its function in `Runtime` or `Saves`, so that the results about runs hold of it; `SaveBulk` and `SaveSingle` make the objects and carry a save out from any valid start |
| `Compose` | the reverse loops that wrap a handler in hooks or interceptors |
| `QuerySemantics`, `QueryLaws`, `QueryBuilder` | the two lowerings and the rows they return; what a query returns row by row; the query builder on the heap |
| `Codec`, `CodexTurnIntentCodec` | `scanValues()`, `assignValues()` and the stored row; the switches of CodexTurnIntent |
| `Slices`, `Registry` | Go slices over shared arrays; the registries that clients derived from one root append to |
| `ColumnSelection` | the column lists of `UpdateOne` and of queries |
| `Wrappers` | the option type, and lists of options |

A hook is a strategy. Given the mutation it received, everything it can see (all
mutations, all nodes, the trace so far) and everything it has seen since it was
entered (the same, before each of its calls to `next`, and what that call returned),
it edits mutations and then calls `next` with any mutation, or stops with any
outcome. Mutations and nodes are handles into pools, so that the aliasing of
`mutation.id` to a node's ID field is part of the model. The trace of events is
there for stating properties; hooks may depend on it. The database is a function
of the trace and the batch that accepts with IDs or refuses.

## What was found

* A bulk save calls `check()` on the mutation its builder held before and then
  creates from the mutation it was passed. With a hook that passes another
  mutation it can create a spec that `check()` would refuse. The single save
  adopts first and does not. When exactly, at any position of any bulk and for whole
  saves: `CheckedSpecs.RedirectedBase`, `CheckedSpecs.RedirectedBulk`,
  `CheckedSpecs.RedirectedSave`, `CheckedSpecs.RedirectedSingle`, with the input in
  `CheckedSpecs.UncheckedSave`.
* A hook that skips `next` and reports success leaves nil entries in the slice a
  bulk save returns, with a nil error (`SkippedCalls.SkippedSave`): a save that reports
  success has no nil entry if and only if the batch was written
  (`SkippedCalls.FilledIffWritten`).
* A hook that drops an error makes the save report success although nothing was stored
  (`Nesting.SwallowedFailure`). When each hook calls `next` once and relays or absorbs
  its verdict, success is reported if and only if the batch was stored or an absorbing
  hook was entered, and, when nothing is refused on the way in, if and only if the batch
  was stored or there is such a hook (`Absorbing.SavedIffStoredOrAbsorbed`,
  `Absorbing.FailureIsDroppedIffAbsorber`).
* `Limit(0)` is no limit for `All` but an empty result for `IDs`, and an offset
  without a limit caps `IDs` at MaxInt32 rows, which `All` does not do unless the runner
  of query specs does it; `IDs` is the IDs of `All` if and only if neither matters
  (`QuerySemantics.IdsAreIdsOfAll`, `QuerySemantics.LimitZero`).
* The ID forms (`IDs`, `FirstID`, `OnlyID`, `Exist`) leave the ID selected on the
  builder. A second one selects it twice and fails to scan
  (`QuerySemantics.IdFormsSpendTheBuilder`).
* A NULL leaves a field alone, except in the columns scanned into a plain UUID,
  where it overwrites the field with the zero UUID
  (`CodexTurnIntentCodec.NullSupplies`). A JSON object is merged into the map that is
  there, so that a repeated column shows the last object over the earlier ones
  (`Codec.LastSupplyWins`).

## What is assumed of the surroundings

* The database answers a batch with one ID for each spec, keeps the IDs it is given,
  gives one to every other row, and never makes up a UUID
  (`SingleRefinement.HonestReply`). A batch of one spec behaves like a single create.
* A query is filter, order, project, DISTINCT, offset, limit, in that order. A limit
  or offset of 0 in a query spec is none. Whether the runner of query specs adds a limit
  of MaxInt32 to an offset without one is left open (`QuerySemantics.Engine.capsOffset`);
  it adds no other limit. Ordering only reorders, and depends on the
  rows and the terms alone. Rows of the table, and of a traversal, with equal IDs are
  equal (`QuerySemantics.SoundEngine`). Scanning into a list of IDs needs exactly one
  column.
* JSON encoding and decoding are inverse. What `json.Unmarshal` leaves in a field whose
  text it rejects is left open (`Codec.Table.rejected`). The generating default functions return
  values of their columns' types.

## Model

| member | source | states |
|---|---|---|
| `Schema.DefaultsFillOnlyGaps` | ent/codexturnintent_create.go:690-775 | `defaults()` keeps every set field as it is, and afterwards exactly the fields set before and the defaulted columns are set |
| `Schema.DefaultsAreTheColumns` | ent/codexturnintent_create.go:690-775 | an unset column ends with its constant default, by value, or with what its generating function returned; one without a default stays unset |
| `CodexTurnIntent.IntentDefaults` | ent/codexturnintent_create.go:690-770 | what `defaults()` sets for CodexTurnIntent, value by value (status "queued", priority 100, max_attempts 3, ...), the three generated times, and nothing else |
| `AssignedIdEntities.AuditLogDefaults` | ent/auditlog_create.go:152-161 | for AuditLog, metadata to an empty object and created_at, and nothing else |
| `AssignedIdEntities.PlatformSettingDefaults` | ent/platformsetting_create.go:97-106 | for PlatformSetting, version to 1 and updated_at, and nothing else |
| `Schema.SpecFieldsInOrder` | ent/codexturnintent_create.go:883-1097 | the spec has exactly the set fields, each once, with their values, in column order |
| `Schema.NodeFieldIs` | ent/codexturnintent_create.go:883-1097 | the node has each set field, and otherwise nil for a pointer and the zero value of the Go type |
| `Schema.DefaultsIdempotent` | ent/codexturnintent_create.go:690-775 | a second `defaults()` changes nothing, even if it would generate other values |
| `Schema.MissingIsFirst` | ent/codexturnintent_create.go:778-858 | `check()` passes iff every required field is set, and otherwise names the first unset one in schema order |
| `Schema.CheckAfterDefaults` | ent/codexturnintent_create.go:663-663 | for any entity, `check()` after `defaults()` fails exactly on the required columns without a default that the caller left unset, and names the first |
| `CodexTurnIntent.CheckNamesFirstOfSix` | ent/codexturnintent_create.go:778-858 | for every mutation, `check()` after `defaults()` fails iff one of control_id, sequence_no, source_type, agent_profile_id, idempotency_key, instruction is missing, naming the first in that order |
| `CodexTurnIntent.CheckNamesFirst` | ent/codexturnintent_create.go:778-858 | `check()` by itself, for any mutation, names the first unset one of its 26 fields, in order |
| `AssignedIdEntities.AuditLogDemands` | ent/auditlog_create.go:152-178 | the same for AuditLog: only action and resource_type can be missing |
| `AssignedIdEntities.PlatformSettingDemands` | ent/platformsetting_create.go:97-123 | the same for PlatformSetting: only setting_key and value can be missing |
| `Runtime.Mutate` | ent/codexturnintent_create.go:1147-1149 | with any hooks, a call of a mutator keeps the state well-formed, loses no mutation, node, event or filled slice entry, and terminates |
| `ChainCoherence.BatchSeesEveryBuilder` | ent/codexturnintent_create.go:1118-1138 | any number of builders, any hooks: whenever the batch write is reached, all builders have been created in order, no entry is nil, and entry j is the spec of builder j's latest creation with the IDs of the writes since; at the end `specs` and `nodes` are a function of the trace |
| `CallCounting.CallsAreConserved` | ent/codexturnintent_create.go:1129-1149 | with hooks of fixed call counts, whatever checks and writes do, position k is entered exactly as often as position k-1 created times the product of k's counts, and each creation at the last position leads to exactly one write |
| `CallCounting.WritesAreProduct` | ent/codexturnintent_create.go:1129-1149 | if no check fails, the batch write runs as often as the product of all call counts over all builders and hooks |
| `CallCounting.OnceEachIsOneWrite` | ent/codexturnintent_create.go:1129-1149 | in particular exactly once when every hook calls `next` once |
| `CallCounting.NodesFilledIffHooksCall` | ent/codexturnintent_create.go:1158-1158 | with fixed counts and no refusal in the run, the slice a successful save returns has no nil node iff no hook skips `next` |
| `SkippedCalls.WritesAreLastCreations` | ent/codexturnintent_create.go:1129-1138 | with any hooks, the batch is written exactly as often as the last position is created |
| `SkippedCalls.FilledIffWritten` | ent/codexturnintent_create.go:1152-1158 | with any hooks, a bulk save that reports success returns no nil node iff the batch was written |
| `SkippedCalls.SkippedSave` | ent/codexturnintent_create.go:1152-1158 | the input: with a skipping hook outermost at the first position every bulk save reports success and returns nothing but nil nodes |
| `SkippedCalls.NothingRefused` | ent/codexturnintent_create.go:1119-1125 | when hooks pass on what they received and unset no field, and every builder was given the fields `defaults()` does not fill, no mutator refuses anything |
| `SkippedCalls.SaveFillsNodesIffHooksCall` | ent/codexturnintent_create.go:1129-1158 | by what a caller can check first (such hooks, fixed counts, fields given): the number of writes is the product of the counts, and success means no nil node iff no hook skips `next` |
| `Nesting.CallOnceIsNested` | ent/codexturnintent_create.go:1114-1157 | with hooks that call `next` once, whatever they make of its verdict, the trace is a prefix of the way in (hooks in registration order, then the creation, builder by builder), one turning point (the write, or the first refused creation) and the exact mirror image of that prefix, in which a position is marked done iff the run inside it reported success; each step's verdict is the hook's, and the outermost is the save's |
| `Nesting.BulkSaveIsNested` | ent/codexturnintent_create.go:1114-1157 | with relaying hooks all those verdicts are the turning point's: success iff it is a write that was accepted, and then every position on the way is marked, else none |
| `Nesting.BulkSaveVerdict` | ent/codexturnintent_create.go:1119-1158 | such a save succeeds iff the batch was stored; then no node is nil, every position completed and the mutation every builder holds is done; on failure no mutation is newly marked done; some creation was refused iff the write was never attempted |
| `Relaying.HeldAreDone` | ent/codexturnintent_create.go:1126-1144 | after success the mutations all builders hold in the end are done, also when hooks passed on others or builders repeat |
| `Relaying.IdsAfterSave` | ent/auditlog_create.go:288-293 | for relaying hooks with any edits of mutations and any mutations passed on: after a successful bulk save every position has a new node whose ID is its spec's, set unless only the builder makes IDs, and the ID the mutation had when created from is kept |
| `Retrying.IdsAfterRetries` | ent/auditlog_create.go:288-293 | the same for hooks that may call `next` again and succeed only if their last call did, with the ID of each position's last creation; and the mutations all builders hold are done |
| `Relaying.PointersAfterSave` | ent/auditlog_create.go:288-293 | if no hook sets an ID after `next`, the ID pointer of each completed mutation, set before the node's ID is written, reads the final ID of the node of the position that completed it last |
| `EntityIds.CodexTurnIntentIds` | ent/codexturnintent_create.go:1143-1144 | for CodexTurnIntent a node has the UUID its mutation had |
| `EntityIds.AuditLogIds` | ent/auditlog_create.go:288-293 | for AuditLog every node has an ID of the database, the caller's where one was given |
| `EntityIds.PlatformSettingIds` | ent/platformsetting_create.go:211-216 | for PlatformSetting every node has the ID the database answered with |
| `Nesting.MutateMarks` | ent/codexturnintent_create.go:1143-1145 | with any hooks, a mutation is done afterwards iff it was before or a completion event marked it |
| `Nesting.SwallowedFailure` | ent/codexturnintent_create.go:1153-1158 | the input: with a swallowing outermost hook the save reports success in every case |
| `Absorbing.SavedIffStoredOrAbsorbed` | ent/codexturnintent_create.go:1139-1158 | when every hook calls `next` once and relays or absorbs its verdict, a bulk save reports success iff the batch was stored or an absorbing hook was entered |
| `Absorbing.FailureIsDroppedIffAbsorber` | ent/codexturnintent_create.go:1119-1158 | by what a caller can check first (such hooks pass on what they received and unset no field, the fields are given): success iff the batch was stored or some position has an absorbing hook; over a database that refuses everything, iff there is such a hook |
| `Editing.EditsReachTheSpec` | ent/codexturnintent_create.go:1126-1128 | at any position of a save, whatever its innermost hook edits before its first call of `next` is in what is created inside it: each field and the ID as the last edit of it says, all else as it was |
| `Editing.LateEditsStay` | ent/ent.go:550-553 | what a hook decides after its call, from what it sees then, what it saw before, and the outcome, is done: its edits are on top of what `next` left, and its verdict is returned |
| `Editing.SecondCallRemembers` | ent/ent.go:547-549 | a hook that calls `next` again does so from what it then sees and remembers of the first call, and decides in the end from its memory of both |
| `Editing.StoppedHookDecides` | ent/ent.go:550-553 | a hook that does not call `next` has its edits made and its verdict returned, and nothing else happens |
| `Editing.CopierReachesTheSpec` | ent/codexturnintent_create.go:1126-1128 | for instance a value that a hook reads in one field and sets in another is in the spec |
| `Editing.BorrowerRestores` | ent/codexturnintent_create.go:1147-1149 | for instance a hook that sets a field for the duration of `next` leaves it as it was, whatever happens inside |
| `BuilderIds.StartIdsAreKept` | ent/codexturnintent_create.go:771-774 | with relaying hooks that pass on and set no ID before `next`, after a successful bulk save the spec and node of every position have the ID its mutation started with, or else, where builders make IDs, the one made for the first position holding that mutation; where builders make IDs no position is without one |
| `BuilderIds.SingleStartIdIsKept` | ent/codexturnintent_create.go:860-881 | the same for the single save |
| `Saves.NothingToSave` | ent/codexturnintent_create.go:1108-1110 | a bulk that could not be built returns its error and does nothing; an empty one succeeds without a write |
| `QuietSave.QuietBulkSave` | ent/codexturnintent_create.go:1107-1159 | with observing hooks the whole result in closed form: the first missing field over all builders and nothing changed; or the batch of all specs was written and refused with nothing changed; or every node, spec and mutation is as given |
| `QuietSave.ObservedIds` | ent/auditlog_create.go:288-293 | for observing hooks the same from the mutations held after `defaults()`: after success every node has its spec's ID, a given ID is kept, and the held mutation is done and its pointer reads the node's final ID |
| `QuietSave.IdsAfterStore` | ent/auditlog_create.go:288-293 | that result for one position, from the closed form of an accepted write |
| `QuietSave.MarkedAt` | ent/platformsetting_create.go:211-216 | when several positions hold one mutation, it ends up pointing at the node of the first, which is marked last |
| `SingleRefinement.BulkOfOneIsSingle` | ent/codexturnintent_create.go:860-881 | for hooks that pass on the mutation they received, a bulk save of one builder ends in the same state (trace, nodes, done and ID marks) as the single save and fails with the same error |
| `SingleRefinement.BulkOfOneReturnsTheNode` | ent/ent.go:550-558 | if the hooks also hand back the value of `next`, both succeed together and return the same node |
| `SingleRefinement.MutateAgrees` | ent/ent.go:535-546 | the mutators of the two saves, hook by hook, have the same outcome and final state |
| `CheckedSpecs.BulkCreatesChecked` | ent/codexturnintent_create.go:1123-1128 | when hooks pass on what they received, as often as they like and with any edits, a bulk save creates nothing `check()` would refuse |
| `CheckedSpecs.SingleCreatesChecked` | ent/ent.go:540-542 | the single save creates nothing unchecked under any hooks |
| `CheckedSpecs.RedirectedBase` | ent/codexturnintent_create.go:1123-1128 | at any position of any bulk, after anything: the base mutator, passed any mutation, creates from unchecked fields iff its builder's own mutation is complete and the one passed is not; if the own one is not, it does nothing but report the missing field |
| `CheckedSpecs.RedirectedBulk` | ent/codexturnintent_create.go:1123-1128 | the same for a mutator, at any position, with a redirecting hook around it |
| `CheckedSpecs.RedirectedSave` | ent/codexturnintent_create.go:1107-1159 | a bulk save whose builders redirect to given mutations creates nothing `check()` would refuse iff every mutation passed is complete at the positions up to the first builder whose own one is not |
| `CheckedSpecs.UncheckedSave` | ent/codexturnintent_create.go:1123-1128 | the input: one builder with a complete mutation that redirects to an empty one |
| `CheckedSpecs.RedirectedSingle` | ent/ent.go:540-542 | there the single save reports the field missing in the mutation it was passed |
| `CheckedSpecs.SingleAdoptsContents` | ent/ent.go:540-542 | and if nothing is missing there, the builder keeps its own mutation with that one's contents, marked after success, and the one passed stays as it was |
| `CheckedSpecs.DivertedIsRefused` | ent/codexturnintent_create.go:1119-1122 | a mutator to which a hook passes a mutation of another type fails with that error and does nothing else |
| `BulkBuilder.SaveBuilder.Save` | ent/codexturnintent_create.go:1107-1159 | the bulk save on the heap, with its three slices and its chain of closures, has the result and final state of `BulkSave`, to which all results above apply |
| `BulkBuilder.SaveBuilder.SaveOne` | ent/codexturnintent_create.go:662-665 | the single save on the heap: with a nil hook anywhere an error after `defaults()` and before any hook; otherwise the result and final state of `SingleSave` |
| `BulkBuilder.WrapPresent` | ent/ent.go:544-549 | the reverse loop of `withHooks` fails iff some hook is nil and otherwise nests the hooks in registration order |
| `BulkBuilder.SaveBuilder.constructor` | ent/codexturnintent_create.go:1100-1104 | builders, mutations and nodes that are distinct objects are ready for a save |
| `BulkBuilder.SaveBulk` | ent/codexturnintent_create.go:1107-1159 | from any valid start, on objects it allocates, a bulk save returns and leaves what `BulkSave` says |
| `BulkBuilder.SaveSingle` | ent/codexturnintent_create.go:662-665 | the same for the single save, nil hooks included |
| `BulkBuilder.SaveBuilder.Wrap` | ent/codexturnintent_create.go:1147-1150 | the reverse loop builds the mutator whose hooks are nested in registration order |
| `BulkBuilder.SaveBuilder.Create` | ent/codexturnintent_create.go:883-1097 | adopting a mutation and creating from it changes exactly the builder's mutation, one new node and entry i of both slices |
| `BulkBuilder.SaveBuilder.WriteBatch` | ent/codexturnintent_create.go:1132-1138 | the write hands the whole `specs` slice over; if accepted, exactly the IDs of the specs change, and its error is wrapped iff it is a constraint error |
| `BulkBuilder.SaveBuilder.Finish` | ent/auditlog_create.go:288-293 | completion aliases `mutation.id` to the node, then writes the node's ID, by policy, through that alias |
| `BulkBuilder.SaveBuilder.InvokeBase` | ent/codexturnintent_create.go:1118-1146 | the function literal: refuse other types, check, adopt, create, descend, mark, in that order, on the heap |
| `BulkBuilder.SaveBuilder.Perform` | ent/codexturnintent_create.go:1147-1153 | a hook, its edits and its calls of the mutator inside it, as often as it decides, on the heap |
| `BulkBuilder.SaveBuilder.Prepare` | ent/codexturnintent_create.go:1114-1151 | the loop gives every builder its defaults and every position its wrapped mutator |
| `Compose.WithInterceptors` | ent/ent.go:594-598 | the reverse loop is the composition with the first interceptor outermost, for lists of any length |
| `Compose.WithHooks` | ent/ent.go:535-549 | the same for hooks; it fails iff some hook is nil |
| `Compose.WrapConcat` | ent/ent.go:626-628 | wrapping with two lists in a row is wrapping with the first around wrapping with the second |
| `QuerySemantics.DedupMap` | ent/codexturnintent_query.go:371-375 | DISTINCT commutes with a projection that keeps rows apart |
| `QuerySemantics.BodiesAgree` | ent/codexturnintent_query.go:408-427 | selecting the ID alone gives the IDs of the full rows, after filter, order, DISTINCT and offset |
| `QuerySemantics.IdsAreIdsOfAll` | ent/codexturnintent_query.go:163-191 | for a query without selected fields, traversals and `Unique` included, `IDs` fails exactly as `All` does, and otherwise returns the IDs of `All` in order iff the limits do not differ (`Limit(0)`, or an offset without limit before more than MaxInt32 rows that the runner of query specs does not cap) |
| `QuerySemantics.LimitZero` | ent/codexturnintent_query.go:391-437 | the input: over a table of one row, `Limit(0)` gives `All` that row and `IDs` nothing |
| `QueryLaws.PlainQuery` | ent/codexturnintent_query.go:368-438 | without limit, offset and DISTINCT, whatever is selected, `All` and `Scan` return one tuple per matching row of the traversal or table in the database's order; `All` the row's ID and then the other selected fields in order, `Scan` the fields as selected |
| `QueryLaws.DistinctQuery` | ent/codexturnintent_query.go:371-375 | with DISTINCT, asked for or by default of a traversal, `All` returns the same tuples once each, in order of first occurrence |
| `QueryLaws.AllPages` | ent/codexturnintent_query.go:392-397 | limit and offset cut exactly that page out of what `All` returns without them |
| `QueryLaws.ScanPages` | ent/codexturnintent_query.go:430-437 | the same for `Scan`, with its mandatory limit |
| `QueryLaws.TuplesStartWithIds` | ent/codexturnintent_query.go:376-384 | whatever is selected and cut, every tuple of `All` starts with the ID of a matching row |
| `QueryLaws.FailsAlike` | ent/codexturnintent_query.go:319-331 | otherwise both fail alike: the first invalid field, else the traversal's error, else the database's |
| `QueryLaws.FilterKeeps` | ent/codexturnintent_query.go:422-424 | the rows that satisfy all predicates, each where it was |
| `QuerySemantics.Only` | ent/codexturnintent_query.go:110-125 | with the query's own limit removed, `Only` has a value iff there is exactly one row, not-found iff none, not-singular iff more; truncating to two rows loses nothing |
| `QuerySemantics.First` | ent/codexturnintent_query.go:64-73 | `First` is the first row of the limit-free query, not-found iff it has none |
| `QuerySemantics.OnlyIdAgrees` | ent/codexturnintent_query.go:137-151 | `OnlyID`, through the other lowering, is the ID of `Only`, with the same errors |
| `QuerySemantics.FirstIdAgrees` | ent/codexturnintent_query.go:86-96 | `FirstID`, through the other lowering, is the ID of `First`, with the same errors |
| `QuerySemantics.ExistIsExact` | ent/codexturnintent_query.go:221-231 | `Exist` is true iff the limit-free query has a row, false iff it has none, and otherwise fails as the query does |
| `QuerySemantics.IdFormsSpendTheBuilder` | ent/codexturnintent_query.go:182-191 | after an ID form that succeeded, another on the same builder fails to scan |
| `QueryBuilder.QueryBuilder.QuerySpec` | ent/codexturnintent_query.go:368-406 | the loop over the shared field slice lowers the builder to the query spec of its contents |
| `QueryBuilder.QueryBuilder.SqlQuery` | ent/codexturnintent_query.go:408-438 | the other lowering, including the mandatory limit with an offset and its override |
| `QueryBuilder.QueryBuilder.SetContextOp` | ent/ent.go:562-568 | writes the label only when no query context is attached, and changes nothing else of the builder |
| `QueryBuilder.QueryBuilder.PrepareQuery` | ent/codexturnintent_query.go:319-331 | validates fields in order before running the traversal, and only after both does the query reach the interceptors around its execution |
| `QueryBuilder.QueryBuilder.All` | ent/codexturnintent_query.go:163-170 | returns what the query means; interceptors see the label of the attached context, or All if there is none |
| `QueryBuilder.QueryBuilder.IDs` | ent/codexturnintent_query.go:182-191 | the same through Select and Scan with the label IDs; leaves the builder with the ID selected |
| `QueryBuilder.QueryBuilder.First` | ent/codexturnintent_query.go:64-73 | the same with the label First over the nested All |
| `QueryBuilder.QueryBuilder.FirstID` | ent/codexturnintent_query.go:86-96 | the same with the label FirstID over IDs and Scan |
| `QueryBuilder.QueryBuilder.Only` | ent/codexturnintent_query.go:110-125 | the same with the label Only |
| `QueryBuilder.QueryBuilder.OnlyID` | ent/codexturnintent_query.go:137-151 | the same with the label OnlyID |
| `QueryBuilder.QueryBuilder.Exist` | ent/codexturnintent_query.go:221-231 | the same with the label Exist through FirstID, IDs and Scan |
| `QueryBuilder.QueryBuilder.ScanIds` | ent/codexturnintent_query.go:501-507 | Scan under its caller's label, or Select if it is the outermost call |
| `QueryBuilder.QueryBuilder.Cloned` | ent/codexturnintent_query.go:244-258 | a clone has its original's contents, hence lowers alike, and shares no array or context with it |
| `QueryBuilder.CloneAndConfigure` | ent/codexturnintent_query.go:32-60 | after Clone, any interleaving of Where, Order, Limit, Offset, Unique and Select on both leaves each as if it had received only its own calls |
| `QueryBuilder.ConfiguredMeans` | ent/codexturnintent_query.go:32-60 | any sequence of configuring calls: predicates, orders and fields are all those added, in order; limit, offset and unique are the last ones set |
| `Codec.Entity.ScanValues` | ent/codexturnintent.go:128-151 | allocates the destination of each listed column, duplicates and unknown names included |
| `Codec.Entity.AssignValues` | ent/codexturnintent.go:155-513 | the loop over the columns is the function the codec results are about; after an early error exactly the fields of the columns before it are assigned, and in a field whose JSON text was rejected is what `json.Unmarshal` left there |
| `Codec.NoTypeError` | ent/codexturnintent.go:155-513 | for every column list, what `scanValues()` allocated never makes `assignValues()` fail on a type; it fails iff some JSON text does not fit its field, and names the first |
| `Codec.StuckLeaves` | ent/codexturnintent.go:155-513 | where it fails, the columns before are assigned as without the rest, and only the field at fault is otherwise changed, to what `json.Unmarshal` left |
| `Codec.CountsAndTypes` | ent/codexturnintent.go:156-163 | too few values are an error before anything is assigned, and a value of another type than asserted is one at its turn |
| `Codec.LastSupplyWins` | ent/codexturnintent.go:155-513 | whatever the list, each field and the ID end with the last value supplied for them (with all of it, where JSON objects are merged) |
| `Codec.Untouched` | ent/codexturnintent.go:155-513 | a field for which no value is supplied stays as it was, and so does the ID when it is not listed |
| `Codec.ObjectsMerge` | ent/codexturnintent.go:272-279 | a JSON object is merged into the map that is there, key by key |
| `Codec.LastIsKeptAside` | ent/codexturnintent.go:509-511 | a name outside the table ends, aside, with the last value scanned for it |
| `Codec.AsideUntouched` | ent/codexturnintent.go:509-511 | nothing is kept aside for the ID, a column, or a name not listed |
| `Codec.PartialRoundTrip` | ent/codexturnintent_query.go:339-346 | for every column list, loading a stored mutation gives each listed column the value `createSpec()` put in its node, leaves the others zero, and reads the ID iff listed |
| `Codec.RoundTrip` | ent/codexturnintent_create.go:883-1097 | storing the spec and loading all columns gives the node `createSpec()` returned |
| `Codec.PointerIsNilIffUnset` | ent/codexturnintent_create.go:883-1097 | in that node a pointer field is nil iff the mutation left it unset |
| `CodexTurnIntentCodec.IntentIsConsistent` | ent/codexturnintent.go:128-513 | the two switches and the columns of CodexTurnIntent agree on every name, so all codec results apply |
| `CodexTurnIntentCodec.PointersAgree` | ent/codexturnintent.go:155-513 | `assignValues()` allocates behind a pointer exactly for the nullable columns that `check()` does not ask for |
| `CodexTurnIntentCodec.NullSupplies` | ent/codexturnintent.go:145-146 | a NULL overwrites the field exactly for id, control_id and agent_profile_id |
| `CodexTurnIntentCodec.DefaultsWellTyped` | ent/codexturnintent_create.go:690-775 | `defaults()` keeps every field of its column's type |
| `CodexTurnIntentCodec.IntentRoundTrip` | ent/codexturnintent_create.go:883-1097 | the round trip for every CodexTurnIntent mutation after `defaults()` |
| `Slices.Append` | ent/client.go:906-906 | `append` in place or into a new array: the result's elements, and what headers of the old slice still show |
| `Registry.Program.UseHooks` | ent/client.go:904-907 | registering hooks through one client appends to the list all clients share and disturbs no slice a builder took, although the arrays are shared |
| `Registry.Program.Do` | ent/client.go:116-136 | every kind of call, through any client, has its meaning over one shared pair of registries |
| `Registry.Perform` | ent/client.go:191-224 | the same for any interleaving of Use, Intercept, Create, Query, Tx and Debug on the clients of one root |
| `Registry.ProgramMeans` | ent/client.go:904-919 | any program: the hooks are the concatenation of all `Use` arguments, through whichever client that existed, in order; every builder holds that up to its creation; the same for interceptors and queries; and the clients that Tx and Debug add |
| `Registry.OnlyGrows` | ent/client.go:904-913 | the lists only grow, clients stay, and what a builder or query took never changes |
| `Registry.BuilderTookPrefix` | ent/client.go:916-919 | a builder's hooks are exactly those registered when it was created, a prefix of the list at any later time |
| `ColumnSelection.UpdateOne.NodeColumns` | ent/codexturnintent_update.go:2171-2189 | the validating loop refuses and selects exactly as a query's `prepareQuery()` and `querySpec()` do |
| `ColumnSelection.SelectionShape` | ent/codexturnintent_query.go:376-384 | for any non-empty list of valid fields the columns chosen, by queries and by `UpdateOne`, are the ID, first and only there, and then exactly the other fields in request order, with multiplicity |
| `ColumnSelection.RefusesFirstInvalid` | ent/codexturnintent_query.go:319-323 | a list is refused iff it holds an invalid column, and the first is reported |

## Left out

- Hooks that keep `next` for later or call it from another goroutine, and nil hooks in
  a bulk save, which panic.
- Each hook has a bound on how often it calls `next`, which may depend on what it was
  passed and saw when it was entered. A hook with no such bound, one that retries for
  as long as it sees errors say, is not a hook of the model.
- A hook edits mutations only. In Go it also receives the node that `next` returns, and
  may write to it; the results about nodes are about hooks that do not.
- The context a hook passes on, and its cancellation.
- The panics of the single AuditLog and PlatformSetting saves when the store returns
  no ID; the model leaves the ID 0.
- The conversion of an int64 ID to int, and integer widths of columns.
- Negative limits and offsets.
- QueryBuilder.QueryBuilder.PrepareQuery: does not model the nil test and the `Traverse`
  calls on interceptors that come before the fields are validated, so a query is one
  without traversing interceptors.
- Interceptors that change the result of a query: `QueryBuilder` records only the label
  they see. `Compose` has their composition.
- Count, GroupBy, Aggregate, ForUpdate-like modifiers, and the reflection at the end of
  `scanWithInterceptors`.
- Predicates and order terms are values; those that modify the selector in other ways
  are not modelled.
- The loop of `MapCreateBulk`; only the error it may leave is a parameter of the bulk save.
- The panicking X variants, error types' texts, and `String()`.
- The rules by which a mutation's setters, adders and clearers interact, the remainder of
  the update and delete builders, and the other entities, which repeat the template.
- Clocks, UUID generation and generated defaults are parameters (`Schema.Supply`).
- Commit and rollback of transactions, and all of `sqlgraph`, `dialect` and the drivers
  beyond the assumptions above; these are not part of this model.
- Scheduling of turns and leases: the layer holds only their columns.
