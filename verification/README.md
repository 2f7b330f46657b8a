# Holochain storage and release rules, modelled in Dafny

This project models five parts of the Holochain repository and proves
properties about them:

- **`KvvBufUsed`, the buffered multi-value store** (`kvv_store.dfy`). It is a
  scratch of per-key `ValuesDelta` records over a persisted key -> set-of-values
  database. `insert`, `delete`, `delete_all`, `get` and `flush_to_txn` are
  methods of the `KvvBuf` class. The persisted database is the `MultiStore`
  class.
- **Op derivation and routing** (`dht_ops.dfy`). This covers the header,
  entry and DHT op types, `ops_from_element` (the fixed op list per header
  variant) and `dht_basis` (the address an op is routed to).
- **Persistence mutations** (`mutations.dfy`). The `Entry`, `Header` and
  `DhtOp` tables are maps held by the `Txn` class, together with the
  statements it executes. The class covers `insert_entry`, `insert_header`,
  `insert_op_lite`, `insert_op` and the single-row `DhtOp` updates. The
  in-memory `Scratch` class and the two scratch inserts are here too.
- **The schema version gate** (`schema.dfy`). This is `Schema::initialize` on a
  connection whose stored `user_version` decides between creating the schema,
  migrating forward, refusing, or doing nothing.
- **Release automation** (`release.dfy`, `release_cli.dfy`):
  - the order of the release steps and `cmd`;
  - the `release-` branch rules and the branch-creation gate;
  - the version chosen for a release, and the manifest and changelog decisions;
  - the `cargo publish` arguments and the stderr error tail;
  - the post-release development bump;
  - the comma-separated command-line parsers.

Computations defined outside this core are function parameters:

- hashing, the light projection of an op, ring locations and timestamp conversion;
- the semantic-version operations;
- running `cargo`;
- the current time.

`wrappers.dfy` holds the `Option` and `Result` types.

## Model

| member | source | states |
|---|---|---|
| KvvStore.Overlay | crates/holochain_sqlite/src/buffer/kvv/buf/tests.rs:201-209 | what `get` yields: every scratch insert, no tombstoned value, nothing that is neither persisted nor inserted; after `delete_all` exactly the later inserts, otherwise every persisted value not deleted |
| KvvStore.RecordIsMutate | crates/holochain_sqlite/src/buffer/kvv/buf/tests.rs:62-148 | one recorded `insert`/`delete`/`delete_all` changes the visible values exactly as the same operation on a plain set |
| KvvStore.RecordAllIsMutateAll | crates/holochain_sqlite/src/buffer/kvv/buf/tests.rs:153-253 | any sequence of mutations on a key is observationally the same sequence on a plain set starting from the visible values |
| KvvStore.InsertTwiceRecordsOnce | crates/holochain_sqlite/src/buffer/kvv/buf/tests.rs:287-291 | inserting the same value twice leaves the same scratch as inserting it once |
| KvvStore.InsertVisibleIsIdempotent | crates/holochain_sqlite/src/buffer/kvv/buf/tests.rs:110-117 | re-inserting a value already visible (from scratch or persisted) changes nothing visible, so no duplicate appears |
| KvvStore.DeleteAllThenInserts | crates/holochain_sqlite/src/buffer/kvv/buf/tests.rs:206-249 | after `delete_all`, exactly the values inserted later are visible, whatever was persisted or inserted earlier |
| KvvStore.Inserts | crates/holochain_sqlite/src/buffer/kvv/buf/tests.rs:360-370 | the insert mutations of a value list, one per value in order |
| KvvStore.MutateAllInserts | crates/holochain_sqlite/src/buffer/kvv/buf/tests.rs:360-370 | a run of inserts adds exactly the inserted values |
| KvvStore.InsertThenDeleteLeavesTombstone | crates/holochain_sqlite/src/buffer/kvv/buf/tests.rs:432-469 | insert then delete of one value leaves a single `Delete` marker, and nothing of it is visible over an empty persisted set |
| KvvStore.UntouchedKeyShowsPersisted | crates/holochain_sqlite/src/buffer/kvv/buf/tests.rs:389-417 | a key the scratch never mentions shows its persisted values unchanged |
| KvvStore.MultiStore.Persisted | crates/holochain_sqlite/src/buffer/kvv/buf/tests.rs:31-35 | `get_persisted`: the stored set of a key, empty for an absent key |
| KvvStore.MultiStore.constructor | crates/holochain_sqlite/src/buffer/kvv/buf/tests.rs:62-70 | a fresh database holds no key |
| KvvStore.MultiStore.Put | crates/holochain_sqlite/src/buffer/kvv/buf/tests.rs:389-398 | adds the value under its key only, keeping every stored set non-empty |
| KvvStore.MultiStore.DeleteValue | crates/holochain_sqlite/src/buffer/kvv/buf/tests.rs:400-417 | removes the value under its key only; the last value removes the key |
| KvvStore.MultiStore.DeleteAll | crates/holochain_sqlite/src/buffer/kvv/buf/tests.rs:153-253 | empties one key and leaves every other key as it was |
| KvvStore.KvvBuf.constructor | crates/holochain_sqlite/src/buffer/kvv/buf/tests.rs:62-70 | a new store over a database starts with an empty scratch |
| KvvStore.KvvBuf.Insert | crates/holochain_sqlite/src/buffer/kvv/buf/tests.rs:80-88 | records `Insert` for the value, and the key's visible values gain exactly that value |
| KvvStore.KvvBuf.Delete | crates/holochain_sqlite/src/buffer/kvv/buf/tests.rs:71-78 | records `Delete` for the value (even one never present), and the key's visible values lose exactly that value |
| KvvStore.KvvBuf.DeleteAll | crates/holochain_sqlite/src/buffer/kvv/buf/tests.rs:212-219 | the key's scratch becomes the `delete_all` marker alone, and nothing is visible for it |
| KvvStore.KvvBuf.Get | crates/holochain_sqlite/src/buffer/kvv/buf/tests.rs:474-541 | yields each visible value of the key exactly once, and nothing else |
| KvvStore.KvvBuf.FlushKey | crates/holochain_sqlite/src/buffer/kvv/buf/tests.rs:420-471 | writing one key's delta leaves that key's persisted values equal to the overlay, and no other key changes |
| KvvStore.KvvBuf.FlushToTxn | crates/holochain_sqlite/src/buffer/kvv/buf/tests.rs:80-108 | after the flush every key's persisted values are what `get` showed before it, and the scratch is empty |
| DhtOps.PrevHeader | crates/holochain_state/src/mutations.rs:311 | the previous header is absent exactly for the `Dna` header |
| DhtOps.EntryData | crates/holochain_state/src/mutations.rs:312-316 | only `Create` and `Update` headers declare an entry hash and type |
| DhtOps.OpsFromElement | crates/holochain/src/core/workflow/produce_dht_ops_workflow/dht_op/tests.rs:103-206 | fails exactly for a `Create`/`Update` header without its entry; otherwise 2 to 4 ops, all carrying the element's signature and header |
| DhtOps.OpsFromElementMatchesTable | crates/holochain/src/core/workflow/produce_dht_ops_workflow/dht_op/tests.rs:215-245 | for every header variant the derived ops equal the literal expected list of the tests |
| DhtOps.OpsStartWithElementAndActivity | crates/holochain/src/core/workflow/produce_dht_ops_workflow/dht_op/tests.rs:107-118 | every derived list starts with `StoreElement` then `RegisterAgentActivity`, so none is empty |
| DhtOps.OpTypes | crates/holochain/src/core/workflow/produce_dht_ops_workflow/dht_op/tests.rs:103-206 | the op types of a list, position by position |
| DhtOps.OpTypesFollowHeaderType | crates/holochain/src/core/workflow/produce_dht_ops_workflow/dht_op/tests.rs:103-206 | the derived op types depend only on the header variant, and no op type repeats |
| DhtOps.OpTypesForDistinct | crates/holochain/src/core/workflow/produce_dht_ops_workflow/dht_op/tests.rs:188-206 | no variant's op-type list repeats a type |
| DhtOps.DhtBasis | crates/holochain/src/core/workflow/produce_dht_ops_workflow/dht_op/tests.rs:247-290 | routing fails exactly for an entry-based `RegisterReplacedBy` whose original header is missing or declares no entry; otherwise a stored element goes to its header's hash, a stored entry to the entry its header declares, activity to the author, a header-based replace to the original header, an entry-based replace to the entry the original header declares (a `Create` or an `Update`), a delete to the deleted header, and both link ops to their base |
| DhtOps.ReplacedByRoutesToOriginalEntry | crates/holochain/src/core/workflow/produce_dht_ops_workflow/dht_op/tests.rs:253-288 | an entry-based update routes to the entry hash of the original `Create` found in the store |
| DhtOps.ReferringOpsIgnoreOwnHash | crates/holochain/src/core/workflow/produce_dht_ops_workflow/dht_op/tests.rs:247-290 | replace, delete and link ops route independently of their own header's hash |
| DhtOps.CreateOpsBases | crates/holochain/src/core/workflow/produce_dht_ops_workflow/dht_op/tests.rs:103-121 | a `Create` element's three ops route to the header hash, the author and the declared entry hash |
| Mutations.HeaderRowOf | crates/holochain_state/src/mutations.rs:305-434 | the common columns always; each variant's own columns set exactly for that variant with the header's values; `private_entry` true exactly for a private entry type |
| Mutations.PlainHeadersHaveNoVariantColumns | crates/holochain_state/src/mutations.rs:317-432 | `Dna`, `AgentValidationPkg`, `InitZomesComplete`, `OpenChain`, `CloseChain` rows carry only the common columns |
| Mutations.EntryRowOf | crates/holochain_state/src/mutations.rs:437-487 | grants store tag, access kind and (unless unrestricted) secret; claims store tag, grantor and secret; other entries leave all four NULL |
| Mutations.GrantFunctionsAndAssigneesNotStored | crates/holochain_state/src/mutations.rs:439-476 | grants differing only in functions or assignees get identical capability columns |
| Mutations.OpRowOf | crates/holochain_state/src/mutations.rs:113-136 | basis, location, type and header come from the light op; authored time is the header time; no receipt required; bookkeeping columns NULL |
| Mutations.StageCode | crates/holochain_state/src/mutations.rs:231-237 | NULL exactly for `Pending`, otherwise a code below 4 |
| Mutations.StageCodeFollowsLimboPath | crates/holochain_state/src/mutations.rs:231-237 | stage codes order and identify statuses exactly as the limbo path does |
| Mutations.UpdateWhere | crates/holochain_state/src/mutations.rs:36-51 | an update changes only the row whose hash matches, and no row appears or disappears |
| Mutations.UpdatesKeepIdentity | crates/holochain_state/src/mutations.rs:202-302 | no update touches the columns the row was created with |
| Mutations.IdempotentExceptCounters | crates/holochain_state/src/mutations.rs:202-302 | every update but the two counters is idempotent; the counters count twice when applied twice |
| Mutations.Repeat | crates/holochain_state/src/mutations.rs:296-302 | `n` copies of one update |
| Mutations.ReceiptsAddUp | crates/holochain_state/src/mutations.rs:296-302 | `n` single receipts raise the count by exactly `n`, NULL counting as 0 |
| Mutations.StageUpdates | crates/holochain_state/src/mutations.rs:226-256 | one stage update per status, in order |
| Mutations.StageAttemptsAddUp | crates/holochain_state/src/mutations.rs:238-254 | a run of stage updates leaves the last stage and counts one attempt each |
| Mutations.InsertIgnore | crates/holochain_state/src/mutations.rs:24-34 | an insert adds the row under a new key and leaves an existing row as it was |
| Mutations.Txn.constructor | crates/holochain_state/src/mutations.rs:84-91 | a transaction over given tables whose rows are keyed by their own hash, with no statement run yet; it establishes the invariant every statement needs |
| Mutations.Txn.InsertEntry | crates/holochain_state/src/mutations.rs:437-487 | inserts the entry row worked out by the capability match, touching no other table |
| Mutations.Txn.InsertHeader | crates/holochain_state/src/mutations.rs:305-434 | inserts the header row under the header's hash, touching no other table |
| Mutations.Txn.InsertOpLite | crates/holochain_state/src/mutations.rs:113-136 | inserts the op row under the op hash, touching no other table |
| Mutations.Txn.InsertOp | crates/holochain_state/src/mutations.rs:84-110 | fails with `HeaderWithoutEntry` before any write exactly when the op has an entry but its header declares none; otherwise writes the entry under the declared hash, then the header under the light op's header hash, then the op row ordered by type and header time |
| Mutations.Txn.Update | crates/holochain_state/src/mutations.rs:36-51 | one update statement on the matching row; other tables unchanged |
| Mutations.Txn.SetValidationStatus | crates/holochain_state/src/mutations.rs:202-211 | sets the status of the matching row only |
| Mutations.Txn.SetRequireReceipt | crates/holochain_state/src/mutations.rs:214-223 | sets the receipt flag of the matching row only |
| Mutations.Txn.SetValidationStage | crates/holochain_state/src/mutations.rs:226-256 | stores the stage code, adds one attempt (NULL as 0) and records the attempt time |
| Mutations.Txn.SetWhenIntegrated | crates/holochain_state/src/mutations.rs:259-269 | both integration columns get the same time |
| Mutations.Txn.SetLastPublishTime | crates/holochain_state/src/mutations.rs:272-281 | sets the publish time of the matching row only |
| Mutations.Txn.SetReceiptCount | crates/holochain_state/src/mutations.rs:284-293 | sets the receipt count of the matching row only |
| Mutations.Txn.AddOneReceiptCount | crates/holochain_state/src/mutations.rs:296-302 | one statement raising the count by one, NULL counting as 0 |
| Mutations.Scratch.constructor | crates/holochain_state/src/mutations.rs:54-81 | an empty scratch |
| Mutations.Scratch.AddHeader | crates/holochain_state/src/mutations.rs:70-71 | appends the header, entries unchanged |
| Mutations.Scratch.AddEntry | crates/holochain_state/src/mutations.rs:66-68 | stores the entry under the hash, headers unchanged |
| Mutations.InsertOpScratch | crates/holochain_state/src/mutations.rs:54-73 | fails exactly when the op has an entry its header does not declare, leaving the scratch untouched; otherwise the entry goes under the declared hash and the header is appended |
| Mutations.InsertElementScratch | crates/holochain_state/src/mutations.rs:75-81 | appends the element's header and stores its entry, if any, under the entry's content hash |
| Schema.Initial | crates/holochain_sqlite/src/schema.rs:64-70 | a migration that only carries the schema |
| Schema.SchemaCell | crates/holochain_sqlite/src/schema.rs:6-13 | one migration, the initial one, at current index 0 |
| Schema.ToU16 | crates/holochain_sqlite/src/schema.rs:22-23 | the stored version converts exactly when it is in 0..65535 |
| Schema.Decide | crates/holochain_sqlite/src/schema.rs:25-50 | version 0 creates; otherwise the stored index `version - 1` below, above or equal to the current index runs forward, refuses or does nothing |
| Schema.ReadFailureRunsNothing | crates/holochain_sqlite/src/schema.rs:22-23 | a failed version read is returned before any statement or migration runs |
| Schema.OnlyFreshDatabaseExecutesSchema | crates/holochain_sqlite/src/schema.rs:25-50 | SQL runs only for version 0, and then exactly the current schema; only the forward branch touches a migration, the one at the stored index |
| Schema.SchemaCellOpensOnlyVersionsZeroAndOne | crates/holochain_sqlite/src/schema.rs:6-13 | with the cell schema, exactly versions 0 and 1 open and every other version aborts |
| Schema.Connection.constructor | crates/holochain_sqlite/src/schema.rs:21 | a connection reporting a given stored version and batch outcome |
| Schema.Connection.QueryUserVersion | crates/holochain_sqlite/src/schema.rs:22-23 | the pragma read as a `u16`, with the read error or the out-of-range error |
| Schema.Connection.ExecuteBatch | crates/holochain_sqlite/src/schema.rs:72-75 | records the batch and returns the connection's batch outcome |
| Schema.InitializeMigration | crates/holochain_sqlite/src/schema.rs:72-75 | executes exactly the migration's schema as one batch |
| Schema.RunMigration | crates/holochain_sqlite/src/schema.rs:77-79 | always aborts with the "not yet implemented" error |
| Schema.Initialize | crates/holochain_sqlite/src/schema.rs:21-54 | result, executed batches and migrations run are exactly the effect the decision prescribes |
| Release.Rank | crates/release-automation/src/release.rs:30-47 | each step's declaration position, below 10 |
| Release.StepsTotallyOrdered | crates/release-automation/src/release.rs:30-47 | the step order is a strict total order |
| Release.AllSteps | crates/release-automation/src/release.rs:30-47 | all ten steps, each at its declaration position |
| Release.KeepInOrder | crates/release-automation/src/release.rs:60 | keeps exactly the selected members, preserving ascending order |
| Release.InOrder | crates/release-automation/src/release.rs:60 | iterating a step set visits each member once, in declaration order |
| Release.AscendingIsDistinct | crates/release-automation/src/release.rs:60 | an ascending step list has no repeats |
| Release.DistinctSize | crates/release-automation/src/release.rs:60 | a duplicate-free list is as long as its element set |
| Release.Cmd | crates/release-automation/src/release.rs:56-114 | processes a prefix of the ordered steps, every one but the last succeeding; succeeds exactly when all selected steps do; an error is the last processed step's |
| Release.StripPrefix | crates/release-automation/src/release.rs:313-322 | succeeds exactly on names with the prefix and returns the rest |
| Release.StripPrefixOfConcat | crates/release-automation/src/release.rs:313-322 | stripping the prefix off prefix-plus-rest gives the rest |
| Release.GenerateReleaseBranchName | crates/release-automation/src/release.rs:116-125 | a generated name carries the `release-` prefix followed by the time |
| Release.EnsureReleaseBranch | crates/release-automation/src/release.rs:608-619 | succeeds exactly when the head name starts with `release-`, returning it unchanged |
| Release.WorkspaceReleaseName | crates/release-automation/src/release.rs:313-322 | the branch name without `release-`; an error exactly when the prefix is missing |
| Release.ReleaseBranchForStep | crates/release-automation/src/release.rs:219-223 | the checked head branch; in a dry run a generated name replaces a failing check |
| Release.ReleaseBranchAlwaysNamesARelease | crates/release-automation/src/release.rs:313-322 | the prefix strip never fails on the branch a bump works on |
| Release.ReleaseBranchGate | crates/release-automation/src/release.rs:132-160 | passes exactly when forced or on a clean `develop`, with the matching error otherwise |
| Release.Repo.constructor | crates/release-automation/src/release.rs:128-131 | a repository on a given head with a given number of changes |
| Release.Repo.CheckoutNewBranch | crates/release-automation/src/release.rs:167-170 | creates the branch and makes it the head |
| Release.CreateReleaseBranchIn | crates/release-automation/src/release.rs:128-176 | a failing gate changes nothing; a dry run stops after naming; otherwise the named branch is created, checked out and must carry the prefix |
| Release.UnforcedReleaseBranchNeedsCleanDevelop | crates/release-automation/src/release.rs:132-160 | without force, only a clean `develop` passes the gate |
| Release.ReleaseVersion | crates/release-automation/src/release.rs:246-267 | errors exactly when the previous release is greater; else one patch above it, or with none the current version patched only if a prerelease |
| Release.PlanCrate | crates/release-automation/src/release.rs:277-309 | the manifest is rewritten exactly when the release is greater than the current version; a heading is added exactly then or for a first release |
| Release.FirstStableReleaseOnlyAddsHeading | crates/release-automation/src/release.rs:255-309 | a first release of a stable version keeps its version and manifest and only adds a heading |
| Release.RewriteImpliesHeading | crates/release-automation/src/release.rs:277-309 | every rewritten manifest comes with a changelog heading |
| Release.PlanCratesFailsEarly | crates/release-automation/src/release.rs:233-310 | the first crate that fails fails the whole selection with its error |
| Release.PlanCratesPerCrate | crates/release-automation/src/release.rs:233-310 | a successful plan has one release per crate, each the crate's own plan |
| Release.Headings | crates/release-automation/src/release.rs:284-309 | the crates and versions that gain a changelog heading |
| Release.Rewrites | crates/release-automation/src/release.rs:277-280 | the crates and versions whose manifest is rewritten |
| Release.BumpReleaseVersionsPlan | crates/release-automation/src/release.rs:215-322 | branch error first; empty selection does nothing; otherwise the plan's rewrites and headings, or the first crate error, and the workspace release named after the branch |
| Release.PublishArgs | crates/release-automation/src/release.rs:446-467 | `publish` first, the manifest path last, dry-run and allow-dirty flags exactly when asked |
| Release.LinesWithTerminator | crates/release-automation/src/release.rs:474 | lines that keep their terminator and together are the text |
| Release.FirstNewline | crates/release-automation/src/release.rs:474 | the first newline at or after a position |
| Release.ConcatPrepend | crates/release-automation/src/release.rs:474-481 | joining a line in front of lines prefixes their text |
| Release.LastErrorLine | crates/release-automation/src/release.rs:476-478 | the last line containing `error:`, with none after it |
| Release.ErrorTailStep | crates/release-automation/src/release.rs:474-480 | one more line restarts the tail when it holds `error:` and extends it otherwise |
| Release.ErrorDetails | crates/release-automation/src/release.rs:473-481 | the stderr text from the last `error:` line to the end, or all of it when no line has one |
| Release.FailureEntry | crates/release-automation/src/release.rs:482 | a failure entry is never empty |
| Release.PublishStep | crates/release-automation/src/release.rs:443-488 | a run that cannot start ends the fold; the report stays empty exactly while every run succeeds |
| Release.AllSucceededInit | crates/release-automation/src/release.rs:443-488 | all runs succeeded exactly when all but the last and the last did |
| Release.EmptyReportMeansAllSucceeded | crates/release-automation/src/release.rs:490-492 | the report is empty exactly when every run started and succeeded |
| Release.PublishPathsToCratesIo | crates/release-automation/src/release.rs:436-495 | fails with the first start error, else succeeds exactly when every run succeeded, else fails with the report |
| Release.PublishReportFailsEarly | crates/release-automation/src/release.rs:443-488 | a run that cannot start decides the whole report |
| Release.ManifestPathsOf | crates/release-automation/src/release.rs:406-425 | the manifest paths of exactly the titles naming a workspace member |
| Release.ManifestPathsKeepTitleOrder | crates/release-automation/src/release.rs:406-425 | the selection keeps title order: the paths of two runs of titles are the first run's paths followed by the second's, so crates are published in title order |
| Release.DevBumps | crates/release-automation/src/release.rs:531-562 | each released, non-prerelease member moves to one patch up with `-dev.0`; nothing else is bumped |
| Release.PostReleaseBumps | crates/release-automation/src/release.rs:522-562 | nothing happens exactly when the branch lacks the release title; otherwise the development bumps |
| Release.PrereleaseMembersAreSkipped | crates/release-automation/src/release.rs:552-559 | a prerelease member is never bumped |
| ReleaseCli.Split | crates/release-automation/src/main.rs:119 | at least one piece, none holding the separator, and joined back they give the input |
| ReleaseCli.SplitJoin | crates/release-automation/src/main.rs:119 | splitting joined separator-free pieces gives the pieces back |
| ReleaseCli.JoinDropFirstChar | crates/release-automation/src/main.rs:119 | dropping the first character of the first piece drops the first character of the joined text |
| ReleaseCli.Lower | crates/release-automation/src/main.rs:120 | same length; each upper-case letter becomes its own lower-case letter (code point plus 32); every other character unchanged, so no upper-case letter is left |
| ReleaseCli.LowerIdempotent | crates/release-automation/src/main.rs:120 | lower-casing twice is lower-casing once |
| ReleaseCli.KindOf | crates/release-automation/src/main.rs:120-127 | `normal`, `development`, `build` name exactly their kinds |
| ReleaseCli.ParseDepKind | crates/release-automation/src/main.rs:116-130 | succeeds exactly when every lower-cased word is empty or a kind, with the set of named kinds; otherwise the error names the first bad word |
| ReleaseCli.TryFoldInsert | crates/release-automation/src/main.rs:136-149 | succeeds exactly when every word is empty or parses, adding every parsed value; otherwise the given error |
| ReleaseCli.ParseList | crates/release-automation/src/main.rs:136-149 | the same over the comma-split input, with the "could not parse" error |
| ReleaseCli.FlagFromStr | crates/release-automation/src/main.rs:140-141 | parses exactly the flag names |
| ReleaseCli.ParseCrateStateFlags | crates/release-automation/src/main.rs:133-150 | succeeds exactly when every word is empty or a flag name, giving exactly the named flags |
| ReleaseCli.StepFromStr | crates/release-automation/src/main.rs:201-202 | parses exactly the step names |
| ReleaseCli.ParseReleaseSteps | crates/release-automation/src/main.rs:194-211 | succeeds exactly when every word is empty or a step name, giving exactly the named steps |
| ReleaseCli.EmptyInputSelectsNoSteps | crates/release-automation/src/main.rs:185 | the default empty argument selects no step |
| ReleaseCli.ParsedStepsComeOutOrdered | crates/release-automation/src/tests/mod.rs:6-20 | an input naming every step, in any order, iterates as all steps in declaration order: `CreateReleaseBranch`, then `BumpReleaseVersions`, `CreatePrToDevelop` last |
| ReleaseCli.EveryStepIsTen | crates/release-automation/src/release.rs:30-47 | the set of all steps has ten members |
| ReleaseCli.OrderedAllIsAllSteps | crates/release-automation/src/release.rs:30-47 | an ascending list of ten steps is the declaration order |
| ReleaseCli.RankLowerBound | crates/release-automation/src/release.rs:30-47 | in an ascending list, the step at position `i` has rank at least `i` |
| ReleaseCli.RankUpperBound | crates/release-automation/src/release.rs:30-47 | in an ascending list of ten, the step at position `i` has rank at most `i` |
| ReleaseCli.ToSelectionCriteria | crates/release-automation/src/main.rs:152-163 | every argument is copied to the field of the same name |
| ReleaseCli.SelectionCriteriaInjective | crates/release-automation/src/main.rs:152-163 | no argument is lost: equal criteria come from equal arguments |

## Left out

- I/O and side effects of the release tool: git (status, checkout, commit, tag), running `cargo`, `toml_edit` manifest rewriting, changelog files, logging, `main` and the argument parsing derivation. `cmd` folds the workspace load into its per-step function.
- `Release.Repo.CheckoutNewBranch`: branch creation and checkout always succeed; git errors are not modelled.
- `Release.BumpReleaseVersionsPlan`: leaves out the changelog lookup and parse errors, the dependant version rewrites and the commit. The `cargo publish --dry-run` pass and the tag creation are left out too.
- `Release.PublishPathsToCratesIo`: the path is rendered as `"path"` without Rust's debug escaping. `to_str_lossy` is the identity. The fixed message prefix of the final error is not part of the `PublishFailed` report.
- `Release.PostReleaseBumps`: the topmost-release lookup is a parameter. The commit of the rewritten manifests is not modelled.
- Semantic versions are abstract (`VersionOps`): only comparison, patch increment, the prerelease test, the `-dev.0` suffix and rendering are available, and nothing else about them is assumed.
- `ReleaseCli.Lower`: lower-cases ASCII letters only, not full Unicode `to_lowercase`.
- `ReleaseCli.ParseCrateStateFlags`: knows the four flags the check arguments document. The flag type itself is defined in `crate_selection`, which is not part of this model.
- `ReleaseCli.ParseList`, `ReleaseCli.ParseDepKind`: errors are their message strings; `anyhow` error chains are not modelled.
- Rust panics (`unimplemented!`) are modelled as the error value `Unimplemented`, which ends the operation as the panic does.
- `Schema.Initialize`: the SQL text of the initial schema, and the `user_version` it sets, are not modelled; `db_kind` is unused by the decision.
- The rusqlite transaction machinery is not modelled. SQL text assembly in `sql_insert!`/`dht_op_update!` is not modelled either. The `INSERT` conflict rule is taken to keep the existing row.
- Hashing, `to_blob` serialisation and its errors, `OpOrder`'s encoding, `DhtOpLight` computation, DHT locations and timestamp conversion are uninterpreted function parameters.
- `insert_validation_receipt`, `insert_wasm`, `insert_dna_def`, `insert_entry_def` and `insert_conductor_state` are plain key-to-blob inserts over hashing and serialisation, and are not modelled.
- The current time in `set_validation_stage` is a parameter.
- `dht_basis` looks headers up locally and then on the network; the model has a read-only map in place of both.
- `KvvStore.KvvBuf.Get`: the order of the yielded values (LMDB's sorted duplicates) is not stated, only that each visible value appears exactly once. Database read errors are not modelled.
- The multi-threaded async test runtime and concurrency between receipts are not modelled.
- `crates/holochain/src/core/ribosome/host_fn/create.rs` (a WASM host function), `crates/holochain/src/core/workflow/error.rs` (an error enum) and `crates/release-automation/src/check.rs` (workspace loading and printing) are not part of this model.
