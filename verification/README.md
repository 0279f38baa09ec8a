# Map pipeline: a verified model

A map pipeline fetches place records from public sources, normalizes and matches them, and writes
reviewed results. This project models the parts whose correctness rests on state kept over many
steps, and proves what they promise over every input, every run and every interleaving.

- **Resumable source cursors.** `FsqScan`, `FsqPages`, `FsqCursor`, `FsqRuns`: pages of a pinned
  Foursquare release under three budgets, with a durable pending page and acknowledgements.
  `OvertureTiles`, `OvertureExport`, `OvertureSession`: a tiled Overture export that resumes from its
  manifest. `Keyset`, `SnapshotReader`: the Postgres snapshot read with exact byte accounting.
- **Preview execution.** `BrokerState`, `BrokerRuns`, `BrokerSafety`, `BrokerClosing` and
  `StageBrokers`: the stage broker as a state machine cut at its awaits, its invariant, its safety and
  its closing, and the broker as an object that keeps the trace of its steps. `Pipelines`, `ExecutorModel`,
  `ExecutorProofs`, `ExecutorLineage`, `ExecutorCompletion`, `OrderedExecutors`: validation, the ordered
  stage loop, consumer counts and lineage. `RunStore`, `StateStores` and `Checkpoints`: runs,
  attempts and checkpoints. `Manifests`, `ArtifactStore`: the content-addressed store.
- **Matching.** `SpatialIndex`, `SpatialLookup`: the two-level index against a plain scan. `Matcher`,
  `MatchRun`: decisions, report and their validators. `IdentityOrder`, `Candidates`: canonical order.
  `Sorting`, `Sequences`, `Wrappers`: shared vocabulary.
- **Identities.** `JsonGrammar`, `JsonReader`, `JsonReaderProofs`, `JsonRecogniser`: RFC 8259 with
  unique keys and its recogniser. `Canonical`, `CanonicalProofs`, `CanonicalText`, `Identity`:
  canonical printing, its round trip and the keys built on it.
- **Authority.** `ApplyAncestry`, `ApplyAuthorization`, `Admission`: policy ancestry, one-shot
  capabilities and resource admission.

Components that change state in place are classes or methods proved equal to a specification
function; the theorems are about that function. Components that interleave are state machines whose
steps are the code between two awaits, with the answers of the store, readers, plugins and clocks as
parameters.

Three places where the code does less than one might expect are stated exactly. An optional input with
an empty reference passes validation and then never resolves, and so does a reference to an output its
stage may omit and does (`ExecutorCompletion`). The Postgres read refuses some relations whose document
fits: the rows of a page are measured with the blanks of the server's payload text, and from the second
page on the transfer budget is one byte tighter (`SnapshotReader.ReadableExactly`).

`dafny verify dfyconfig.toml` checks the project.

## Model

| member | source | states |
|---|---|---|
| `FsqScan.ScanPage` | packages/food-runtime/scripts/ops/export-fsq-hf-parquet-sample.py:319-372 | the nested file, group, batch and row loops fail exactly when the start lies past the end of its file, and otherwise equal a reference scan over the flattened rows of each file, however rows are split into groups and batches |
| `FsqScan.ReadFile` | packages/food-runtime/scripts/ops/export-fsq-hf-parquet-sample.py:331-358 | one file: rows kept, rows scanned and the offset reached are those of the reference, or an error when the offset exceeds the file |
| `FsqScan.ReadGroup` | packages/food-runtime/scripts/ops/export-fsq-hf-parquet-sample.py:336-356 | a row group contributes exactly its rows from the offset on until a budget is spent |
| `FsqScan.ReadBatch` | packages/food-runtime/scripts/ops/export-fsq-hf-parquet-sample.py:340-355 | a batch contributes exactly its rows from the offset on until a budget is spent |
| `FsqScan.ResumeAfterFile` | packages/food-runtime/scripts/ops/export-fsq-hf-parquet-sample.py:329-364 | continuing in the next file, or stopping inside this one, is the reference scan resumed from the new position |
| `FsqPages.PageIsSlice` | packages/food-runtime/scripts/ops/export-fsq-hf-parquet-sample.py:319-372 | a page is exactly the matching rows of the flat slice from start to next, its scanned count is the length of the slice, and the cycle is complete exactly at the end of the last file |
| `FsqPages.PageWithinBudget` | packages/food-runtime/scripts/ops/export-fsq-hf-parquet-sample.py:325-358 | files visited, rows scanned and rows returned stay within the three budgets |
| `FsqPages.ReachWithinBudget` | packages/food-runtime/scripts/ops/export-fsq-hf-parquet-sample.py:341-355 | within one file the scan stops at the scan and row budgets, neither before nor after |
| `FsqPages.PageMakesProgress` | packages/food-runtime/scripts/ops/export-fsq-hf-parquet-sample.py:319-372 | each page strictly decreases the number of files and rows left |
| `FsqCursor.CursorFile.AcknowledgePage` | packages/food-runtime/scripts/ops/export-fsq-hf-parquet-sample.py:308-316 | the file afterwards is that of the specification: advanced by a right page id, untouched otherwise |
| `FsqCursor.CursorFile.ExportPage` | packages/food-runtime/scripts/ops/export-fsq-hf-parquet-sample.py:413-434 | the file and the result are those of the specification: replay, preview, refusal without a provider, defer, or a freshly scanned pending page |
| `FsqRuns.ExportKeepsInv` | packages/food-runtime/scripts/ops/export-fsq-hf-parquet-sample.py:413-434 | an export or preview keeps what every run maintains between the cursor and the acknowledged pages |
| `FsqRuns.AckKeepsInv` | packages/food-runtime/scripts/ops/export-fsq-hf-parquet-sample.py:308-316 | a right or wrong acknowledgement keeps it |
| `FsqRuns.RunInv` | packages/food-runtime/scripts/ops/export-fsq-hf-parquet-sample.py:293-434 | it holds after every run of exports, previews, acknowledgements, crashes and clock readings |
| `FsqRuns.CycleRowsAreExact` | packages/food-runtime/scripts/ops/export-fsq-hf-parquet-sample.py:308-434 | after any run the acknowledged rows of the present cycle, concatenated, are exactly the matching rows of the pinned files up to the cursor, in order and each once; all of them once the cycle is complete |
| `FsqRuns.EveryCursorLoads` | packages/food-runtime/scripts/ops/export-fsq-hf-parquet-sample.py:293-305 | the loader accepts every state ever written, and an export on it fails only when a new cycle finds no provider |
| `FsqRuns.CycleIsFinite` | packages/food-runtime/scripts/ops/export-fsq-hf-parquet-sample.py:319-372 | a cycle acknowledges at most as many non-deferred pages as it has files and rows |
| `FsqRuns.PageIdsAreUnique` | packages/food-runtime/scripts/ops/export-fsq-hf-parquet-sample.py:422-430 | non-deferred pages of one cycle have pairwise different identities |
| `FsqRuns.AckNamesItsPage` | packages/food-runtime/scripts/ops/export-fsq-hf-parquet-sample.py:308-316 | what an acknowledgement accepts is the page its identity names, and it is accepted once |
| `FsqRuns.PendingIsReplayed` | packages/food-runtime/scripts/ops/export-fsq-hf-parquet-sample.py:413-430 | until its own identity is acknowledged, a pending page survives every event and is replayed identically |
| `FsqRuns.CompletionTimeMoves` | packages/food-runtime/scripts/ops/export-fsq-hf-parquet-sample.py:308-316 | the completion time changes only when a scanned page ends the cycle or a new cycle starts, so deferred pages never move it |
| `FsqRuns.RoundMakesProgress` | packages/food-runtime/scripts/ops/export-fsq-hf-parquet-sample.py:413-434 | an export followed by its acknowledgement brings an incomplete cycle strictly closer to its end |
| `FsqRuns.EveryCycleCompletes` | packages/food-runtime/scripts/ops/export-fsq-hf-parquet-sample.py:413-434 | enough rounds of export and acknowledgement complete any cycle |
| `JsonReaderProofs.StringComplete` | packages/core/src/observed-target-contract.ts:94-129 | every valid string literal is read whole, with its unescaped meaning |
| `JsonReaderProofs.NumberComplete` | packages/core/src/observed-target-contract.ts:185-188 | the greedy number match never rejects or cuts short a valid number |
| `JsonReaderProofs.ValueSound` | packages/core/src/observed-target-contract.ts:130-188 | whatever the reader takes for a value is a value of the grammar (RFC 8259, sections 2 to 7) spelling exactly the text consumed |
| `JsonReaderProofs.ValueComplete` | packages/core/src/observed-target-contract.ts:130-188 | every value of the grammar is read back from its spelling, with any whitespace, up to what follows it |
| `JsonReaderProofs.DocumentSound` | packages/core/src/observed-target-contract.ts:190-194 | an accepted document is a valid JSON text |
| `JsonReaderProofs.DocumentComplete` | packages/core/src/observed-target-contract.ts:190-194 | every valid JSON text is accepted and read back |
| `JsonReaderProofs.GrammarIsUnambiguous` | packages/core/src/observed-target-contract.ts:85-194 | two documents with one spelling hold the same value |
| `JsonRecogniser.Recogniser.ParseString` | packages/core/src/observed-target-contract.ts:94-129 | from any offset the loop succeeds exactly on a string literal, returns its unescaped key and moves past it |
| `JsonRecogniser.Recogniser.ParseValue` | packages/core/src/observed-target-contract.ts:130-188 | from any offset it succeeds exactly on a value without repeated keys, and moves past it |
| `JsonRecogniser.Recogniser.ParseObject` | packages/core/src/observed-target-contract.ts:133-156 | the object loop with its key set succeeds exactly on an object whose keys differ after unescaping |
| `JsonRecogniser.Recogniser.ParseMember` | packages/core/src/observed-target-contract.ts:142-149 | a member is refused when its key is in the set, and otherwise read whole |
| `JsonRecogniser.Recogniser.ParseArray` | packages/core/src/observed-target-contract.ts:158-174 | the array loop succeeds exactly on an array of accepted values |
| `JsonRecogniser.LiteralParses` | packages/core/src/observed-target-contract.ts:101-106 | JSON.parse of a scanned literal never fails where the scan succeeded |
| `JsonRecogniser.AssertJsonHasNoDuplicateKeys` | packages/core/src/observed-target-contract.ts:85-194 | a text is accepted exactly when it is a JSON text in which no object, at any depth, repeats a key after unescaping |
| `CanonicalProofs.IndexOrderIsNumeric` | packages/core/src/identity.ts:11-29 | the order of integer-like keys by length and then digits is their numeric order |
| `CanonicalProofs.SortKeeps` | packages/core/src/identity.ts:19-27 | sorting entries keeps every property with its value and orders the keys |
| `CanonicalProofs.FromEntriesKeeps` | packages/core/src/identity.ts:19-27 | an object built from sorted entries lists integer-like keys first in numeric order and the rest in string order, and keeps every property |
| `CanonicalProofs.NormalizeKeeps` | packages/core/src/identity.ts:11-29 | normalizing keeps the meaning of a value at every depth and reaches normal form |
| `CanonicalProofs.NormalUnique` | packages/core/src/identity.ts:11-29 | values in normal form with one meaning are equal |
| `CanonicalText.EscapeIsExact` | packages/core/src/identity.ts:31-33 | printed strings are valid literals that denote the original, lone surrogates included |
| `CanonicalText.TreeIsExact` | packages/core/src/identity.ts:31-33 | the printed text of a finite value is the spelling of a valid value without repeated keys that reads back to it |
| `CanonicalText.CanonicalTextReadsBack` | packages/core/src/identity.ts:31-33 | canonical text is accepted by the recogniser and parses back to the normalized value, which means what the original meant |
| `CanonicalText.CanonicalTextIsMeaning` | packages/core/src/identity.ts:31-33 | two values print alike if and only if they agree up to key order at every depth |
| `CanonicalText.NormalizeIsIdempotent` | packages/core/src/identity.ts:11-29 | normalizing twice is normalizing once |
| `Identity.KeysAgree` | packages/core/src/identity.ts:35-63 | keys built from named parts are equal exactly when all parts mean the same |
| `Identity.DecimalIsExact` | packages/core/src/identity.ts:79-127 | printed version numbers are canonical numerals with their value |
| `Identity.SourceRecordKeysDiffer` | packages/core/src/identity.ts:40-51 | source record keys are equal exactly when profile, namespace and external id are |
| `Identity.ObservationIdsDiffer` | packages/core/src/identity.ts:53-63 | observation ids are equal exactly when key, revision and the payload up to key order are |
| `Identity.JobKeysDiffer` | packages/core/src/identity.ts:79-100 | job keys are equal exactly when all eight parts are |
| `Identity.CheckpointKeysDiffer` | packages/core/src/identity.ts:102-127 | checkpoint keys are equal exactly when all ten parts are |
| `StageBrokers.StageBroker.AlwaysHolds` | packages/executor/src/index.ts:294-1073 | whatever calls and answers led to it, a broker within its contracts has staged no more than its reservation, registered one dataset a port and asked for each declared read at most once |
| `StageBrokers.StageBroker.NothingSinceClosed` | packages/executor/src/index.ts:365-368 | since it was closed or aborted it registered, finalized, claimed, charged and accepted nothing |
| `StageBrokers.StageBroker.ClosedHoldsNothing` | packages/executor/src/index.ts:889-910 | once close has resolved no operation is active, nothing is staged and the store keeps only refused discards |
| `StageBrokers.StageBroker.Authorize` | packages/executor/src/index.ts:394-421 | the charge is made exactly when the broker is open, the operation is declared, the cumulative count fits its grant and preview policy permits it |
| `StageBrokers.StageBroker.Leave` | packages/executor/src/index.ts:370-385 | a tracked operation leaves with success only when it succeeded and the broker is still open |
| `StageBrokers.StageBroker.Acquire` | packages/executor/src/index.ts:432-450 | a reader is asked only by an open source stage for a declared operation, after charging the whole declared limit |
| `StageBrokers.StageBroker.ReaderReturns` | packages/executor/src/index.ts:452-505 | an acquisition appears exactly when the broker is open, the count is within the declared limit and the snapshot is attested |
| `StageBrokers.StageBroker.ClaimOutputPort` | packages/executor/src/index.ts:937-945 | a declared port is claimed once |
| `StageBrokers.StageBroker.Stage` | packages/executor/src/index.ts:533-560 | staging starts on an unclaimed declared port when nothing else is being staged, promising the bytes that are left |
| `StageBrokers.StageBroker.StoreStaged` | packages/executor/src/index.ts:979-1002 | the staged artifact is kept and counted when the broker is open, and handed back to the store otherwise; the bytes staged stay within the reservation |
| `StageBrokers.StageBroker.StoreDropped` | packages/executor/src/index.ts:984-989 | the hand-back frees the staging slot whatever the store answers |
| `StageBrokers.StageBroker.Commit` | packages/executor/src/index.ts:562-616 | a commit reaches the store exactly for an open entry of that port and acquisition with an authorized preview write |
| `StageBrokers.StageBroker.StoreCommitted` | packages/executor/src/index.ts:1042-1072 | the dataset is registered and the port of its entry, not finalized before, finalized exactly when the store committed, the broker is open and the handle is new |
| `StageBrokers.StageBroker.FinalizeEphemeral` | packages/executor/src/index.ts:623-707 | an ephemeral dataset is registered exactly for an open acquisition, an unclaimed forbidden-persistence port with consumers, a valid value and a handle the registry does not know |
| `StageBrokers.StageBroker.Close` | packages/executor/src/index.ts:889-900 | afterwards the broker is closed; only the first close has an effect and remembers whether operations were active |
| `StageBrokers.StageBroker.DiscardUnfinalized` | packages/executor/src/index.ts:901-905 | after the drain exactly the entries not finalized are handed to the store |
| `StageBrokers.StageBroker.FinishClose` | packages/executor/src/index.ts:906-910 | close forgets acquisitions and staged entries last, when nothing is active and the store holds refused discards only |
| `BrokerRuns.StepKeepsInv` | packages/executor/src/index.ts:365-1072 | every call, answer, resumption, abort and close step keeps the broker invariant |
| `BrokerRuns.RunKeepsInv` | packages/executor/src/index.ts:294-1073 | it holds after every interleaving from a fresh broker |
| `BrokerRuns.CommitRegisters` | packages/executor/src/index.ts:1042-1066 | registering a committed dataset keeps ports, bytes, store ownership and registry in step |
| `BrokerRuns.StagingSucceeds` | packages/executor/src/index.ts:979-1002 | so does accepting a staged artifact |
| `BrokerSafety.EachPortIsProducedOnce` | packages/executor/src/index.ts:937-945 | over any run a port starts to be staged or is registered at most once |
| `BrokerSafety.EachPortIsFinalizedOnce` | packages/executor/src/index.ts:623-707 | over any run each port is finalized at most once and for good; finalized outputs and registry are exactly the log of registrations, with ports and datasets pairwise different |
| `BrokerSafety.NothingHappensAfterClose` | packages/executor/src/index.ts:365-368 | once closed or aborted, no later event registers, finalizes, claims, charges or accepts bytes, so a commit that loses the race is never registered |
| `BrokerSafety.BytesAreConserved` | packages/executor/src/index.ts:979-1000 | the byte counter is the sum of all artifacts accepted, equals the sizes of the staged entries until close, and never exceeds the stage reservation |
| `BrokerSafety.EachReadHappensOnce` | packages/executor/src/index.ts:432-450 | the reader of an undeclared operation is never asked, that of a declared one with a positive limit at most once |
| `BrokerSafety.EachAcquisitionIsFinalizedOnce` | packages/executor/src/index.ts:562-707 | over any run an acquisition is committed or registered as ephemeral at most once, and is spent from then on |
| `BrokerSafety.ReadsAreCharged` | packages/executor/src/index.ts:394-421 | every reader call is charged its whole limit against the cumulative count |
| `BrokerClosing.ClosedBrokersHoldNothing` | packages/executor/src/index.ts:896-910 | when close has resolved, no operation is active and the store holds nothing of the broker beyond what it refused to discard |
| `BrokerClosing.ClosingAdvances` | packages/executor/src/index.ts:387-392 | while closing there is always an awaited answer, each one brings the end strictly closer and nothing else moves it back: close neither deadlocks nor runs forever |
| `Pipelines.ParseIsExact` | packages/core/src/validation.ts:212-213 | a reference splits into a stage and a port exactly when it is written as the two dotless names with one dot between them |
| `Pipelines.CheckInputs` | packages/core/src/validation.ts:200-245 | no issue exactly when all inputs are declared and each reference names a compatible output of a stage already seen; the consumed stages are those named |
| `Pipelines.CheckStages` | packages/core/src/validation.ts:168-464 | no issue exactly when every stage is well placed: unique id, locked plugin, inputs offered by earlier stages, and passes its remaining checks |
| `Pipelines.CheckSinks` | packages/core/src/validation.ts:477-502 | no issue exactly when every listed sink is a terminal stage, with verified receipts when required |
| `Pipelines.CheckWriters` | packages/core/src/validation.ts:512-523 | no issue exactly when every terminal writing stage is a listed sink |
| `Pipelines.ValidateDefinition` | packages/core/src/validation.ts:97-527 | a definition has no issues if and only if its own and the catalog checks pass, its stages form a well-typed order and its sinks close it |
| `OrderedExecutors.MergeLineage` | packages/executor/src/index.ts:751-782 | the loop over parents computes the merge: union of policies, attributions and sources, forbidden when one parent is, earliest expiry |
| `OrderedExecutors.CountConsumers` | packages/executor/src/index.ts:650-655 | the count of references to an output over all stages |
| `OrderedExecutors.PreviewRun.ResolveInputs` | packages/executor/src/index.ts:1426-1438 | inputs resolve exactly when every reference parses and names a recorded output |
| `OrderedExecutors.PreviewRun.Finalize` | packages/executor/src/index.ts:643-700 | a finalization registers what the specification registers, with its consumer count or merged lineage |
| `OrderedExecutors.PreviewRun.ReleaseConsumed` | packages/executor/src/index.ts:162-174 | each ephemeral input loses one consumer per use and is dropped at zero; the underflow error is unreachable |
| `OrderedExecutors.PreviewRun.RunStage` | packages/executor/src/index.ts:1418-1559 | one stage is exactly one step of the specification |
| `OrderedExecutors.PreviewRun.RunStages` | packages/executor/src/index.ts:1418-1598 | the loop succeeds exactly when every stage boundary of the specification is reached, ends in its state and leaves no ephemeral data |
| `ExecutorProofs.OnlyLaterStagesRefer` | packages/core/src/validation.ts:200-245 | in a validated definition all references to a stage come from later stages |
| `ExecutorProofs.UsesAreReferences` | packages/executor/src/index.ts:1426-1438 | a stage uses a dataset exactly as often as it references the output the dataset is |
| `ExecutorProofs.ProduceKeeps` | packages/executor/src/index.ts:623-707 | a finalization keeps the consumer accounting while its stage runs |
| `ExecutorProofs.ReleaseCounts` | packages/executor/src/index.ts:162-174 | releasing a stage turns the count of references from it on into the count of references after it |
| `ExecutorProofs.ConsumersAreExact` | packages/executor/src/index.ts:1418-1558 | at every stage boundary an ephemeral dataset is live exactly when an unfinished stage references it, and then counts those references |
| `ExecutorProofs.NoEphemeralSurvives` | packages/executor/src/index.ts:1561-1598 | a successful run leaves no ephemeral dataset |
| `ExecutorProofs.InputsStayReadable` | packages/executor/src/index.ts:509-531 | every input stays registered for its consumer until the stage ends, and its uses never exceed the count |
| `ExecutorLineage.MergeAccumulates` | packages/executor/src/index.ts:751-782 | merging parents that carry their own sources carries the sources of all of them |
| `ExecutorLineage.LineageIsTheGlobalClosure` | packages/executor/src/index.ts:739-807 | every dataset of every run carries the provenance, redistribution ban and earliest expiry of exactly the source datasets reachable through stage inputs |
| `ExecutorCompletion.OutputsAreDelivered` | packages/executor/src/index.ts:1496-1499 | the recorded outputs at a stage boundary are exactly those earlier stages delivered |
| `ExecutorCompletion.RunsCompleteExactly` | packages/executor/src/index.ts:1418-1559 | a run reaches its end if and only if every plugin succeeds and every reference names an output delivered before |
| `ExecutorCompletion.ValidatedRunsComplete` | packages/executor/src/index.ts:1426-1438 | when plugins succeed and deliver their required outputs, a validated definition runs to its end if and only if no stage has an empty reference or refers to an optional output that was omitted |
| `ExecutorCompletion.OmittedOutputStops` | packages/executor/src/index.ts:1788-1792 | the second exception exists: a validated definition whose producer omits an optional output, as it may, and whose run then fails |
| `ExecutorCompletion.ValidatedDefinitionsComplete` | packages/core/src/validation.ts:200-224 | before any run: a validated definition runs to its end for all plugins that succeed and deliver their required outputs if and only if no reference is empty and none names an output declared optional |
| `ExecutorCompletion.EmptyReferenceStops` | packages/executor/src/index.ts:1426-1438 | whatever the plugins do, a definition with an empty reference never runs to its end |
| `ExecutorCompletion.EmptyReferenceValidates` | packages/core/src/validation.ts:200-212 | the exception exists: an optional input with an empty reference passes validation and never resolves |
| `Ancestry.OriginsOfParents` | packages/executor/src/index.ts:739-807 | the origins of a derived dataset are those of its parents |
| `StateStores.StateStore.BeginRun` | packages/state-sqlite/src/index.ts:88-103 | a run id is inserted once |
| `StateStores.StateStore.Latest` | packages/state-sqlite/src/index.ts:118-131 | the highest attempt of a stage and whether one is running |
| `StateStores.StateStore.BeginStage` | packages/state-sqlite/src/index.ts:105-142 | a new attempt is inserted exactly for a running run without a running attempt of the stage |
| `StateStores.StateStore.CompleteStage` | packages/state-sqlite/src/index.ts:144-163 | a running attempt succeeds, any other call changes nothing |
| `StateStores.StateStore.FailStage` | packages/state-sqlite/src/index.ts:165-184 | a running attempt fails, any other call changes nothing |
| `StateStores.StateStore.LatestAttempts` | packages/state-sqlite/src/index.ts:198-214 | the latest attempt of every stage of a run |
| `StateStores.StateStore.CompleteRun` | packages/state-sqlite/src/index.ts:186-238 | a running run succeeds exactly when its stages are the expected ones and each latest attempt succeeded |
| `StateStores.StateStore.FailRun` | packages/state-sqlite/src/index.ts:240-259 | a running run fails together with all its running attempts |
| `StateStores.ExecuteRun` | packages/executor/src/index.ts:1406-1598 | a run the executor begins always ends, succeeded exactly when the report is returned, and with distinct stage ids exactly when all stages succeed; other runs are untouched |
| `RunStore.StepKeepsInv` | packages/state-sqlite/src/index.ts:88-259 | attempts stay numbered from one, and only the last attempt of a running run may be running |
| `RunStore.TerminalRunsAreFrozen` | packages/state-sqlite/src/index.ts:144-259 | a run that ended never changes again, nor do its attempts, none of which is running |
| `RunStore.FinishedAttemptsAreFrozen` | packages/state-sqlite/src/index.ts:144-184 | an attempt that ended never changes again |
| `RunStore.OneRunningAttempt` | packages/state-sqlite/src/index.ts:118-125 | a stage has at most one running attempt, its last |
| `RunStore.AttemptsAreTheBegins` | packages/state-sqlite/src/index.ts:126-136 | the attempts of a stage are exactly 1 up to the number of accepted begins |
| `RunStore.SucceededRunsAreComplete` | packages/state-sqlite/src/index.ts:186-238 | a succeeded run was completed with exactly the stages it has, each latest attempt succeeded, and stays so |
| `Checkpoints.CheckpointTable.PutCheckpoint` | packages/state-sqlite/src/index.ts:305-334 | a put succeeds exactly when the value prints and the key is new or bound to the same profile and mode; otherwise nothing changes |
| `Checkpoints.BindingsNeverChange` | packages/state-sqlite/src/index.ts:305-334 | a key stays bound to the profile and mode that first wrote it |
| `Checkpoints.LoadsTheLastAccepted` | packages/state-sqlite/src/index.ts:298-303 | loading a key gives the normalized value of the last accepted put on it, or nothing |
| `SpatialIndex.BuildPrefetchBoxes` | profiles/apizzamichigan/src/matching-v1.ts:450-494 | one padded tightest box for each tile that holds a candidate, and no other |
| `SpatialIndex.BoxesReachOneTile` | profiles/apizzamichigan/src/matching-v1.ts:480-493 | a padded box reaches into the neighbouring tiles and no further, the clamped cosine included |
| `SpatialIndex.ProbesAreEnough` | profiles/apizzamichigan/src/matching-v1.ts:504-520 | the nine probes find a row exactly when some padded box holds it |
| `SpatialIndex.PrefetchCanonicalRows` | profiles/apizzamichigan/src/matching-v1.ts:496-521 | prefetching equals a scan of the snapshot for rows in some padded box, in snapshot order |
| `SpatialIndex.BuildGrid` | profiles/apizzamichigan/src/matching-v1.ts:640-646 | each row is in its own cell once, and cells are no more than rows |
| `SpatialIndex.WithinTwoCells` | profiles/apizzamichigan/src/matching-v1.ts:535-543 | a row within the distance limit lies within two cells in both directions |
| `SpatialLookup.SortRanks` | profiles/apizzamichigan/src/matching-v1.ts:562-564 | sorting by distance and id gives a strict ranking of the same rows |
| `SpatialLookup.RankingIsUnique` | profiles/apizzamichigan/src/matching-v1.ts:562-564 | a set of rows has one ranking, whatever the order of visits |
| `SpatialLookup.NearbyPlaces` | profiles/apizzamichigan/src/matching-v1.ts:527-566 | the walk over 25 cells visits each row once and returns the first ten, by distance and id, of all rows within the limit |
| `SpatialLookup.TenNearestAreUnique` | profiles/apizzamichigan/src/matching-v1.ts:562-565 | those ten are determined |
| `SpatialLookup.PrefetchedLookupIsScan` | profiles/apizzamichigan/src/matching-v1.ts:496-566 | grid lookup over prefetched rows equals a plain scan of the whole snapshot restricted to padded boxes |
| `Matcher.WrappingDistancesAreSane` | profiles/apizzamichigan/src/matching-v1.ts:433-447 | a distance that repeats every 360 degrees of longitude, as the haversine distance does, meets the bound the matcher rests on |
| `Matcher.BestIsUnbeaten` | profiles/apizzamichigan/src/matching-v1.ts:568-578 | the best match is a neighbour that no other beats by method, score, distance and id |
| `Matcher.BestIsFair` | profiles/apizzamichigan/src/matching-v1.ts:568-578 | it is a valid evaluation and never nearer than the nearest place |
| `Matcher.DecisionsAreValid` | profiles/apizzamichigan/src/matching-v1.ts:648-688 | every decision taken on a candidate with well-formed identity passes the decision validator |
| `Matcher.AssertCandidateInputs` | profiles/apizzamichigan/src/matching-v1.ts:232-294 | candidates are accepted exactly when of the partition, well formed, routed as classified, in canonical order and with equal content for equal identities |
| `Matcher.ValidateDecisions` | profiles/apizzamichigan/src/matching-v1.ts:791-867 | decisions are accepted exactly when each is consistent and they are in canonical order with equal content for equal identities |
| `MatchRun.AssertCanonicalSnapshot` | profiles/apizzamichigan/src/matching-v1.ts:296-340 | snapshots are accepted exactly when bounded, with valid ids and coordinates, and strictly increasing by id |
| `MatchRun.DispositionsPartition` | profiles/apizzamichigan/src/matching-v1.ts:905-914 | dispositions partition the active and the closed candidates |
| `MatchRun.DecisionsAgree` | profiles/apizzamichigan/src/matching-v1.ts:648-688 | equal candidates get equal decisions |
| `MatchRun.ReportsReconcile` | profiles/apizzamichigan/src/matching-v1.ts:690-720 | all route, disposition, tile, prefetch and grid counts of a run satisfy the report validator |
| `MatchRun.DecideAll` | profiles/apizzamichigan/src/matching-v1.ts:648-688 | each candidate is decided against a plain scan of the snapshot |
| `MatchRun.MatchCandidates` | profiles/apizzamichigan/src/matching-v1.ts:620-720 | a result exactly for accepted inputs; with well-formed identities both validators accept every decision list and report |
| `IdentityOrder.SortForgetsOrder` | profiles/apizzamichigan/src/matching-v1.ts:686-688 | sorting by identity gives one list for all permutations, and it passes the order checks |
| `IdentityOrder.SortedStays` | profiles/apizzamichigan/src/matching-v1.ts:686-688 | the final sort leaves canonically ordered decisions alone |
| `Candidates.SameIdentitySameRow` | profiles/apizzamichigan/src/fsq-preview.ts:612-638 | candidates share both identities exactly when their rows agree up to key order |
| `Candidates.NormalizationForgetsOrder` | profiles/apizzamichigan/src/fsq-preview.ts:577-660 | any permutation of the same rows normalizes to the identical list, in the order both validators demand |
| `Keyset.PageIsSlice` | packages/adapter-postgres/src/index.ts:480-503 | each keyset page continues exactly where the previous one ended |
| `SnapshotReader.DocumentBytes` | packages/adapter-postgres/src/index.ts:833-837 | the running byte count is the exact length of the canonical document |
| `SnapshotReader.ReadPage` | packages/adapter-postgres/src/index.ts:860-948 | a page is accepted exactly when all its rows pass transfer and checks, and fails for its first row that does not |
| `SnapshotReader.ReadSnapshot` | packages/adapter-postgres/src/index.ts:820-960 | a read returns the entire relation in strictly increasing cursor order within both limits, or fails; it returns exactly when the stated condition on the relation holds |
| `SnapshotReader.ReadableExactly` | packages/adapter-postgres/src/index.ts:844-859 | with the sizes the server measures, a read returns exactly when cursors are valid, the relation and the empty document are within their limits and every row is valid, within the row limit and meets the byte limit with the rows of its own page counted as payload text, and one byte more from the second page on |
| `SnapshotReader.DocumentNeeded` | packages/adapter-postgres/src/index.ts:439-459 | what a row needs is the document so far, the blanks of its page so far and that byte; the blanks are never negative |
| `SnapshotReader.FittingFirstPageIsRefused` | packages/adapter-postgres/src/index.ts:844-859 | a one-row document that fits the limit exactly is refused, and read with one byte more |
| `SnapshotReader.FittingNextPageIsRefused` | packages/adapter-postgres/src/index.ts:844-859 | a two-page document that fits with the blanks of its last page to spare is refused, and read with one byte more |
| `OvertureTiles.Tiles` | packages/food-runtime/scripts/ops/export-overture-tiles.py:48-61 | the nested loops build the grid of the specification |
| `OvertureTiles.TilesCoverTheBox` | packages/food-runtime/scripts/ops/export-overture-tiles.py:48-61 | the tiles hold exactly the points of the box |
| `OvertureTiles.TilesOverlapAtEdgesOnly` | packages/food-runtime/scripts/ops/export-overture-tiles.py:48-61 | tiles are distinct and no point lies inside two of them |
| `OvertureExport.TileStep` | packages/food-runtime/scripts/ops/export-overture-tiles.py:208-215 | a page of limit plus one extends the prefix of the tile and is a success exactly when nothing remains |
| `OvertureExport.PageStepKeepsInv` | packages/food-runtime/scripts/ops/export-overture-tiles.py:247-262 | a page keeps every tile a faithful prefix of the pinned release and lessens its work |
| `OvertureExport.PagesMakeProgress` | packages/food-runtime/scripts/ops/export-overture-tiles.py:247-262 | each page brings the export strictly closer to completion, so it ends in a bounded number of pages |
| `OvertureExport.CompleteManifestIsTheBox` | packages/food-runtime/scripts/ops/export-overture-tiles.py:235-275 | a complete manifest holds exactly the rows of the pinned release inside the box, despite shared edges |
| `OvertureSession.Export.SelectManifest` | packages/food-runtime/scripts/ops/export-overture-tiles.py:187-205 | an incomplete release stays pinned, a complete one is archived before it is replaced, and a different archive is never overwritten |
| `OvertureSession.Export.RunSession` | packages/food-runtime/scripts/ops/export-overture-tiles.py:218-275 | a session, wherever it dies, keeps the files valid, the release pinned and archives untouched; one that wrote a page leaves less work unless all was done, and one is refused exactly when the archive of the outdated release differs |
| `OvertureSession.SessionsComplete` | packages/food-runtime/scripts/ops/export-overture-tiles.py:184-275 | however sessions are refused or die and whichever releases appear between them, the manifest is complete after as many sessions that write a page as there was work |
| `OvertureSession.OutputIsTheBox` | packages/food-runtime/scripts/ops/export-overture-tiles.py:235-275 | the output beside a complete manifest has every row of the release in the box once by id, and nothing else |
| `Manifests.RecordMetadata` | packages/artifacts-filesystem/src/index.ts:24-56 | the loops over records and keys give the record count and sorted field names of the specification, or its error |
| `Manifests.SummariesAgree` | packages/artifacts-filesystem/src/index.ts:24-56 | record count and field names depend on nothing but the meaning of the value |
| `Manifests.ManifestPrints` | packages/artifacts-filesystem/src/index.ts:192-200 | the manifest of any staged contents and metadata is a printable record, so committing never fails on it |
| `Manifests.ManifestsAgree` | packages/artifacts-filesystem/src/index.ts:192-206 | manifest digests are equal exactly when digest, byte count, record count and fields are equal and the metadata means the same |
| `ArtifactStore.ArtifactDirectory.StageJson` | packages/artifacts-filesystem/src/index.ts:118-156 | a value that prints and has one record array at most is staged as its canonical text, with what the store notes of it |
| `ArtifactStore.ArtifactDirectory.ReadStaged` | packages/artifacts-filesystem/src/index.ts:177-187 | the staged file goes on to be linked exactly when it is there with the digest it was staged under |
| `ArtifactStore.ArtifactDirectory.WriteImmutable` | packages/artifacts-filesystem/src/index.ts:59-89 | a name is created once; an existing one is accepted exactly when its contents are equal |
| `ArtifactStore.ArtifactDirectory.LinkObject` | packages/artifacts-filesystem/src/index.ts:189-206 | linking an object never collides and goes on to its manifest |
| `ArtifactStore.ArtifactDirectory.LinkManifest` | packages/artifacts-filesystem/src/index.ts:206-216 | linking a manifest never collides |
| `ArtifactStore.StoredReadsBack` | packages/artifacts-filesystem/src/index.ts:177-187 | a stored file parses back to the normalized value and has its digest |
| `ArtifactStore.RunInv` | packages/artifacts-filesystem/src/index.ts:118-230 | over every interleaving of stage, commit, discard and abort, the names of objects and manifests are the digests of their contents |
| `ArtifactStore.CollisionsNeverHappen` | packages/artifacts-filesystem/src/index.ts:78-84 | the collision error is unreachable, for objects and manifests |
| `ArtifactStore.LinksAreForever` | packages/artifacts-filesystem/src/index.ts:59-89 | objects and manifests, once linked, never change or disappear |
| `ArtifactStore.CommittedValuesReadBack` | packages/artifacts-filesystem/src/index.ts:232-276 | at any time after a commit, reading the artifact returns the normalized value that was staged, and its manifest is the record that describes it |
| `ArtifactStore.EqualCommitsAgree` | packages/artifacts-filesystem/src/index.ts:186-222 | commits share a content digest exactly when their values agree up to key order, and a manifest exactly when the metadata means the same too |
| `ArtifactStore.CommitsSucceed` | packages/artifacts-filesystem/src/index.ts:158-230 | a commit that found its staged file succeeds after four answers of the file system, whatever interleaves, unless it is aborted or its file is removed before it is read |
| `ArtifactStore.EqualCommitsSucceedAlike` | packages/artifacts-filesystem/src/index.ts:158-230 | concurrent commits of equal values with equal metadata both succeed, with the same digests |
| `Admission.DoubleSumIsExactOrLarge` | packages/core/src/admission.ts:68-76 | a sum in doubles is exact while safe, and unsafe exactly when the true sum is |
| `Admission.FitsIsExact` | packages/core/src/admission.ts:77-94 | the comparisons of one resource in doubles are those of exact integers |
| `Admission.DiskIsExact` | packages/core/src/admission.ts:96-107 | so is the comparison with the free-disk watermark |
| `Admission.EvaluateAdmission` | packages/core/src/admission.ts:21-111 | the verdict is the exact-integer one on all inputs |
| `Admission.HeldWithinLimits` | packages/core/src/admission.ts:21-111 | over any admissions and releases every total and group stays within its limit |
| `Admission.ReleaseOnlyHelps` | packages/core/src/admission.ts:21-111 | what is admissible stays admissible when a reservation goes away |
| `ApplyAncestry.CheckDerived` | packages/core/src/readiness.ts:328-385 | the loop over parents accepts a derived output exactly when it carries the accumulated stamps and attributions, the parents' redistribution and no later expiry |
| `ApplyAncestry.AncestryIsPreserved` | packages/core/src/readiness.ts:263-400 | stamps, attributions, redistribution and expiry of a dataset are those of its source ancestors together, though each check sees one stage |
| `ApplyAncestry.PublicWritesHaveApprovedSources` | packages/core/src/readiness.ts:1029-1060 | whatever may be written publicly has redistribution-approved, unexpired source ancestors only |
| `ApplyAncestry.ApprovalIsConsistent` | packages/core/src/readiness.ts:1044-1056 | a dataset is approved exactly when all its stamped policies are |
| `ApplyAuthorization.AuthorizedPublicWritesAreApproved` | packages/core/src/readiness.ts:1029-1060 | at any point of any run a public write is authorized only for a dataset whose source ancestors are all unexpired and approved |
| `ApplyAuthorization.LedgersOnlyGrow` | packages/core/src/readiness.ts:263-400 | a registered dataset never changes |
| `ApplyAuthorization.Authorizations.BeginStageInvocation` | packages/core/src/readiness.ts:792-913 | an invocation begins exactly under a fresh stage-run identity with registered, unexpired inputs stamped by the profile |
| `ApplyAuthorization.Authorizations.ValidateStageOutputs` | packages/core/src/readiness.ts:1128-1144 | outputs are registered exactly when each is a source dataset within its policy or carries the ancestry of all inputs |
| `ApplyAuthorization.Authorizations.CloseStageInvocation` | packages/core/src/readiness.ts:915-930 | only its owner closes an invocation |
| `ApplyAuthorization.Authorizations.BindMutationSubject` | packages/core/src/readiness.ts:932-1003 | subjects are bound only to an open, owned invocation |
| `ApplyAuthorization.Authorizations.AuthorizeEffect` | packages/core/src/readiness.ts:1005-1126 | an effect is authorized exactly for an open owned invocation, its stage and an unexpired input, approved when the write is public, or a valid unspent subject, which it then consumes; a refusal changes nothing |
| `ApplyAuthorization.EachSubjectIsSpentOnce` | packages/core/src/readiness.ts:1075-1126 | over any calls a bound subject backs at most one authorization and is consumed exactly when it has |
| `ApplyAuthorization.StageRunsAreNeverReused` | packages/core/src/readiness.ts:799-808 | no context begins two invocations under one stage-run identity, open or closed |
| `ApplyAuthorization.ClosedStaysClosed` | packages/core/src/readiness.ts:915-930 | invocation handles are never reissued and owners never change |
| `ApplyAuthorization.NothingAfterClose` | packages/core/src/readiness.ts:915-930 | after a close no authorization, binding, return of outputs or close on the invocation succeeds in any context |
| `ApplyAuthorization.ForeignContextsAreRefused` | packages/core/src/readiness.ts:1005-1018 | an authorization succeeds only for the context that began the invocation, and for its own stage |

## Left out

- Network, SQL, Parquet, file modes and path checks: the queries, links and renames are steps with the contract their callers rely on.
- SHA-256: a digest stands for the text it was computed from, so digests are injective.
- Numbers in JSON values are identified with the decimal literal that is printed for them, so negative zero is zero.
- UTF-8 decoding before recognition, and JSON.parse of a single string literal, which the grammar's meaning of a literal stands for.
- Wall-clock timeouts: an abort that may happen at any step. The abort signal of the Postgres read is not modelled.
- Distance, cosine and name scores of the matcher are arbitrary functions; a distance within the limit is taken to bound both coordinate differences by two grid cells, from points in scope to points with a latitude within 90 and a longitude within 180 degrees of zero.
- The matcher's prefetch does not keep every place within the distance limit; only agreement with the padded boxes is claimed.
- MatchRun.ReportsReconcile: field shapes, version and configuration constants of the report are not modelled.
- Matcher.AssertCandidateInputs: the types of a row's fields are those of the data model, and are not checked again.
- Matcher.ValidateDecisions: likewise for the fields of a decision.
- Matcher.DecisionsAreValid: likewise.
- MatchRun.AssertCanonicalSnapshot: likewise for the fields of a snapshot row.
- MatchRun.MatchCandidates: likewise; partitions are compared, and the report's field shapes are those of ReportOk.
- Text normalization, phone and URL comparison, and the pizza vocabulary, which routing takes as given.
- StageBrokers.StageBroker.StoreDropped: a discard the store refuses leaves the artifact in the store and is recorded as refused.
- A discard refused while the broker closes makes close reject; the model stops at that point.
- Delivery receipts and commitStagedOutput beyond the finalization it shares with derived outputs.
- Pipelines.CheckStages: the field checks of a stage beyond placement and inputs (effects, source bindings, resources) are one outcome per stage.
- Pipelines.ValidateDefinition: the field checks on the definition itself and on catalog entries are one outcome.
- Admission inside the stage loop and the observed disk space: a stage that is not admitted is a stage that fails.
- StateStores.ExecuteRun: other processes writing to the same run are not modelled.
- OvertureTiles.Tiles: coordinates are integer micro-degrees, in which the rounding of tile edges is exact.
- OvertureSession.Export.RunSession: tiles stand for their keys, and rows without an id, counts, statuses and update times of a manifest are not modelled; two complete manifests of one release differ in the program when their update times do.
- ApplyAuthorization.Authorizations.BeginStageInvocation: ports, references, schemas and provenance of the inputs are one outcome; that a source stage has no inputs is not checked here by the program but follows from catalog validation (packages/core/src/validation.ts:157-165), and the model demands it at the start of an invocation.
- ApplyAuthorization.Authorizations.ValidateStageOutputs: schemas, policies and provenance fields of the outputs are one outcome; ephemeral outputs, which no later apply stage may read, are not modelled.
- ApplyAuthorization.Authorizations.AuthorizeEffect: the deployment's grant check is a parameter.
- ArtifactStore.ArtifactDirectory.StageJson: the byte limit and a write cut short by an abort are not modelled; a value is staged whole or not at all, where the program leaves the file behind when the record summary is refused.
- ArtifactStore.EqualCommitsAgree: byte limits and size checks on staging and reading are left out; digests and paths in a manifest stand for what they are computed from.
- Profile declarations, command-line runners, the download cache and report writing.
