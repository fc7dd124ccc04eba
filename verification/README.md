# Access Kit: a verified model of its hard core

Access Kit is a relationship-based access control plane. This project models, in Dafny, the
parts of it whose correctness is not visible from any single function, and proves what they
are for.

- **Audit log** (`CanonicalJson`, `JsonDecoder`, `JsonEquivalence`, `AuditChain`,
  `AuditRuntime`, `RuntimeSeed`, `RepositorySeeding`). The canonical printer is injective up
  to key order, shown by a decoder that inverts it. The hash chain makes any two verified
  logs with the same last hash equal. Events go to memory, to an append-only repository and
  to snapshots; writes fail and the program restarts at any moment, and no event that was
  ever durable is lost.
- **Provider reads** (`PagedReads`, `GraphDelta`, `GraphReader`, `GraphCompletion`, `RetryDelay`,
  `AwsReader`, `AwsDiscovery`, `GrantReplacement`). The incremental Microsoft Graph reader, with delta
  tokens, paging, throttling and fallback, agrees with a plain full read of a provider that is
  a growing change log. A read completes exactly when the provider gets it to its last page
  within the limits. An AWS native-access read that stops early never removes a stored grant
  and is always reported; what a load without such a stop guarantees, and which grants it
  drops, is stated exactly.
- **Backlog automation** (`DependencyCycles`, `BacklogScheduler`, `BatchOrder`). The cycle check
  is exact, a batch is the first fit in priority order, and repeated batch selection merges
  everything without overtaking a dependency.
- **Provisioning** (`IdempotencyTable`, `Enforcement`, `Provisioning`) and **policies**
  (`PolicyLifecycle`). Guards, idempotency tables and run invariants, one call as one step.
- **Smaller cores** (`ActivityConfidence`, `AuthSampling`, `RefExpansion`, `RefDocuments`).

Hashing is an arbitrary function. Nothing assumes that shortened hashes are injective; where
a collision matters, the step or the records that exhibit it are named. What connectors, clocks,
repositories and parsers answer is a parameter of each step, and each may throw.

Some of what is proved shows a limit of the code:

- An audit repository that falls behind the snapshot is never written again, because every
  append is compared with the whole log first. One failed append is enough
  (`AuditRuntime.OneFailedAppendFreezes`; exactly when: `FrozenIffLagging`).
- A repository filling that stops in the middle is neither used nor repeated by the next
  restart from the same snapshot; only later writes of the running program can complete it
  (`RepositorySeeding.PartialFillingIsStuck`).
- Only reads of scope `native_grants` lower the completeness flag, so a truncated account
  listing is taken for a complete read and grants that are still served are dropped
  (`GrantReplacement.TruncatedAccountListing`, `TruncatedAccountListingDropsGrant`; exactly
  which: `GrantIsDroppedIff`; exactly when everything was read: `EverythingWasReadIff`).
- A plan key is forgotten when another request makes the connector reuse the plan id; the
  mock connector derives revocation ids from the grant alone
  (`Provisioning.PlanIdReuseForgetsKey`; the exact condition is `PlanSurvivesStepIff`).
- A dry-run plan request that carries an approval is refused on its own replay, since the
  stored plan does not keep the approval (`Provisioning.ApprovalOnDryRunIsRefusedOnReplay`;
  exactly when: `FirstReplayIff`).
- Publish and rollback scopes join id and key with a colon. Stored policies never share one, but a
  call for an id that is not stored can read the same as an earlier call and is then answered
  with that policy's summary instead of being refused
  (`PolicyLifecycle.UnknownPolicyIsAnsweredIff`, for rollbacks `UnknownPolicyIsRolledBackIff`;
  one pair: `UnknownPolicyIsAnswered`).
- The documentation script can produce a reference out of a `$ref` that is a record
  (`RefDocuments.DocsResultCanHoldReference`; exactly when: `DocumentResultIsRefFreeIffClean`).

## Model

| member | source | states |
|---|---|---|
| JsonEquivalence.PrintDecidesEquivalence | packages/core/src/audit.ts:112-127 | two JSON values print the same text if and only if they are equal up to key order and undefined fields |
| JsonEquivalence.DecodePrint | packages/core/src/audit.ts:112-127 | a decoder written independently of the printer reads the text of any value back to its normal form and stops exactly at its end |
| JsonEquivalence.NormDecidesEquivalence | packages/core/src/audit.ts:112-127 | two values have one normal form if and only if they are equivalent |
| JsonEquivalence.NormalFormIsOrdered | packages/core/src/audit.ts:117-124 | the members of a normal form are exactly the defined fields, in increasing order of their keys: a key precedes another if it is a proper beginning of it or has the smaller code unit where they first differ |
| JsonDecoder.DecodeEscape | packages/core/src/audit.ts:120-126 | reading an escaped string back gives the string, for every sequence of code units (section 7 of RFC 8259), lone surrogates included |
| JsonDecoder.EscapesWhatMustBe | packages/core/src/audit.ts:120-126 | a code unit is copied unless it is a control character, a quote, a backslash or a lone surrogate; seven units have an escape of two characters |
| AuditChain.AuditRecorder.Record | packages/core/src/audit.ts:22-43 | appends exactly the new event, linked to the hash of the last one |
| AuditChain.VerifyAuditChain | packages/core/src/audit.ts:62-106 | verified if and only if every payload hash and every link is intact; the findings are exactly the broken payloads and links, with expected and actual values |
| AuditChain.RecordedLogVerifies | packages/core/src/audit.ts:15-48 | a recorder seeded with a verified log keeps the seed as a prefix, and every prefix of what it records verifies |
| AuditChain.RecordedLogHoldsEntries | packages/core/src/audit.ts:22-43 | a recorded log is the seed and one event for each entry, in order, from which type, actor, subject, resource, correlation, versions, payload and time can be read back |
| AuditChain.EventIdDecidesEntry | packages/core/src/audit.ts:26-28 | two recorded events have one id if and only if they record the same entry after the same event, or their id texts agree in the first 24 hash characters |
| AuditChain.EventTextDecidesEvent | packages/core/src/audit.ts:112-127 | two events have one canonical text if and only if they agree field by field, payloads up to equivalence |
| AuditChain.TamperEvidence | packages/core/src/audit.ts:62-106 | two verified logs ending in the same event hash are the same log, whatever their lengths, or an event of one and an event of the other exhibit a hash collision |
| AuditChain.LastHashDeterminesLog | packages/core/src/audit.ts:62-106 | under an injective hash the last event hash of a verified log determines the whole log |
| AuditRuntime.Runtime.AppendAuditEvent | packages/api/src/runtime-state.ts:53-82 | the repository grows by the event only when it matches the prior log and the append takes effect; anything but a clean append is recorded as a degradation with its reason |
| AuditRuntime.Runtime.PersistStoreSnapshot | packages/api/src/runtime-state.ts:279-297 | the snapshot is replaced by the whole log or left alone, and a throw is recorded |
| AuditRuntime.Runtime.RecordPersistenceDegradation | packages/api/src/runtime-state.ts:299-308 | keeps the newest entries, in order, and never more than twenty |
| AuditRuntime.Runtime.RecordAudit | packages/api/src/runtime-state.ts:42-51 | is one Record step of the transition system, with recorder and store kept in step |
| AuditRuntime.Runtime.RecordDecisionAudit | packages/api/src/local-app.ts:93-104 | the callback of the decision engine, which compares against the log without its last event, makes the same step as recordAudit |
| AuditRuntime.RecoverAppendOnlyAuditEvents | packages/api/src/runtime-seed.ts:62-83 | computes the recovery function used by the restart step |
| AuditRuntime.StepKeepsInv | packages/api/src/runtime-state.ts:42-82 | whatever outcome each write has, both durable copies stay prefixes of the log after every step, restarts included |
| AuditRuntime.RestartRecoversLonger | packages/api/src/runtime-seed.ts:62-83 | a restart recovers exactly the longer of the two copies |
| AuditRuntime.NoDurableEventIsLost | packages/api/src/runtime-state.ts:42-82 | over every run with any failures and restarts, every event that was ever durable stays durable and stays in the log |
| AuditRuntime.WrittenSnapshotIsWholeLog | packages/api/src/runtime-state.ts:279-286 | a snapshot write that takes effect leaves a snapshot that matches the whole log of that moment, whatever snapshot there was; no other step changes it |
| AuditRuntime.AppendedRepositoryIsWholeLog | packages/api/src/runtime-state.ts:53-72 | an append that takes effect in step leaves a repository that matches the whole log; no other step changes it |
| AuditRuntime.DurableAtOnceIff | packages/api/src/runtime-state.ts:42-82 | after recording an event the durable copy is the whole log if and only if the snapshot write took effect or the append was in step, and the next restart then recovers all of it |
| AuditRuntime.WrittenLogSurvives | packages/api/src/runtime-state.ts:42-82 | what such a step made durable is in the log and durable in every later run |
| AuditRuntime.PrefixOfChainVerified | packages/api/src/runtime-seed.ts:81-83 | a log whose texts are a prefix of a verified chain is itself a verified chain |
| AuditRuntime.AppendedIffInStep | packages/api/src/runtime-state.ts:60-72 | an append takes effect if and only if the repository holds as many events as the log |
| AuditRuntime.LaggingRepositoryIsFrozen | packages/api/src/runtime-state.ts:60-72 | a repository shorter than the snapshot never grows again, in any run |
| AuditRuntime.RestartThenAppendGrows | packages/api/src/runtime-state.ts:60-72 | one that is not shorter grows in the run that restarts and appends |
| AuditRuntime.FrozenIffLagging | packages/api/src/runtime-state.ts:60-72 | no run changes the repository if and only if it is shorter than the snapshot |
| AuditRuntime.OneFailedAppendFreezes | packages/api/src/runtime-state.ts:42-51 | from a first start, one failed append with a written snapshot reaches such a state |
| AuditRuntime.RecoveryIsSafe | packages/api/src/runtime-seed.ts:62-83 | with an arbitrary repository the recovered log extends the snapshot log, verifies whenever that does, and is otherwise only ever a longer verified repository |
| RuntimeSeed.RecoveredSeedKeepsEverything | packages/api/src/runtime-seed.ts:16-104 | a restart drops no record id of the snapshot whatever the repositories hold, leaves other collections alone, and recovers a log that extends the snapshot log |
| RuntimeSeed.RestartUsesRepositories | packages/api/src/runtime-seed.ts:16-104 | each group of collections comes from its own repository if and only if that is configured, not empty and holds every key of the snapshot, and from the snapshot otherwise, whatever the other repository holds |
| RuntimeSeed.StartIsRestartStep | packages/api/src/runtime-seed.ts:62-83 | the log a start begins with is that of the restart step of the audit protocol |
| RuntimeSeed.RestartAfterFilling | packages/api/src/runtime-seed.ts:54-60 | whatever the job repository holds, a graph repository filled completely from the snapshot is used by the next restart, one whose filling stopped in the middle is ignored, and either way the restart has the records of the snapshot |
| RuntimeSeed.RestartAfterJobFilling | packages/api/src/runtime-seed.ts:92-104 | the same for the job repository, whatever the graph repository holds |
| RepositorySeeding.SeedRepository | packages/api/src/runtime-seed.ts:144-172 | performs exactly the writes of all collections in order, or exactly those before the one that throws |
| RepositorySeeding.KeysAfterWrites | packages/api/src/runtime-seed.ts:144-172 | after any writes a repository holds exactly its former keys and the written ones |
| RepositorySeeding.RecordsAfterWrites | packages/api/src/runtime-seed.ts:144-172 | after any writes a key holds the last record written under it, or what it held before |
| RepositorySeeding.FillingCopiesSnapshot | packages/api/src/runtime-seed.ts:144-172 | a repository filled completely holds exactly the collections of the snapshot, in their order |
| RepositorySeeding.FilledRepositoryIsUsed | packages/api/src/runtime-seed.ts:123-134 | after a complete filling the repository contains all the keys of the snapshot, so it is used |
| RepositorySeeding.PartialFillingIsStuck | packages/api/src/runtime-seed.ts:136-173 | after a partial filling the repository is neither used nor empty, so the next restart from the same snapshot does not fill it either |
| GraphDelta.ApplyGraphDeltaChanges | packages/connectors-microsoft-graph/src/provider-utils.ts:94-109 | the loop computes the merge function: anonymous records first, then one record per id in first-seen order |
| GraphDelta.ApplyIsAnAction | packages/connectors-microsoft-graph/src/provider-utils.ts:94-109 | applying x and then y equals applying x followed by y, order included |
| GraphDelta.ReapplyIsIdentity | packages/connectors-microsoft-graph/src/provider-utils.ts:94-109 | applying the same changes again leaves the records that have an id exactly as they were |
| GraphDelta.ApplyKeepsIds | packages/connectors-microsoft-graph/src/provider-utils.ts:94-109 | the ids afterwards are those of the cache and those of the changes, no more and no fewer |
| GraphDelta.ApplyKeepsOrder | packages/connectors-microsoft-graph/src/provider-utils.ts:94-109 | the records without an id come first, cached ones before new ones, then one record per id in the order the ids were first seen |
| GraphDelta.ChangeOfOneRecord | packages/connectors-microsoft-graph/src/provider-utils.ts:103-108 | a tombstone keeps the properties of the record it deletes that it does not carry itself, any other change replaces the record, and no other id changes |
| GraphDelta.LiveOfApply | packages/connectors-microsoft-graph/src/provider-utils.ts:94-117 | the live part of a merge equals plain set and delete on a map |
| GraphReader.PassIsBounded | packages/connectors-microsoft-graph/src/collection-reader.ts:82-170 | a pass stays within maxPages * (maxRetries + 1) calls and maxPages * maxRetries * 60000 ms of sleep |
| GraphReader.PassKeepsSound | packages/connectors-microsoft-graph/src/collection-reader.ts:68-200 | whatever the provider answers, what was read and what the continuation holds stay one answer at one position of the change log |
| GraphReader.FullReadSound | packages/connectors-microsoft-graph/src/collection-reader.ts:65-66 | a full read keeps the state sound, and a completed one shows the directory at a position not older than its start |
| GraphReader.IncrementalReadSound | packages/connectors-microsoft-graph/src/collection-reader.ts:47-53 | an increment that succeeds is current; one that fails leaves caches and tokens as they were |
| GraphReader.ReadCollectionSound | packages/connectors-microsoft-graph/src/collection-reader.ts:43-66 | every read keeps the invariant, and every completed read is current |
| GraphReader.EveryReachableStateIsSound | packages/connectors-microsoft-graph/src/collection-reader.ts:43-209 | in every reachable state a stored token implies a cache that shows the directory at exactly that token position |
| GraphReader.FailedIncrementFallsBack | packages/connectors-microsoft-graph/src/collection-reader.ts:49-65 | after a failed increment the caller gets what a fresh reader gets from the same provider |
| GraphReader.SyncRefinesFullRead | packages/connectors-microsoft-graph/src/collection-reader.ts:43-66 | while the directory stands still, a completed read through tokens and a completed full read have the same live records |
| GraphCompletion.FullReadCompletesIff | packages/connectors-microsoft-graph/src/collection-reader.ts:65-170 | a full read completes if and only if the provider gets it to a last page within the limits |
| GraphCompletion.IncrementSucceedsIff | packages/connectors-microsoft-graph/src/collection-reader.ts:47-53 | an increment succeeds if and only if it gets to a last page within the limits and some page of it offers a new token |
| GraphCompletion.ReadCompletesIff | packages/connectors-microsoft-graph/src/collection-reader.ts:43-66 | a read completes if and only if its increment succeeds, or is discarded without a throw and the full read gets to a last page; without cache and token, if and only if the full read does |
| GraphCompletion.PassFollowsReplies | packages/connectors-microsoft-graph/src/collection-reader.ts:82-170 | a pass that gets to the end has all records and the newest token it was given, has asked once for each reply and has waited as long as it was asked to |
| GraphCompletion.ReadLeaves | packages/connectors-microsoft-graph/src/collection-reader.ts:43-200 | after a completed read the cache is the returned records, and the path has a token if and only if a page of the answer offered one: the newest, and the token of the position the cache shows; an incomplete read leaves no token |
| GraphCompletion.NextReadIsIncrement | packages/connectors-microsoft-graph/src/collection-reader.ts:47-53 | a stored token at the end of the change log makes the next read one increment, merged into the cache, with no full read |
| GraphCompletion.TokenIsUsed | packages/connectors-microsoft-graph/src/collection-reader.ts:43-66 | for every directory and growth there is a provider whose first read stores a token and whose second read goes through it |
| GraphCompletion.SomeReadCompletes | packages/connectors-microsoft-graph/src/collection-reader.ts:43-66 | for every directory and every page limit of at least one there is a provider from which the first read returns the directory, completed, and stores a token |
| GraphReader.IncompleteReadWarns | packages/connectors-microsoft-graph/src/collection-reader.ts:43-141 | a read that returns without being complete adds a warning of severity warning to the list of the reader, as the last one |
| GraphReader.StoppedPassWarns | packages/connectors-microsoft-graph/src/collection-reader.ts:83-141 | a pass that stops early ends with a warning of severity warning |
| GraphReader.MicrosoftGraphCollectionReader.ReadPages | packages/connectors-microsoft-graph/src/collection-reader.ts:74-170 | the paging loop computes the pass function: how it ended, what it read, every warning, call and sleep |
| GraphReader.MicrosoftGraphCollectionReader.ReadCollectionPages | packages/connectors-microsoft-graph/src/collection-reader.ts:68-200 | the whole read: merging and storing after a complete pass, giving up after a stopped one, within the call and sleep bounds |
| GraphReader.MicrosoftGraphCollectionReader.ReadCollectionResult | packages/connectors-microsoft-graph/src/collection-reader.ts:43-66 | the public read: its result and new state, the result cached, soundness kept, completed reads current, at most twice the bounds of a pass |
| DependencyCycles.CycleCheck.Visit | scripts/lib/automation.ts:265-288 | terminates by the ids not yet on the path, finishes the item in topological order, or returns a genuine cycle |
| DependencyCycles.TopologicalIsAcyclic | scripts/lib/automation.ts:260-293 | a finishing order in which every dependency comes first excludes every cycle |
| DependencyCycles.AssertNoDependencyCycles | scripts/lib/automation.ts:260-293 | accepts if and only if the dependency graph is acyclic; a rejection reports a genuine dependency cycle |
| BacklogScheduler.ValidateBacklogItems | scripts/lib/automation.ts:94-156 | accepts if and only if every rule holds and the graph is acyclic; an error names a rule that is really broken |
| BacklogScheduler.SelectReadyBacklogBatch | scripts/lib/automation.ts:166-204 | the selection loop computes the greedy batch |
| BacklogScheduler.BatchIsSafe | scripts/lib/automation.ts:166-204 | a batch holds only ready items whose dependencies are merged, in distinct areas, all parallel and within the limit when several, and is maximal |
| BacklogScheduler.BatchStartsWithMostUrgent | scripts/lib/automation.ts:166-204 | a batch is empty if and only if nothing is eligible, and otherwise starts with an item of the highest priority |
| BatchOrder.EligibleInOrder | scripts/lib/automation.ts:172-176 | the selector looks at exactly the eligible items, each once, by priority and then in backlog order |
| BatchOrder.RankFollowsPriority | scripts/lib/automation.ts:176 | P0 ranks before P1, P2 and P3 |
| BatchOrder.BatchIsFirstFit | scripts/lib/automation.ts:178-204 | a batch is empty, the first item alone, or the first fit in that order: each parallel item whose area nothing before it took, as long as there is room |
| BacklogScheduler.SomethingIsEligible | scripts/lib/automation.ts:172-181 | in an acyclic backlog of ready and merged items, some item is eligible as long as one is ready |
| BacklogScheduler.ValidIsSchedulable | scripts/lib/automation.ts:94-156 | what validation accepts is enough for the progress theorem |
| BacklogScheduler.EverythingGetsMerged | scripts/lib/automation.ts:166-204 | with a limit of at least one, everything is merged after at most as many rounds as there are unmerged items |
| BacklogScheduler.MergedAfterDependencies | scripts/lib/automation.ts:172-175 | an item is merged in a round only when it was ready and all its dependencies were merged before it |
| BacklogScheduler.DependenciesNeverOvertaken | scripts/lib/automation.ts:172-175 | over any number of rounds there is one round that merges the item, and it starts with the item ready and its dependencies merged |
| AwsReader.ReadIsPrefix | packages/connectors-aws/src/index.ts:445-525 | what is read is a prefix of what the provider serves, and the whole of it when the read completed |
| PagedReads.CompletesIff | packages/connectors-aws/src/index.ts:455-525 | a read that follows the retry and page rules gets to the last page if and only if the replies up to the first last page hold no more pages than the limit, no refusal and never more throttles in a row than there are retries |
| AwsReader.ReadCompletesIff | packages/connectors-aws/src/index.ts:445-525 | a read completes if and only if the provider serves a last page within the page limit, refuses nothing before it and never throttles too often in a row; it then returns everything served, has asked once for each response and waited as long as it was asked to |
| AwsReader.ReadIsBounded | packages/connectors-aws/src/index.ts:445-525 | calls and sleep stay within maxPages * (maxRetries + 1) and maxPages * maxRetries * 60000 ms |
| RetryDelay.RetryAfterMilliseconds | packages/connectors-aws/src/operations.ts:150-156 | the delay in whole milliseconds, rounded up, at most a minute, and none exactly for a missing or non-positive value |
| AwsReader.UnfinishedReadIsReported | packages/connectors-aws/src/index.ts:445-504 | a native-grants read that stops early leaves a warning that says so |
| AwsReader.PushKeepsReport | packages/connectors-aws/src/index.ts:551-566 | one push keeps such a warning at severity warning |
| AwsReader.ReportSurvives | packages/connectors-aws/src/index.ts:551-566 | so does any sequence of pushes the reader and the snapshot builders make |
| AwsReader.SeverityCanDrop | packages/connectors-aws/src/index.ts:551-566 | exactly when a push would lower a severity: same key, retryable warning replaced by a non-retryable info |
| AwsDiscovery.ReadInventoryHonest | packages/connectors-aws/src/index.ts:326-345 | the completeness flag is down exactly when a native-grants read stopped early, and then a surviving warning reports it |
| AwsDiscovery.ReplaceDrops | packages/core/src/store.ts:283-292 | a replacement drops a grant if and only if it belongs to the connector and was not read again |
| AwsDiscovery.ReplaceReplaces | packages/core/src/store.ts:278-292 | after a replacement each id read again holds the last grant read under it, every other id keeps a grant of another connector, and is absent otherwise |
| AwsDiscovery.GrantsOfIff | packages/api/src/runtime-discovery.ts:43-47 | the grants of a run are those of the resources of the snapshot, no others |
| AwsDiscovery.AwsConnector.PushWarning | packages/connectors-aws/src/index.ts:551-566 | the in-place merge computes the push function |
| AwsDiscovery.AwsConnector.ReadCollectionResult | packages/connectors-aws/src/index.ts:445-525 | the paging loop computes the read function, pushes its warnings in order, consumes exactly its pages, and calls and sleeps as it says, within the bounds |
| AwsDiscovery.AwsConnector.LoadSnapshot | packages/connectors-aws/src/index.ts:326-401 | loads once: a stored snapshot is returned unchanged, a load that throws stores nothing |
| AwsDiscovery.SyncConnector | packages/api/src/runtime-discovery.ts:24-64 | an incomplete native-access read replaces no stored grant and the warnings of the run report it; a complete one replaces exactly the grants of the connector, each id read again holding the last grant read and every other one staying or going by its connector; the run lists the warnings of the connector and is completed only without any |
| GrantReplacement.RaisedFlagMeans | packages/connectors-aws/src/index.ts:403-443 | with the flag up, the assignments read are, in order, everything the provider serves for every account and permission set that was listed; a listing that did not stop early is everything the provider lists |
| GrantReplacement.InventoryHoldsCollections | packages/connectors-aws/src/index.ts:333-347 | each collection of a load is what the provider serves for its own operation: a beginning of it, and all of it unless the read is named as unfinished |
| GrantReplacement.EverythingWasReadIff | packages/connectors-aws/src/index.ts:403-443 | with the flag up, everything the provider serves was read if and only if the accounts and permission sets the two listings left out serve nothing |
| GrantReplacement.GrantedIffServed | packages/connectors-aws/src/native-grants.ts:15-101 | when a load read all assignments of what it listed, a grant is built if and only if a listed account and permission set serve an assignment behind it |
| GrantReplacement.GrantIsDroppedIff | packages/api/src/runtime-discovery.ts:43-51 | after a load with the flag up, a stored grant of the connector is dropped if and only if nothing listed serves it; it is dropped though still served if and only if everything that serves it lies in what a listing left out |
| GrantReplacement.TruncatedAccountListing | packages/connectors-aws/src/index.ts:438-440 | one such load: the account listing stops before the second account and the flag stays up |
| GrantReplacement.TruncatedAccountListingDropsGrant | packages/api/src/runtime-discovery.ts:48-51 | the replacement after it drops a stored grant that the second account still serves |
| RefExpansion.ExpandIffUnfoldingEnds | scripts/validate-openapi.ts:202-246 | expansion succeeds if and only if plain unfolding of references ends, and then with the same result |
| RefExpansion.ExpandIffAcyclic | scripts/validate-openapi.ts:202-246 | expansion succeeds if and only if no reference chain from the value returns to itself and every reference reached can be followed; a circular error names a reference a chain really returns to, any other error means a reference that cannot be followed |
| RefExpansion.AcyclicExpands | scripts/validate-openapi.ts:202-246 | every value from which all references are defined and acyclic expands, whatever else the document holds |
| RefExpansion.ReferenceBecomesTarget | scripts/validate-openapi.ts:218-246 | a reference expands to what its target expands to by itself; in an OpenAPI document every key of a sibling reads the expansion of the sibling instead |
| RefExpansion.ExpansionIsIdempotent | scripts/validate-openapi.ts:202-246 | a value without references is left as it is, and expanding an OpenAPI result again changes nothing |
| RefExpansion.OpenApiResultIsRefFree | scripts/validate-openapi.ts:202-246 | the result of the OpenAPI script holds no reference |
| RefExpansion.SiblingsWin | scripts/validate-openapi.ts:240-245 | siblings of a reference win over its target, key by key |
| RefExpansion.DocsResultIsRefFreeIffClean | scripts/validate-docs-lint.ts:382-400 | the result of the documentation script holds no reference if and only if the input is clean: no $ref property that is itself a record leads to a string |
| RefDocuments.SchemaTargetOf | scripts/validate-openapi.ts:220-232 | a reference can be followed if and only if it names a component schema that is a record |
| RefDocuments.SchemaExpansion | scripts/validate-openapi.ts:202-246 | both theorems for the component schemas of a document, with a reference-free result |
| RefDocuments.DocumentExpansion | scripts/validate-docs-lint.ts:382-400 | expansion succeeds if and only if no chain of pointers through the document returns to itself and every pointer met on one leads somewhere; each of the two errors exhibits the chain |
| RefDocuments.ChainsArePointerChains | scripts/validate-docs-lint.ts:382-400 | the chains of the expansion are exactly the chains of pointers walked through the document |
| RefDocuments.MetIsRefString | scripts/validate-docs-lint.ts:382-400 | every reference a value meets is one of the strings under a $ref property of it |
| RefDocuments.BrokenIffDangles | scripts/validate-docs-lint.ts:390-397 | a chain ends in a value that cannot be expanded if and only if a pointer met there leads nowhere in the document |
| RefDocuments.DocumentResultIsRefFreeIffClean | scripts/validate-docs-lint.ts:382-400 | the result for a value of a document meets no reference if and only if the value is clean in its document |
| RefDocuments.DecodeInvertsEncode | scripts/validate-docs-lint.ts:395 | decoding a pointer segment inverts the escaping of section 4 of RFC 6901 |
| RefDocuments.SplitJoined | scripts/validate-docs-lint.ts:394-396 | splitting and decoding an encoded path gives back its keys |
| RefDocuments.WalkPointer | scripts/validate-docs-lint.ts:393-396 | the loop follows the segments of a pointer from the document root |
| RefDocuments.PointerLeadsToKeys | scripts/validate-docs-lint.ts:393-396 | the pointer made from any keys leads where the keys lead |
| RefDocuments.TargetsAreClosed | scripts/validate-docs-lint.ts:390-397 | following references never leaves the finite set of references of the document, which bounds the recursion |
| RefDocuments.DocumentTargetOf | scripts/validate-docs-lint.ts:390-397 | a reference met during expansion can be followed if and only if its pointer walk succeeds |
| RefDocuments.DocsResultCanHoldReference | scripts/validate-docs-lint.ts:389-399 | a $ref that is itself a record is no reference, and expanding it can produce one |
| Enforcement.ReadyIff | packages/api/src/runtime-enforcement.ts:54-80 | a readiness report is ready if and only if the control is safe, the connector is the capable synthetic mock and its probe plan carries compensation |
| Enforcement.ReportAdmitsIff | packages/api/src/runtime-enforcement.ts:54-80 | the report of a readiness check admits an enforcement if and only if every check passed, connector and control are those of the check, and the change ticket has the wanted form |
| Enforcement.GuardsMeanAuthorised | packages/api/src/runtime-enforcement.ts:371-537 | the two guards pass if and only if approval, control, connector and readiness report authorise the enforcement |
| Enforcement.RefusalIsExplained | packages/api/src/runtime-enforcement.ts:371-537 | whatever reason the guards refuse with is really the case |
| Enforcement.PreparesIff | packages/api/src/runtime-enforcement.ts:93-129 | a dry run is never refused, and an enforcement is prepared if and only if it is authorised |
| Enforcement.PreparedPlanKeepsRequest | packages/api/src/runtime-enforcement.ts:93-129 | a prepared plan asks for what the connector planned; its actions start as planned and are dry runs exactly in a dry-run plan; a dry-run plan is planned, an enforcement plan approved with what the options gave |
| Enforcement.PreparedEnforcementIsAuthorised | packages/api/src/runtime-enforcement.ts:93-129 | a plan becomes an enforcement plan only when authorised, and carries the approval, control and report that authorised it |
| Provisioning.EveryApplyIsAuthorised | packages/api/src/runtime-enforcement.ts:180-192 | over every run, each apply call was made with an enforcement plan, by its own unexpired approval, safe control and ready report of the same connector |
| Provisioning.AppliesIff | packages/api/src/runtime-jobs.ts:145-191 | a job call reaches apply if and only if its key is free, the plan is a known enforcement plan in the requested mode, and the guards authorise it |
| Provisioning.JobStepKeepsInv | packages/api/src/runtime-jobs.ts:145-303 | a job call keeps the store invariant: unique ids and keys, enforcement plans with approval and control, authorised applies |
| Provisioning.EnforcementRecordsOutcome | packages/api/src/runtime-enforcement.ts:180-242 | an enforcement job is complete, its actions and its plan marked applied, exactly when the connector applied and verified; it records the approval and control of its plan |
| Provisioning.DryRunTouchesNothing | packages/api/src/runtime-jobs.ts:193-275 | a dry-run job skips every action, calls no apply and changes no plan |
| Provisioning.NewJobFollowsCall | packages/api/src/runtime-jobs.ts:178-242 | a stored job has the approver and key of the call, the connector and mode of its plan, and the verification of the connector; a dry run is completed and changes no plan; an enforcement makes one apply call, of the stored plan with its own approval, control and report, and only gives that plan its new status |
| Provisioning.JobAnswers | packages/api/src/runtime-jobs.ts:156-191 | when a job call is answered with nothing, a reused key, an unknown connector, a mode mismatch or a connector failure, each if and only if; without a stored job only an apply call leaves a trace |
| Provisioning.JobCallIsIdempotent | packages/api/src/runtime-jobs.ts:156-168 | a call that returned a job, repeated after any run that does not displace it, returns that very job and changes nothing |
| Provisioning.JobSurvivesStepIff | packages/api/src/runtime-jobs.ts:145-303 | a key keeps its job through a step if and only if the step does not store a new job under that job id |
| Provisioning.DisplacedKeyIsFree | packages/api/src/runtime-jobs.ts:156-178 | a key whose job id was taken over finds nothing any more |
| Provisioning.JobIsKeptIff | packages/api/src/runtime-jobs.ts:145-303 | a key finds its job at every point of a run if and only if no step of the run displaces it |
| Provisioning.JobIsForever | packages/api/src/runtime-jobs.ts:156-168 | over every such run matching replays return the first job of the key, others are refused, and nothing changes |
| Provisioning.AtMostOneApplyPerKey | packages/api/src/runtime-jobs.ts:145-303 | when connector calls return, a key is applied at most once over every run that does not displace its job |
| Provisioning.ThrownApplyIsRepeated | packages/api/src/runtime-enforcement.ts:192-194 | when the connector throws after apply was called, the same call applies again |
| Provisioning.PlanSurvivesStepIff | packages/api/src/runtime-jobs.ts:104-137 | a key keeps its plan through a step if and only if the step does not store a new plan under that plan id |
| Provisioning.PlanIsReplayed | packages/api/src/runtime-jobs.ts:112-125 | while its id is not reused, a key keeps its plan over every run: matching replays return it, others are refused, nothing changes |
| Provisioning.NewPlanFollowsCall | packages/api/src/runtime-jobs.ts:104-137 | a stored plan is what the connector planned, on the connector, under the key and in the mode of the call, and no other plan changes |
| Provisioning.PlanKeyIsForOneRequest | packages/api/src/runtime-jobs.ts:112-125 | once a plan is stored under a key, another call under it is only answered when it names the same connector and mode, fits the plan, and for an enforcement gives the same control, report and approval |
| Provisioning.PlanIdReuseForgetsKey | packages/api/src/runtime-jobs.ts:112-136 | two revocations of one grant under different keys: the first key has lost its plan |
| Provisioning.FirstReplayIff | packages/api/src/runtime-jobs.ts:316-370 | an immediate repetition is answered from the table if and only if the connector plan fits the request and, in dry-run mode, the options |
| Provisioning.ApprovalOnDryRunIsRefusedOnReplay | packages/api/src/runtime-jobs.ts:344-356 | a dry-run call with an approval succeeds and its repetition is refused when the connector plan has none |
| Provisioning.Runtime.CheckEnforcementReadiness | packages/api/src/runtime-jobs.ts:34-49 | keeps the invariant and every earlier report; stores a report that vouches for what it says under a new id, or changes nothing |
| Provisioning.Runtime.CreateProvisioningPlan | packages/api/src/runtime-jobs.ts:104-137 | keeps the invariant; a key that has a plan is answered without a change, a key that is given one finds it; an enforcement plan carries approval and control |
| Provisioning.Runtime.CreateProvisioningJob | packages/api/src/runtime-jobs.ts:145-275 | keeps the invariant; a key that has a job is answered without a change, a returned job is the one its key finds, of the plan and approver of the call, and at most one apply call is made, authorised |
| Provisioning.Runtime.CreateControlledEnforcementJob | packages/api/src/runtime-jobs.ts:277-303 | the enforcement half of the job step, guards first |
| IdempotencyTable.FindByKeyAfterPut | packages/core/src/store.ts:336-347 | what a key finds after a record was stored: the record, nothing when the record took over its id, else what it found before |
| ActivityConfidence.PartialOrderingIff | packages/connectors-aws/src/latency-confidence.ts:233-244 | no partial ordering is reported if and only if the delivered events can be arranged with event and delivery times both nondecreasing |
| ActivityConfidence.BuildActivityIndex | packages/connectors-aws/src/latency-confidence.ts:20-93 | each key maps to the first event of maximal time that mentions it, with its confidence; other keys are absent |
| ActivityConfidence.RawKeys | packages/connectors-aws/src/latency-confidence.ts:74-85 | the keys of an event: its account and its named resources, each once |
| ActivityConfidence.LevelIsAntitone | packages/connectors-aws/src/latency-confidence.ts:220-231 | more reasons never raise a confidence level |
| ActivityConfidence.RoundedMinutes | packages/connectors-aws/src/latency-confidence.ts:246-254 | a window is exceeded from 300 ms past its end on, since minutes are rounded to hundredths |
| ActivityConfidence.ActivityLevelIff | packages/connectors-aws/src/latency-confidence.ts:33-53 | an activity is low if and only if it is stale or was delivered before it happened, and high if and only if nothing speaks against it |
| ActivityConfidence.ReasonsOfActivity | packages/connectors-aws/src/latency-confidence.ts:33-53 | each reason of an activity, and exactly when it is given |
| ActivityConfidence.ReasonsOfFinding | packages/connectors-aws/src/latency-confidence.ts:131-156 | each reason of a finding, and exactly when it is given |
| ActivityConfidence.FindingNeverOutranksActivity | packages/connectors-aws/src/latency-confidence.ts:131-156 | a finding never ranks above its activity, is low without one, and high exactly when fresh with a high activity and no partial ordering |
| AuthSampling.FailuresAreConserved | packages/api/src/api-auth.ts:115-155 | per reason, failures equal audited events plus the suppressed counts they log plus the pending count |
| AuthSampling.SamplesAreSpaced | packages/api/src/api-auth.ts:127-136 | under any clock, audited failures of a reason are at least 60000 ms apart in log order and their window starts strictly increase |
| AuthSampling.AuditedIffWindowPassed | packages/api/src/api-auth.ts:127-130 | a failure is audited if and only if every audited failure of its reason lies at least a window before it |
| AuthSampling.FailureAuditor.RecordAuthenticationFailure | packages/api/src/api-auth.ts:115-155 | the in-place table and log are those of the run over all failures so far |
| PolicyLifecycle.EveryRunKeepsInv | packages/api/src/runtime-policies.ts:28-195 | over every run, validated and published policies have valid models, published status and version go together, and publishing never finds a model invalid |
| PolicyLifecycle.PublishIff | packages/api/src/runtime-policies.ts:91-144 | a stored policy is published under a new key if and only if it is validated, and otherwise refused without a change; publishing keeps the draft and the time of creation and changes no other policy |
| PolicyLifecycle.PublicationFollowsValidation | packages/api/src/runtime-policies.ts:28-195 | over every run from an empty store a publication that is not a replay follows a validate call that found the model valid, with no create, publication or rollback of the policy in between, and publishes the very draft that was validated |
| PolicyLifecycle.ValidatedAfterStep | packages/api/src/runtime-policies.ts:53-89 | a policy becomes validated only by a validate call that finds its model valid |
| PolicyLifecycle.ValidateChangesStatus | packages/api/src/runtime-policies.ts:53-89 | a policy that is not published becomes validated if and only if its model is valid and else keeps its status; a published one stays published; nothing else changes |
| PolicyLifecycle.CreateStoresDraft | packages/api/src/runtime-policies.ts:34-51 | a new key stores the draft under its id, unchecked, and changes no other policy |
| PolicyLifecycle.RollbackIff | packages/api/src/runtime-policies.ts:146-195 | a published policy rolls back under a new key if and only if the target is its draft version; its version and status are all that changes |
| PolicyLifecycle.CreateIsReplayed | packages/api/src/runtime-policies.ts:28-33 | the first summary of a create key is returned for ever and changes nothing |
| PolicyLifecycle.PublishIsReplayed | packages/api/src/runtime-policies.ts:91-97 | the same for a publish key |
| PolicyLifecycle.RollbackIsReplayed | packages/api/src/runtime-policies.ts:146-152 | the same for a rollback key |
| PolicyLifecycle.PolicyIdHasTwoColons | packages/api/src/runtime-policies.ts:36 | slug and hash hold no colon, so every policy id holds exactly two |
| PolicyLifecycle.ScopesAreShared | packages/api/src/runtime-policies.ts:92 | two publish or rollback scopes are equal if and only if id and key read the same once joined |
| PolicyLifecycle.StoredPoliciesShareNoScope | packages/api/src/runtime-policies.ts:91-152 | in every reachable store, calls for stored policies never share a publish or rollback scope |
| PolicyLifecycle.StoredPolicyGetsItsOwn | packages/api/src/runtime-policies.ts:91-195 | a publish or rollback call for a stored policy is only answered with a summary of that policy |
| PolicyLifecycle.UnknownPolicyIsAnsweredIff | packages/api/src/runtime-policies.ts:91-102 | a publish call for an id that is not stored is answered instead of refused if and only if a stored policy was published under a key that makes both calls read the same |
| PolicyLifecycle.UnknownPolicyIsRolledBackIff | packages/api/src/runtime-policies.ts:146-157 | a rollback call for an id that is not stored is answered instead of refused if and only if a stored policy was rolled back under a key that makes both calls read the same; nothing changes either way |
| PolicyLifecycle.UnknownPolicyIsAnswered | packages/api/src/runtime-policies.ts:91-102 | one such id and key |
| PolicyLifecycle.PolicyStore.CreatePolicy | packages/api/src/runtime-policies.ts:28-51 | keeps the invariant; the summary is of a stored policy and is what the key gives from then on |
| PolicyLifecycle.PolicyStore.ValidatePolicy | packages/api/src/runtime-policies.ts:53-89 | keeps the invariant; answers whether the model of the stored draft is valid, and a valid policy ends up validated or published |
| PolicyLifecycle.PolicyStore.PublishPolicy | packages/api/src/runtime-policies.ts:91-144 | keeps the invariant; what it publishes was validated and has a valid model, and a stored policy gets its own summary |
| PolicyLifecycle.PolicyStore.RollbackPolicy | packages/api/src/runtime-policies.ts:146-195 | keeps the invariant; a published policy under a new key goes back to its draft version and nowhere else, and a stored policy gets its own summary |

## Left out

- The decision engine, HTTP routing, command-line tools, environment parsing, network clients and Postgres adapters: plumbing, or outside the modelled cores.
- Numbers in canonical JSON: a number is its rendered literal, so how a double is rendered (and that -0 prints as 0) is not modelled.
- Values that are not JSON (dates, functions, undefined inside arrays): outside the domain of the printer.
- Crash recovery for a repository file that is torn or malformed, or whose listing throws while the program starts: the start fails before recovery.
- AuditRuntime.NoDurableEventIsLost: states the configuration with a state and an audit repository; with only one of them there is nothing to reconcile.
- AuditRuntime.Runtime.RecordAudit: the actor override of the current request is taken as part of the input.
- AuditRuntime.StepKeepsInv: a durable copy is what was written up to its canonical text; storage that changes content is covered only by RecoveryIsSafe.
- Microsoft Graph `readRecord`, cursor building and the texts and capture times of warnings: one-branch or presentational code.
- GraphReader.SyncRefinesFullRead: compares live records; the order of records and retained tombstones differ between the two reads.
- Responses with a status below 400 other than 2xx are treated as pages, as the code does; page and retry limits are natural numbers.
- Sorting of equal priorities and of timestamps uses one total order; the difference between locale comparison and code-unit comparison is not modelled.
- Parsing of the backlog table out of Markdown: regular expressions and cell splitting.
- RetryDelay.RetryAfterMilliseconds: delays are real numbers, so rounding of doubles is not modelled.
- The fixture-file AWS client's key lookup and the entity maps built from a snapshot: the snapshot builder is an arbitrary function, of which only the grants' ids are constrained (`GrantReplacement.GrantsFollowAssignments`).
- GrantReplacement.GrantIsDroppedIff: assumes that a provider answers a request for an account and permission set with their assignments, and that no two listed objects share an identifier.
- Provisioning.JobIsForever: approvals and controls are compared by value, while the code compares their JSON text, which also depends on key order.
- Provisioning.Runtime.CreateProvisioningJob: audit events and repository copies of plans and jobs are not part of this state; the two stores of one job are one step.
- Provisioning.Runtime.CreateProvisioningPlan: the look-up and the store lie on either side of an await in the code; calls are sequential here.
- Enforcement.ReadyIff: check names, messages and evidence are left out, and the pattern match of change tickets is an arbitrary function.
- ActivityConfidence.BuildActivityIndex: retry metadata is a boolean, minutes are exact hundredths rounded half up, and the aggregate latency figures are left out.
- AuthSampling.SamplesAreSpaced: times are whole milliseconds; parsing the clock text, with its fallback to the system clock, is the caller's.
- API-key parsing and constant-time comparison: plain equality, with no property beyond the standard library's.
- PolicyLifecycle.EveryRunKeepsInv: starts from a store without policies; lower-casing, the hash digits and the model check are arbitrary functions, and audit records are left out.
- Sequence numbers of readiness reports and discovery runs: ids are given to the steps, and a taken id is refused.
