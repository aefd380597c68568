# patchfox input-service, modelled in Dafny

The input service receives git events. Each one is a package URL (purl) naming a
repository, a branch and a commit, plus an uploaded archive of build and SBOM
(software bill of materials) files.

The service does three things with an event:
- it validates the event identifier;
- it bundles the archive's files per project and picks each project's root dependency graph;
- it records the event in a store of **datasets** (one per domain), **datasources**
  (one per repository and branch) and **datasource events** (one per commit).

A scheduled sweep then moves datasets and datasources through their status machine:
INITIALIZING, INGESTING, READY_FOR_PROCESSING, PROCESSING, IDLE, and so on.
A small message-queue gate admits forwarded requests.

The model has one module per concern.

| file | module | models |
|---|---|---|
| `wrappers.dfy` | `Wrappers` | `Option` and `Result` |
| `api.dfy` | `Api` | HTTP codes, replies, transaction ids |
| `java_strings.dfy` | `JavaStrings` | `String.indexOf`, `String.split` (trailing empty strings dropped), `String.join`, `Long.toString`, `isBlank` |
| `purl_validator.dfy` | `PurlValidator` | the validation chain of `InputController.inputGetHandler` |
| `mq_gate.dfy` | `MqGate` | the accept/reject gate of `MqController.inputGetHandler` |
| `bundler.dfy` | `Bundler` | `processZipFile` and `checkAndClearDiscoveredFileBuffers`: a loop over a listing, with the file/type buffers as a class |
| `graph_builder.dfy` | `GraphBuilder` | `parseProjectsMap`: root selection with SBOM fallback |
| `store.dfy` | `Store` | the three tables, their key invariants, and a `Store` class whose fields the passes update |
| `aggregate_gateway.dfy` | `AggregateGateway` | the `fetchOrMake*` upserts and the three `recordErrorAndGetApiResponse` overloads of `HibernateHelper` |
| `ingestion.dfy` | `Ingestion` | `handleGitEvent` and `setToSqlArrayString` |
| `reconciler.dfy` | `Reconciler` | `ScheduledTasks`: `curateEventStatus` and its passes, and the unwired `checkDatasetError` |

Code that changes state in the source is written as methods over the `Store` class or
the `FileBuffers` class, with loops and invariants. Each method is proved equal to a
function on the tables, and the properties are proved as lemmas about those functions.

Storage and foreign code become parameters:
- The store is three sequences.
- Events point at their datasource by index, and datasets hold a set of datasource indices.
- Times are integer milliseconds, and each pass of the sweep receives its own `now`.
- Purl parsing, `ZonedDateTime.parse`, file classification, SBOM tree building,
  `isValidForKafka` and the outcome of processing an upload are function parameters
  or abstract outcome values.

A reader might expect a second sweep over the same tables to change nothing. It can:
- `Reconciler.SweepNotIdempotent` gives tables on which a second sweep promotes a
  dataset that the first sweep left INITIALIZING.
- `Reconciler.SharedChildWaitsOneSweep` shows that a dataset sharing a datasource with
  a woken dataset is queued only by the next `checkIdle`.

The model follows the code.

## Model

| member | source | states |
|---|---|---|
| PurlValidator.Validate | src/main/java/io/patchfox/input_service/controllers/InputController.java:131-242 | accepted exactly when the fields, the qualifier keys, the commit hash and the commit datetime all pass; a rejection carries one of the four 400 messages; an accepted event carries the namespace, version, packed name, the two non-blank name parts (the name being their `::` join up to trailing separators) and both qualifiers |
| PurlValidator.FirstFailureDecides | src/main/java/io/patchfox/input_service/controllers/InputController.java:133-234 | checks run fields, qualifiers, hash, datetime; the first one that fails decides the message |
| PurlValidator.NonGenericRejected | src/main/java/io/patchfox/input_service/controllers/InputController.java:133-165 | any type other than "generic" is rejected as malformed |
| PurlValidator.BackslashInNamespaceRejected | src/main/java/io/patchfox/input_service/controllers/InputController.java:131-139 | the character class admits no backslash, so a namespace containing one is rejected |
| PurlValidator.ExtraQualifiersIgnored | src/main/java/io/patchfox/input_service/controllers/InputController.java:176-190 | adding qualifier keys other than commithash and commitdatetime never changes acceptance |
| PurlValidator.ComposedNameAccepted | src/main/java/io/patchfox/input_service/controllers/InputController.java:142-150 | any two valid parts without the separator, joined by `::` within 512 characters, form an accepted name |
| PurlValidator.TrailingSeparatorStillTwoPieces | src/main/java/io/patchfox/input_service/controllers/InputController.java:142-150 | Java's split drops trailing empty strings, so "a::b::" is still two pieces |
| PurlValidator.TripleColonSplit | src/main/java/io/patchfox/input_service/controllers/InputController.java:142-150 | "a:::b" splits into "a" and ":b" |
| JavaStrings.Split | src/main/java/io/patchfox/input_service/controllers/InputController.java:144-150 | no separator gives the string itself; otherwise the raw pieces minus trailing empty ones |
| JavaStrings.SplitTwoShape | src/main/java/io/patchfox/input_service/controllers/InputController.java:144-150 | a two-piece split means the string is the two pieces around the separator, followed by separators only |
| JavaStrings.SplitOfJoinedPair | src/main/java/io/patchfox/input_service/controllers/InputController.java:144-150 | joining two separator-free parts (the second non-empty) and splitting gives the parts back |
| MqGate.Gate | src/main/java/io/patchfox/input_service/controllers/MqController.java:51-93 | replies 200 exactly when a request is forwarded; 404 when the body or a header is missing; forwards exactly when enabled, the secret matches, the topic is one of the comma-split valid topics and the stamped request is valid; forwards the stamped request to the header topic |
| MqGate.AcceptedTopicHasNoComma | src/main/java/io/patchfox/input_service/controllers/MqController.java:58-88 | a forwarded topic never contains a comma |
| MqGate.EmptyTopicListAdmitsEmptyTopic | src/main/java/io/patchfox/input_service/controllers/MqController.java:58 | an empty topic configuration splits into one empty topic |
| Bundler.FileBuffers.Append | src/main/java/io/patchfox/input_service/services/InputService.java:525-527 | a file and its type are appended together, keeping the buffers parallel |
| Bundler.FileBuffers.CheckAndClear | src/main/java/io/patchfox/input_service/services/InputService.java:595-627 | stores exactly when the type buffer holds every necessary type and at least three entries; then it empties both buffers and maps the key to the files retagged with it; otherwise it changes nothing |
| Bundler.NecessaryTypesImplyMinimumSize | src/main/java/io/patchfox/input_service/services/InputService.java:606-611 | the three necessary types are distinct, so holding them already means at least three entries |
| Bundler.RetagAll | src/main/java/io/patchfox/input_service/services/InputService.java:614-616 | every file keeps its place and gets the key as its project name |
| Bundler.ProcessZipFile | src/main/java/io/patchfox/input_service/services/InputService.java:415-580 | the loop's map equals the fold `Bundle` over the listing |
| Bundler.BundleSound | src/main/java/io/patchfox/input_service/services/InputService.java:415-580 | every stored bundle is complete, and each of its files comes from the listing tagged with its key |
| Bundler.SkippedEntryChangesNothing | src/main/java/io/patchfox/input_service/services/InputService.java:458-474 | a directory, or a path that does not split in two around the temp root, leaves buffers, cursor and map as they were |
| Bundler.SingleProjectArchive | src/main/java/io/patchfox/input_service/services/InputService.java:442-572 | an archive whose files all lie under one project (its directories and unmatched paths being skipped) stores that project's recognised files under its name exactly when they form a complete bundle, and nothing otherwise |
| Bundler.RunSingleProject | src/main/java/io/patchfox/input_service/services/InputService.java:456-530 | while every kept entry belongs to one project, the loop stores nothing, its buffers hold exactly the recognised files so far, and its cursor is that project once a file was buffered |
| GraphBuilder.SelectRoot | src/main/java/io/patchfox/input_service/services/InputService.java:668-737 | the per-project loop computes `ProjectRoot`: the last root, or the SBOM-derived root, with the data items attached |
| GraphBuilder.ParseProjectsMap | src/main/java/io/patchfox/input_service/services/InputService.java:653-742 | iterating the map's key set (each key once), the result is the roots of the projects that have one, in key order |
| GraphBuilder.FailedFileIgnored | src/main/java/io/patchfox/input_service/services/InputService.java:679-691 | a file that throws or is not recognised does not change the project's root |
| GraphBuilder.LaterRootWins | src/main/java/io/patchfox/input_service/services/InputService.java:679-691 | the last root file wins, and carries every data item of the project |
| GraphBuilder.SbomFallback | src/main/java/io/patchfox/input_service/services/InputService.java:697-737 | without a root file, a root built from an SBOM is marked root; with no SBOM item there is no root |
| GraphBuilder.ParseSpecShape | src/main/java/io/patchfox/input_service/services/InputService.java:653-742 | for any listed keys, no more entries than keys, and each entry is the root of some listed key |
| GraphBuilder.ParseSpecPerKey | src/main/java/io/patchfox/input_service/services/InputService.java:653-742 | over the key set, each key once: a key contributes its own root at its own place when it has one and nothing otherwise, every other entry is the root of a different key, and a key's root is always in the result |
| Ingestion.SqlArrayStringIsCommaJoin | src/main/java/io/patchfox/input_service/services/InputService.java:745-750 | stripping brackets and blanks from the set's string form gives the ids joined by commas |
| Ingestion.SqlArrayStringRoundTrip | src/main/java/io/patchfox/input_service/services/InputService.java:745-750 | splitting the result on commas gives back each id's decimal form, in order |
| Ingestion.SingleIdSqlArrayString | src/main/java/io/patchfox/input_service/services/InputService.java:745-750 | one id gives just its decimal form |
| Ingestion.ProcessUpload | src/main/java/io/patchfox/input_service/services/InputService.java:217-233 | the outcome is a possible one: a throw, or the parse of one project's bundle |
| Ingestion.SingleProjectUpload | src/main/java/io/patchfox/input_service/services/InputService.java:217-233 | for an archive whose files all lie under one project, skipped entries aside, with a complete bundle, the only possible outcome is the parse of that bundle |
| Ingestion.LinkDatasource | src/main/java/io/patchfox/input_service/services/InputService.java:160-174 | the dataset gains the datasource exactly when it has it already or none of its datasources has the repository's name; nothing else about it changes except updatedAt |
| Ingestion.LinkAndTouch | src/main/java/io/patchfox/input_service/services/InputService.java:160-174 | the store afterwards is `LinkDatasource` of the store before |
| Ingestion.SaveEvent | src/main/java/io/patchfox/input_service/services/InputService.java:276-337 | the store and reply are those of `StoreEvent` |
| Ingestion.StoreEventReplies | src/main/java/io/patchfox/input_service/services/InputService.java:276-337 | the reply is 202 or 400 with the caller's txid and time; on 202 the event is the last one, no other event shares its purl, and the rest were stored before; on 400 no event was added |
| Ingestion.FreshEventAccepted | src/main/java/io/patchfox/input_service/services/InputService.java:276-337 | an event whose purl is not stored is appended and gets 202; the datasource becomes READY_FOR_PROCESSING unless INITIALIZING, PROCESSING or READY_FOR_NEXT_PROCESSING, the dataset unless INITIALIZING or PROCESSING; every other row is unchanged |
| Ingestion.LiveDuplicateRefused | src/main/java/io/patchfox/input_service/services/InputService.java:284-309 | when the root graph's purl is the event's purl: resubmitting a stored event that is not PROCESSING_ERROR gets 400 "already exists" and leaves the store untouched |
| Ingestion.ReprocessAfterError | src/main/java/io/patchfox/input_service/services/InputService.java:288-337 | when the root graph's purl is the event's purl: resubmitting a PROCESSING_ERROR event deletes it, appends the new one, promotes, and replies 202 |
| Ingestion.UnmatchedRootPurlRecordsError | src/main/java/io/patchfox/input_service/services/InputService.java:284-288 | when the event's purl is stored but no stored event has the root graph's purl, the reply is the 400 error reply and an Internal Server Error is recorded on the datasource; the events are not changed |
| Ingestion.RootPurlOfOtherFailedEventDeletesIt | src/main/java/io/patchfox/input_service/services/InputService.java:284-294 | when the root graph's purl names another stored PROCESSING_ERROR event, that event is deleted, and a Bad Request is recorded because the event's purl is still stored |
| Ingestion.StoreEventPreservesInvariants | src/main/java/io/patchfox/input_service/services/InputService.java:276-337 | saving keeps references in range and purls unique |
| Ingestion.HandleGitEvent | src/main/java/io/patchfox/input_service/services/InputService.java:95-378 | the store and result are `HandleSpec` for some outcome the upload can produce |
| Ingestion.RecordOutcome | src/main/java/io/patchfox/input_service/services/InputService.java:217-365 | the store and result are `OutcomeSpec` of the processing outcome |
| Ingestion.HandleSpecPreservesInvariants | src/main/java/io/patchfox/input_service/services/InputService.java:95-378 | on a store with unique keys the handler never throws, and keeps references in range and keys unique |
| Ingestion.EmptySbomStoresNothing | src/main/java/io/patchfox/input_service/services/InputService.java:255-269 | an empty SBOM gets 400 with its message and no event is saved |
| Ingestion.FailedUploadRecorded | src/main/java/io/patchfox/input_service/services/InputService.java:343-365 | a processing exception saves no event, replies with the error reply, and leaves the event's datasource with the Bad Request or Internal Server Error phrase and in PROCESSING or PROCESSING_ERROR |
| Ingestion.UnserializableEventRefused | src/main/java/io/patchfox/input_service/services/InputService.java:182-196 | an upload that cannot be written saves no event and gets the error reply |
| Ingestion.SubmitGitEvent | src/main/java/io/patchfox/input_service/controllers/InputController.java:226-242 | a rejected identifier leaves the store alone and replies 400 with its message; an accepted one runs the handler on the validated event |
| AggregateGateway.UpsertDataset | src/main/java/io/patchfox/input_service/helpers/HibernateHelper.java:283-322 | several datasets with the name throw; none creates an INITIALIZING dataset with no datasources; one gets the txid and time, and keeps INITIALIZING or PROCESSING, otherwise becomes INGESTING |
| AggregateGateway.FetchOrMakeDataset | src/main/java/io/patchfox/input_service/helpers/HibernateHelper.java:283-322 | the store and result are `UpsertDataset` |
| AggregateGateway.UpsertDatasetTotalOnUniqueNames | src/main/java/io/patchfox/input_service/helpers/HibernateHelper.java:288-319 | with unique names the dataset upsert never throws |
| AggregateGateway.UpsertDatasource | src/main/java/io/patchfox/input_service/helpers/HibernateHelper.java:336-386 | no match creates an INITIALIZING "Accepted" datasource with one event and both times equal; otherwise the first match counts one more event, updates time, txid and phrase, keeps its first time, and keeps INITIALIZING, PROCESSING or READY_FOR_NEXT_PROCESSING, otherwise becomes INGESTING |
| AggregateGateway.FetchOrMakeDatasource | src/main/java/io/patchfox/input_service/helpers/HibernateHelper.java:336-386 | the store and index are `UpsertDatasource` |
| AggregateGateway.WithError | src/main/java/io/patchfox/input_service/helpers/HibernateHelper.java:241-274 | one more processing error, the caller's phrase, PROCESSING kept, otherwise PROCESSING_ERROR, all else unchanged |
| AggregateGateway.RecordErrorForDatasource | src/main/java/io/patchfox/input_service/helpers/HibernateHelper.java:241-274 | only that datasource changes, as `WithError` says, and the reply is 400 with the caller's txid and time |
| AggregateGateway.RecordEventError | src/main/java/io/patchfox/input_service/helpers/HibernateHelper.java:193-229 | throws exactly when more than one event has the purl, changing nothing; otherwise replies with the 400 error reply and records the error (one more processing error, the status phrase, PROCESSING_ERROR unless PROCESSING) on exactly one datasource: the stored event's when one event has the purl, the given event's when none does; datasets never change |
| AggregateGateway.RecordErrorForEvent | src/main/java/io/patchfox/input_service/helpers/HibernateHelper.java:193-229 | the store and result are `RecordEventError` |
| AggregateGateway.RecordEventErrorSavesOnlyWithPayload | src/main/java/io/patchfox/input_service/helpers/HibernateHelper.java:200-228 | an unknown event is saved as PROCESSING_ERROR only when it has a payload; a known one leaves the events as they were |
| AggregateGateway.RecordEventErrorPreservesInvariants | src/main/java/io/patchfox/input_service/helpers/HibernateHelper.java:193-229 | with unique purls it never throws, and it keeps the invariants |
| AggregateGateway.RecordTxidError | src/main/java/io/patchfox/input_service/helpers/HibernateHelper.java:127-182 | succeeds exactly when one event has the txid and one datasource has its coordinates; then replies 400, otherwise throws and changes nothing |
| AggregateGateway.RecordErrorForTxid | src/main/java/io/patchfox/input_service/helpers/HibernateHelper.java:127-182 | the store and result are `RecordTxidError` |
| AggregateGateway.RecordTxidErrorTargetsItsDatasource | src/main/java/io/patchfox/input_service/helpers/HibernateHelper.java:132-174 | with a unique event and a unique datasource, the error is recorded against that datasource |
| AggregateGateway.UpsertDatasetPreservesInvariants | src/main/java/io/patchfox/input_service/helpers/HibernateHelper.java:283-322 | the dataset upsert keeps references in range and names unique |
| AggregateGateway.UpsertDatasourcePreservesInvariants | src/main/java/io/patchfox/input_service/helpers/HibernateHelper.java:336-386 | the datasource upsert keeps references in range and purls unique |
| Reconciler.CurateEventStatus | src/main/java/io/patchfox/input_service/scheduled/ScheduledTasks.java:41-48 | the store afterwards is `Sweep`: checkDoneInitializing, then checkDoneIngesting, then checkIdle, and no checkDatasetError |
| Reconciler.DoneInitializing | src/main/java/io/patchfox/input_service/scheduled/ScheduledTasks.java:54-112 | a stale INITIALIZING datasource becomes READY_FOR_PROCESSING exactly when all its events are READY_FOR_PROCESSING or PROCESSED; an INITIALIZING dataset is promoted exactly when, after that, no child is INITIALIZING or INGESTING; nothing else changes |
| Reconciler.CheckDoneInitializing | src/main/java/io/patchfox/input_service/scheduled/ScheduledTasks.java:54-112 | the store afterwards is `DoneInitializing` |
| Reconciler.DoneIngesting | src/main/java/io/patchfox/input_service/scheduled/ScheduledTasks.java:120-201 | a stale INGESTING datasource becomes READY_FOR_PROCESSING exactly when it has a READY_FOR_PROCESSING event and no INGESTING one, and IDLE otherwise; an INGESTING dataset becomes READY_FOR_PROCESSING exactly when a child is, IDLE otherwise; no dataset is left INGESTING |
| Reconciler.CheckDoneIngesting | src/main/java/io/patchfox/input_service/scheduled/ScheduledTasks.java:120-201 | the store afterwards is `DoneIngesting` |
| Reconciler.PickedUpTo | src/main/java/io/patchfox/input_service/scheduled/ScheduledTasks.java:237-256 | a dataset is picked exactly when it is IDLE and has a child that is READY_FOR_PROCESSING or holds a READY_FOR_PROCESSING event |
| Reconciler.PickIdleDatasets | src/main/java/io/patchfox/input_service/scheduled/ScheduledTasks.java:237-256 | the collected list is `PickedUpTo` of the whole table |
| Reconciler.CheckIdleInStore | src/main/java/io/patchfox/input_service/scheduled/ScheduledTasks.java:207-272 | the store afterwards is `CheckIdle` |
| Reconciler.CheckIdleQueuesWork | src/main/java/io/patchfox/input_service/scheduled/ScheduledTasks.java:237-269 | a dataset with work, once settled, becomes READY_FOR_PROCESSING stamped `now`, and every one of its children becomes READY_FOR_PROCESSING |
| Reconciler.CheckIdleLeavesNoIdleWork | src/main/java/io/patchfox/input_service/scheduled/ScheduledTasks.java:237-269 | a dataset left IDLE has no child with a READY_FOR_PROCESSING event, and each READY_FOR_PROCESSING child belongs to a queued dataset |
| Reconciler.IdleWithoutWorkUntouched | src/main/java/io/patchfox/input_service/scheduled/ScheduledTasks.java:237-256 | an IDLE dataset without work is left as it is |
| Reconciler.IdleWithReadyChildQueued | src/main/java/io/patchfox/input_service/scheduled/ScheduledTasks.java:237-269 | an IDLE dataset with a READY_FOR_PROCESSING child is queued, stamped `now` |
| Reconciler.SharedChildWaitsOneSweep | src/main/java/io/patchfox/input_service/scheduled/ScheduledTasks.java:237-269 | a dataset sharing a child with a queued dataset stays IDLE while the child becomes READY_FOR_PROCESSING, and is queued by the next checkIdle |
| Reconciler.DatasetError | src/main/java/io/patchfox/input_service/scheduled/ScheduledTasks.java:279-305 | a dataset's status changes exactly when it is PROCESSING, last updated over six hours ago and has a failed child, and then it becomes PROCESSING_ERROR |
| Reconciler.CheckDatasetError | src/main/java/io/patchfox/input_service/scheduled/ScheduledTasks.java:279-305 | the store afterwards is `DatasetError` |
| Reconciler.SweepPreservesInvariants | src/main/java/io/patchfox/input_service/scheduled/ScheduledTasks.java:54-272 | the sweep changes no event and no child set, keeps table sizes, and keeps the invariants |
| Reconciler.SweepDatasetTransitions | src/main/java/io/patchfox/input_service/scheduled/ScheduledTasks.java:54-272 | each dataset moves only along the allowed transitions, is never left INGESTING, keeps READY_FOR_PROCESSING and PROCESSING_ERROR, and changes updatedAt only when queued, to the checkIdle clock |
| Reconciler.SweepDatasourceTransitions | src/main/java/io/patchfox/input_service/scheduled/ScheduledTasks.java:54-272 | a datasource is unchanged, or becomes READY_FOR_PROCESSING, or goes from INGESTING to IDLE |
| Reconciler.SweepLeavesNoStuckIngesting | src/main/java/io/patchfox/input_service/scheduled/ScheduledTasks.java:125-164 | after the sweep no datasource is INGESTING and stale |
| Reconciler.QuietPasses | src/main/java/io/patchfox/input_service/scheduled/ScheduledTasks.java:54-201 | with nothing INITIALIZING or INGESTING the first two passes change nothing |
| Reconciler.SweepNotIdempotent | src/main/java/io/patchfox/input_service/scheduled/ScheduledTasks.java:88-164 | an INITIALIZING dataset whose only child is stale and INGESTING survives one sweep and is promoted by the second, so a second sweep can change the tables |

## Left out

- Purls with a null namespace, version or qualifier map are not modelled; the fields are strings and the qualifiers a map. Length limits count characters, not UTF-16 code units.
- Purl parsing, qualifier-key lower-casing, `ZonedDateTime.parse` and `now()`, `DataFile` classification and `process()`, SBOM tree building, JSON payload serialisation, `isValidForKafka` and `makeRequest` are foreign code. They are parameters or abstract outcome values.
- Unzipping, directory listing, writing the upload to a temporary directory and deleting it are file-system I/O. The listing is an input sequence, and a failed write is a boolean.
- The temp-root split of each path is modelled as a literal split on the temp directory string, not as a regular expression.
- The stored procedures behind the dataset and datasource upserts are not visible. The `fetchOrMake*` helpers stand in for them. Their atomicity under concurrent callers is out of scope.
- `savePackages` and `saveFindingData` are not modelled: the first only loops over a foreign call, and the second is incomplete dead code.
- KafkaBeans (topic beans, listeners, reflection dispatch) is transport and is not part of this model.
- EnvironmentComponent is configuration; its values are parameters.
- Spring scheduling, `@Transactional`, rollback and logging are not modelled. Only the sweep is transactional; `handleGitEvent` is not. So when a PROCESSING_ERROR event is deleted and the retried save fails, the source keeps the deletion, and so does the model.
- A new datasource's error counter is taken as 0, because the Datasource entity's defaults are not part of this model.
- Counters are unbounded integers; `long` overflow is not modelled.
- Repository queries by purl or txid are modelled as lookups by position in the table. Query results come back in storage order. Events point at their datasource by index, which agrees with lookup by purl while purls are unique.
- `HashMap` key order and `findAny` are nondeterministic in the source. The key order is a parameter, and the upload outcome is any outcome the archive allows.
- Ingestion.StoreEvent: the lookup after a failed save uses the root graph's purl, not the event's purl, and is modelled as written. The documented rule (a duplicate gets 400 "already exists", and a PROCESSING_ERROR duplicate is replaced) therefore holds only when the two purls agree, which is what `Ingestion.LiveDuplicateRefused` and `Ingestion.ReprocessAfterError` assume. A root graph read from a dependency-graph file may carry another purl. Then `Ingestion.UnmatchedRootPurlRecordsError` shows a duplicate reported as an Internal Server Error, and `Ingestion.RootPurlOfOtherFailedEventDeletesIt` shows another event being deleted.
- GraphBuilder.ProjectRoot: the source starts each project from a dummy `PackageWrapper` built from the event's type, namespace, name and version, and treats "the root is still equal to the dummy" as "no root file was parsed". The model uses `None` for that, so it assumes that no parsed root equals the dummy. `PackageWrapper.equals` is not part of this model. If it compares fields, a parsed root equal to the dummy would be discarded in favour of the SBOM fallback, and `GraphBuilder.LaterRootWins` would not hold for that root.
- Reconciler.CurateEventStatus: each pass reads one clock, while `checkIdle` reads `now()` once per dataset; the stamp is the same for every queued dataset in the model.
- Reconciler.DoneInitializing: children are looked up by index, so a child index outside the table counts as no child.
