# finance-sync: a verified model of its gates, retention and connector loops

This project models, in Dafny, the parts of finance-sync whose correctness is a matter of logic and not of wiring, and proves what they promise for every input, every run and every reachable state.

- **OpenAPI diff gate** (`OpenApi*.dfy`). Documents are datatypes; `OpenApiDiff` holds the findings of every comparison twice, as functions and as the appending code over a shared list, proved equal. `OpenApiReported` says of the documents alone which findings occur, `OpenApiOrder` in which order, each once. `OpenApiCompatibility` shows that "nothing breaking" is a relation on documents; `OpenApiPreorder` says exactly when it composes; `OpenApiSurface` what it means in both directions; `OpenApiMirror` what swapping base and head does to the findings and `OpenApiUnreported` which findings never occur; `OpenApiRequests` what it guarantees to callers; `OpenApiGate` the allowlist and the exit code; `OpenApiSignatures` its entries in literal text and `OpenApiPlaces` when an entry names one place.
- **Audit retention executor** (`Retention*.dfy`). `Retention` gives the meaning of one run as a function of the state before it; `RetentionExecutor` is the executing code over its two tables and the record store, proved to do just that; `RetentionRun`, `RetentionTallies`, `RetentionReplay` and `RetentionCounts` prove what holds of every run, `RetentionChain` what holds over every sequence of runs of one context, `RetentionGuard` exactly when it holds over runs of many, `RetentionStops` exactly when roll-backs and interruptions do as promised, and `RetentionLimits` shows from a fresh process where the promises stop.
- **Backup pruning** (`Backup*.dfy`). `BackupRetention` states the kept set on sets of files, ordered by timestamp and then by name, and proves that pruning after every backup equals pruning once, for every order of arrival; `BackupLimits` says for which daily limits; `BackupPruner` is the code.
- **Disaster-recovery report chain** (`DrSla.dfy`; `IsoStamps.dfy` reads its timestamps digit by digit, on the Gregorian calendar), **Plaid paging** (`PlaidPaging.dfy`), **CSV import** (`CsvImport.dfy`), **coverage summary** (`Coverage.dfy`), **worker scaling** (`Autoscaling.dfy`).

Modelling choices. Keyed digests are injective, so run and claim keys are tuples; the secret they are keyed with is part of the context of a run. The delete callback is an oracle that deletes, fails or is interrupted, and only a deletion has an effect. Week and month labels are arbitrary functions of the timestamp. Timestamp, date, amount and tenant-pattern parsers are parameters or already-read cells. Clocks, network replies and database outcomes are parameters. Redaction leaves the modelled fields alone. Counters kept in dictionaries of dictionaries are multisets of (category, tag) marks. JSON null is an absent key, and Python's quoting inside a rendered signature is plain quoting.

Where the code and its own documentation differ, the model follows the code:

- A new enum value is documented as reported; the diff does not report it (`scripts/check_openapi_diff.py:31`, `:464-475`). Hence the two exceptions of `HasMirror` (`MirroredExactly`).
- Servers are commented as informational only; a removed server is breaking (`scripts/check_openapi_diff.py:481-495`).
- `changed_parameter_in` is documented as the report of a moved parameter, but parameters are matched by `in:name`, so with the standard locations it cannot occur (`MovesAreNeverReported`).
- The allowlist example puts a method into a `removed_path` signature; the code's signature holds the path alone (`scripts/check_openapi_diff.py:43`, `:504`).
- Weekly buckets are documented as ISO weeks; the label used is `%Y-%W` (`deploy/wealthfolio/backup.py:256-259`). The theorems hold for any labelling.
- Alerts are documented as at most one per tenant and window; a run publishes all its conditions at once, and a run without conditions resets the window (`PublishesExactlyWhen`, `QuietRunResets`).
- The pick is documented as the newest usable backup; it is the greatest by timestamp text, which is the newest exactly within one zone (`NewestIffOneZone`, `WordBeatsStamps`).
- A success is documented to prove the recovery point; with an unparsable backup timestamp it is published with no age (`SuccessWithoutAge`).
- An interruption is documented to leave an auditable partial run; if a record failed before it, the run reads as a partial failure and keeps its entry (`InterruptionIsMasked`, `InterruptionIsReportedExactly`).

## Model

| member | source | states |
|---|---|---|
| StringOrder.Sorted | scripts/check_openapi_diff.py:503 | a set of names is visited once each, in ascending string order |
| OpenApiDocument.LastParameterIsRead | scripts/check_openapi_diff.py:336-337 | every key is present, and of the parameters with one key the one read is the last in the list |
| OpenApiDocument.KeysInText | scripts/check_openapi_diff.py:134-135 | a parameter's key is its place, a colon and its name, `?` standing for what is missing |
| OpenApiDocument.FingerprintsAgreeExactly | scripts/check_openapi_diff.py:138-146 | equal fingerprints iff the same reference or, without any, the same type or none |
| OpenApiDocument.ItemsAreReadExactly | scripts/check_openapi_diff.py:149-155 | items count iff the type is `array` and they are an object that is not empty |
| OpenApiDocument.MatchedParametersShareLocation | scripts/check_openapi_diff.py:134-182 | two parameters with standard locations and the same `in:name` key have the same location |
| OpenApiDiff.DroppedValues | scripts/check_openapi_diff.py:214 | exactly the base values missing from the head; none iff the head lists them all |
| OpenApiDiff.CompareKeys | scripts/check_openapi_diff.py:503-506 | appends one removal per lost key and one addition per new key, breaking where the new key is mandatory |
| OpenApiDiff.CompareParameter | scripts/check_openapi_diff.py:158-220 | appends exactly the findings of one parameter pair and changes nothing before them |
| OpenApiDiff.CompareRequestBody | scripts/check_openapi_diff.py:223-252 | appends exactly the findings of one request-body pair |
| OpenApiDiff.CompareResponses | scripts/check_openapi_diff.py:255-308 | appends exactly the findings of the responses, code by code and media type by media type |
| OpenApiDiff.CompareOperation | scripts/check_openapi_diff.py:311-385 | appends exactly the findings of one operation pair |
| OpenApiDiff.CompareMethods | scripts/check_openapi_diff.py:508-531 | appends removed, added and compared methods of a path in the canonical order |
| OpenApiDiff.CompareSchema | scripts/check_openapi_diff.py:388-475 | appends exactly the findings of one component schema |
| OpenApiDiff.DiffSpecs | scripts/check_openapi_diff.py:478-561 | returns the findings of the whole document pair in order |
| OpenApiReported.ReportedExactly | scripts/check_openapi_diff.py:158-561 | a finding is in the diff iff the two documents call for it: for every kind its place with all names, its note and its severity |
| OpenApiReported.DroppedIsPointwise | scripts/check_openapi_diff.py:214 | lost enum values are listed value by value in the order of the base |
| OpenApiOrder.DiffIsOrdered | scripts/check_openapi_diff.py:158-561 | findings come in the order of the comparisons: section by section, lost names before new ones, names ascending, methods in canonical order, the aspects of an entry in turn; and none comes twice |
| OpenApiCompatibility.CleanKeyChanges | scripts/check_openapi_diff.py:338-345 | no breaking key change iff no key is lost and no mandatory key is new |
| OpenApiCompatibility.CleanParameter | scripts/check_openapi_diff.py:158-220 | no breaking finding iff not newly required, same location and type, agreeing items, no lost enum value |
| OpenApiCompatibility.CleanParameters | scripts/check_openapi_diff.py:336-349 | no breaking finding iff every parameter is kept and no new one is required |
| OpenApiCompatibility.CleanBody | scripts/check_openapi_diff.py:352-360 | no breaking finding iff the body is kept, not newly required, and keeps its media types |
| OpenApiCompatibility.CleanResponses | scripts/check_openapi_diff.py:255-308 | no breaking finding iff every code and media type is kept with its fingerprint |
| OpenApiCompatibility.CleanOperation | scripts/check_openapi_diff.py:311-385 | no breaking finding iff id, parameters, body, responses and security are all kept |
| OpenApiCompatibility.CleanSchema | scripts/check_openapi_diff.py:388-475 | no breaking finding iff type and properties are kept and nothing becomes or is added as required |
| OpenApiCompatibility.CompatibleIffKept | scripts/check_openapi_diff.py:478-561 | the whole diff has no breaking finding iff the head keeps the base, said of the documents alone |
| OpenApiPreorder.CompatibilityComposesExactly | scripts/check_openapi_diff.py:158-561 | two clean steps make a clean step iff, wherever the middle document is silent on items or enum, the outer ones agree |
| OpenApiPreorder.CompatibilityComposes | scripts/check_openapi_diff.py:158-561 | they do when the middle document declares items and enums wherever both others do |
| OpenApiPreorder.ItemTypeChangedInTwoSteps | scripts/check_openapi_diff.py:449-463 | a concrete item-type change that is clean in two steps and breaking in one |
| OpenApiPreorder.EnumValueDroppedInTwoSteps | scripts/check_openapi_diff.py:464-475 | a concrete lost enum value that is clean in two steps and breaking in one |
| OpenApiSurface.MutuallyCompatibleIffSameSurface | scripts/check_openapi_diff.py:158-561 | neither direction breaks iff the tracked surfaces are equal and doubly declared items and enums agree |
| OpenApiSurface.DiffWithItself | scripts/check_openapi_diff.py:478-561 | comparing a document with itself reports nothing, not even additive |
| OpenApiMirror.MirrorKeyChanges | scripts/check_openapi_diff.py:503-506 | each removal or addition of a key is mirrored when base and head are swapped |
| OpenApiMirror.DiffMirrors | scripts/check_openapi_diff.py:158-561 | every finding of diff(b, h), lost operation ids and enum values aside, has its mirror image in diff(h, b) |
| OpenApiMirror.AddedIffRemoved | scripts/check_openapi_diff.py:158-561 | an addition is reported at a place iff the opposite diff reports the removal there |
| OpenApiUnreported.NewIdsAndEnumValuesGoUnannounced | scripts/check_openapi_diff.py:158-561 | no diff ever reports an added operation id or an added enum value |
| OpenApiUnreported.MovesAreNeverReported | scripts/check_openapi_diff.py:158-349 | between documents whose parameters are all in standard places, no finding says that a parameter moved |
| OpenApiMirror.MirroredExactly | scripts/check_openapi_diff.py:158-561 | a finding of diff(b, h) has its mirror image in diff(h, b) iff it is not the loss of an operation id or of an enum value |
| OpenApiMirror.LostOperationIdHasNoMirror | scripts/check_openapi_diff.py:320-333 | documents whose diff reports a lost operation id with no mirror image |
| OpenApiMirror.LostEnumValueHasNoMirror | scripts/check_openapi_diff.py:464-475 | documents whose diff reports a lost enum value with no mirror image |
| OpenApiRequests.RequestsStayAccepted | scripts/check_openapi_diff.py:158-531 | with no breaking finding, every request the base accepts is accepted by the head |
| OpenApiRequests.ResponsesKeepTheirShape | scripts/check_openapi_diff.py:255-308 | with no breaking finding, every response code and media type keeps its fingerprint |
| OpenApiRequests.ValuesStayAccepted | scripts/check_openapi_diff.py:195-220 | a clean parameter keeps every accepted value if the head declares items and enum only where the base did |
| OpenApiRequests.ValuesLostWhereMoreIsDeclared | scripts/check_openapi_diff.py:197-213 | where the head declares more, some value the base accepted is rejected |
| OpenApiRequests.RequestsStayFinelyAccepted | scripts/check_openapi_diff.py:158-531 | with no breaking finding, every request accepted down to items and enum values stays accepted: iff, at each operation that accepts any request and each parameter that accepts any value, the head declares items and enums only where the base did |
| OpenApiRequests.UsableMeans | scripts/check_openapi_diff.py:158-252 | an operation accepts some request iff its required parameters each accept a value and a required body has a media type |
| OpenApiGate.SelectPartitions | scripts/check_openapi_diff.py:624-658 | findings with and without an allowlisted signature partition the list |
| OpenApiGate.SelectByRemaining | scripts/check_openapi_diff.py:649-658 | the report's list of allowlisted findings is the list of findings the allowlist names |
| OpenApiGate.Judge | scripts/check_openapi_diff.py:616-711 | the verdict in full: exit 0 iff the allowlist is exactly the set of breaking signatures; which findings remain, which are allowlisted and which entries are stale |
| OpenApiGate.RunGate | scripts/check_openapi_diff.py:614-711 | with no allowlist, exit 0 iff the head keeps the base |
| OpenApiGate.OnlyBreakingMatters | scripts/check_openapi_diff.py:616-634 | the whole verdict is the same when additive and informational findings are struck out, wherever they stand |
| OpenApiSignatures.SignatureIsLine | scripts/check_openapi_diff.py:107-108 | kind by kind and for all names, the literal text of a signature |
| OpenApiSignatures.GateInText | scripts/check_openapi_diff.py:614-711 | exit 0 iff the allowlist holds exactly the lines of the breaking findings that the documents call for |
| OpenApiSignatures.OneLine | scripts/check_openapi_diff.py:614-711 | if the documents call for one breaking finding, its line alone is the allowlist that passes |
| OpenApiSignatures.LostPath | scripts/check_openapi_diff.py:503-504 | for every document and path, dropping that path passes iff the allowlist is `removed_path:` and the path |
| OpenApiSignatures.LostMethod | scripts/check_openapi_diff.py:513-520 | the same for a method of a path |
| OpenApiSignatures.LostSchema | scripts/check_openapi_diff.py:539-540 | the same for a schema |
| OpenApiPlaces.EntryNamesOnePlace | scripts/check_openapi_diff.py:107-108 | an entry for a lost, new or newly required name stands for one place iff its text has one reading: one method between spaces, one space after the code, one dot |
| OpenApiPlaces.OneEntryOneFinding | scripts/check_openapi_diff.py:107-108 | where no name holds a separator, findings of one kind in a diff have equal signatures iff they are equal, whatever their notes |
| OpenApiPlaces.UntidyNameCollides | scripts/check_openapi_diff.py:404-412 | for every schema name, another name that holds the beginning of a note and has the same signature |
| Retention.SelectExpired | scripts/enforce_audit_retention.py:61-74 | exactly the tenant's records created before the cut-off |
| RetentionTallies.SelectionIsPointwise | scripts/enforce_audit_retention.py:61-74 | selection goes record by record, in order, repetitions included |
| RetentionExecutor.Executor.DeleteWithRetries | scripts/enforce_audit_retention.py:146-161 | final outcome, calls and retries of the retry loop |
| RetentionExecutor.Executor.RestoreAll | scripts/enforce_audit_retention.py:169-170 | restores the given ids in reverse and nothing else |
| RetentionExecutor.Executor.MarkRemaining | scripts/enforce_audit_retention.py:182-196 | counts every record from the interrupted one on as not processed |
| RetentionExecutor.Executor.ProcessRecord | scripts/enforce_audit_retention.py:119-199 | one turn of the loop, over both tables, the store and the counters |
| RetentionExecutor.Executor.Execute | scripts/enforce_audit_retention.py:77-225 | report and new state of a run, as a function of the state before it |
| RetentionRun.CountsAreConserved | scripts/enforce_audit_retention.py:116-204 | unless rolled back, each category's candidates are its expired records and equal dry-run + deleted + failed + not-processed |
| RetentionTallies.LabelsAreExact | scripts/enforce_audit_retention.py:116-204 | for every run and category: which records count as dry-run, deleted, failed (as many as failures listed) and not processed, and how many as candidates |
| RetentionTallies.ErrorIsExact | scripts/enforce_audit_retention.py:111-202 | the error of a report: none if passed or dry, the fixed text if records failed, else that of the last call, which failed iff rolled back and was interrupted iff incomplete |
| RetentionTallies.SharedEntryExactly | scripts/enforce_audit_retention.py:95-104 | two runs share an entry iff secret and dry-run flag agree and so does the given id or, with none given, tenant, instant, callback and record ids |
| RetentionRun.RolledBackCountsOneMore | scripts/enforce_audit_retention.py:162-177 | a rolled-back run has one candidate more than counted deletes, namely the record it failed at |
| RetentionRun.StatusesExcludeEachOther | scripts/enforce_audit_retention.py:157-204 | roll-back only with zero retries and no failures; partial failure iff failures; incomplete never beside failures |
| RetentionRun.RollBackUndoes | scripts/enforce_audit_retention.py:169-177 | a rolled-back run appends its deletes and their restores in reverse, keeps the claims and drops its run entry |
| RetentionRun.CallsAreAccountedFor | scripts/enforce_audit_retention.py:146-204 | delete calls = new deletions + retries + failures + one if the run was stopped |
| RetentionRun.CallsAreBounded | scripts/enforce_audit_retention.py:146-177 | the same bound at every turn of the loop |
| RetentionRun.RunCallsAreBounded | scripts/enforce_audit_retention.py:146-177 | a whole run makes at most max_retries + 1 delete calls per expired record, one per record if the limit is negative |
| RetentionReplay.ReplayChangesNothing | scripts/enforce_audit_retention.py:105-145 | replaying a passed run under its id makes no call, changes no state and reports the same counts |
| RetentionReplay.OtherRunsKeepTheEntry | scripts/enforce_audit_retention.py:104-106 | a run under another key leaves this key's completed ids alone |
| RetentionReplay.TotalsAreConserved | scripts/enforce_audit_retention.py:116-168 | result totals count each handled record once, as dry-run iff the run is dry, failures as often as listed, up to the record that stopped the run |
| RetentionReplay.DryRunTouchesNothing | scripts/enforce_audit_retention.py:133-136 | a dry run makes no call and leaves store, claims and completed ids alone |
| RetentionCounts.DeletedCountExactly | scripts/enforce_audit_retention.py:211-219 | whatever the callback does, a run neither dry nor stopped counts as deleted what it totals as deleted: iff max_retries is zero or no two expired records share an id that is neither completed nor claimed |
| RetentionCounts.DeletedCountIsTheTotal | scripts/enforce_audit_retention.py:211-219 | under that condition the count agrees, for each callback |
| RetentionCounts.SameIdIsCountedTwice | scripts/enforce_audit_retention.py:211-213 | without it, a callback for which the count is wrong |
| RetentionChain.RunKeepsSound | scripts/enforce_audit_retention.py:105-204 | every run, however it ends, keeps: claimed iff last operation is a delete, completed implies claimed, no double delete |
| RetentionChain.RollBackRestoresTheStore | scripts/enforce_audit_retention.py:169-177 | in every world, after a roll-back a record is gone iff it was gone before and this run did not delete it; claims are as before |
| RetentionChain.RestoresReverse | scripts/enforce_audit_retention.py:169-170 | restores undo the last deletion first |
| RetentionChain.ClaimedIffLastDeleted | scripts/enforce_audit_retention.py:105-204 | over any runs of one context: claimed iff last operation is a delete, and a restore lies between any two deletes |
| RetentionGuard.SafeIffGuarded | scripts/enforce_audit_retention.py:104-168 | no callback makes a run delete a gone record iff every expired record that is gone is claimed for the run's context or completed in its entry |
| RetentionGuard.SafeRunsIffGuarded | scripts/enforce_audit_retention.py:104-168 | over any sequence of runs of any tenants, instants and periods: no callback makes it delete a gone id iff each run is guarded when it starts |
| RetentionGuard.GuardedRunsKeepOrder | scripts/enforce_audit_retention.py:105-204 | over any guarded sequence of runs of any contexts: some context claims a record iff its last operation is a delete, and none is deleted twice |
| RetentionGuard.GuardedRunKeepsOrder | scripts/enforce_audit_retention.py:105-204 | that holds after every guarded run, however it ends |
| RetentionGuard.CountedMeansGoneExactly | scripts/enforce_audit_retention.py:119-219 | every record that a run without a stop counts as deleted, passed or partly failed, is gone: iff those that it skips as completed or claimed were gone before |
| RetentionGuard.UnguardedRunsDeleteTwice | scripts/enforce_audit_retention.py:124-127 | whenever some run of a sequence is not guarded, a callback that makes the sequence delete a gone record |
| RetentionGuard.PassedMeansGoneExactly | scripts/enforce_audit_retention.py:119-168 | all expired records are gone after a passed run iff those that it skips were gone before |
| RetentionGuard.PassedMeansGone | scripts/enforce_audit_retention.py:119-168 | they all are gone where the invariant of the run's context holds |
| RetentionStops.RollBackIsCleanExactly | scripts/enforce_audit_retention.py:162-177 | no callback makes a roll-back change the store: iff the run is dry, retries are allowed, or no expired record that is gone, but neither completed nor claimed, comes before one whose id is new to the list and neither completed nor claimed |
| RetentionStops.RollBackRevives | scripts/enforce_audit_retention.py:162-177 | otherwise, a callback whose roll-back brings back a record that was gone before the run |
| RetentionStops.InterruptionIsReportedExactly | scripts/enforce_audit_retention.py:178-206 | no callback makes an interrupted run read as anything but incomplete, or keep its entry: iff the run is dry, retries are zero, or at most one expired record is neither completed nor claimed |
| RetentionStops.InterruptionIsMasked | scripts/enforce_audit_retention.py:178-206 | otherwise, a callback whose interruption reads as a partial failure and leaves the run's entry in place |
| RetentionLimits.SharedRunIdSkipsDeletes | scripts/enforce_audit_retention.py:101-106 | a run id shared by two contexts with one secret makes the second report every record deleted without a single call |
| RetentionLimits.AnotherInstantDeletesAgain | scripts/enforce_audit_retention.py:124-127 | from a fresh process, two runs at different instants delete one record twice; the second is not guarded |
| RetentionLimits.RollBackRevivesARecord | scripts/enforce_audit_retention.py:169-177 | from a fresh process, a roll-back at another instant brings back a record an earlier run deleted; the claim stays, and a replay of the earlier run reports it deleted |
| BackupRetention.RankSurvives | deploy/wealthfolio/backup.py:252-255 | dropping bundles outside the newest n leaves at least n newer than any bundle that had n newer ones |
| BackupRetention.RetainsExactly | deploy/wealthfolio/backup.py:252-275 | the kept set is the only one with: the newest N; for each of the latest weeks and months a bundle not behind any of that label; and no bundle without such a reason |
| BackupRetention.LabelsSurvive | deploy/wealthfolio/backup.py:256-275 | dropping bundles that represent no label hides none of the first labels |
| BackupRetention.PruningBetween | deploy/wealthfolio/backup.py:241-282 | any directory between the kept set and the whole prunes to the kept set, equal timestamps included |
| BackupRetention.PruningIsIdempotent | deploy/wealthfolio/backup.py:241-282 | pruning a pruned directory removes nothing |
| BackupRetention.OnlineIsOffline | deploy/wealthfolio/backup.py:227-336 | for every history, in whatever order and with whatever timestamps, pruning after every backup leaves exactly what one prune of the whole history leaves |
| BackupRetention.KeptIsBounded | deploy/wealthfolio/backup.py:252-275 | at most N + M + K bundles are kept, and the newest is one of them |
| BackupLimits.NegativeDailyLimitDiffers | deploy/wealthfolio/backup.py:254 | for a negative daily limit, every long enough history whose weeks and months are each all equal or all different is pruned differently online |
| BackupLimits.OnlineIsOfflineExactly | deploy/wealthfolio/backup.py:227-336 | online pruning is right for every history iff the daily limit is not negative, whatever the week and month labels are |
| BackupPruner.SortByDate | deploy/wealthfolio/backup.py:242-250 | exactly the bundles whose stamp parses, newest first, and by name where stamps are equal |
| BackupPruner.KeepDaily | deploy/wealthfolio/backup.py:252-255 | keeps exactly the bundles with fewer than N newer ones, as a slice for negative N |
| BackupPruner.KeepPerLabel | deploy/wealthfolio/backup.py:256-275 | keeps exactly the newest bundle of each of the latest labels, at least one |
| BackupPruner.BackupDirectory.Prune | deploy/wealthfolio/backup.py:227-282 | leaves exactly what each of the three buckets is to keep and returns every other file by name, unparsable names included |
| BackupPruner.RunBackups | deploy/wealthfolio/backup.py:328-336 | a life of backups, in any order of timestamps and pruned each time, ends with what the three buckets keep of its whole history |
| DrSla.PickUsableBackup | scripts/dr_sla_monitoring.py:102-126 | picks an owned usable backup, the requested one or the greatest by timestamp; rejects iff none owned has the id; nothing iff none is owned |
| DrSla.PickIsFirst | scripts/dr_sla_monitoring.py:116-126 | of several backups with the requested id, or with the greatest timestamp, the first in the inventory is picked |
| DrSla.RestoreCheck | scripts/dr_sla_monitoring.py:239-496 | the step-by-step report is the declared one in every field |
| DrSla.StatusIsExact | scripts/dr_sla_monitoring.py:459-466 | every status from the run, the report before and the time the backup was made: unknown, failed, noop and success, each iff |
| DrSla.ConditionsAreExact | scripts/dr_sla_monitoring.py:239-458 | each of the six alerts is a condition, once, iff its cause is there |
| DrSla.MeasurementsAreExact | scripts/dr_sla_monitoring.py:380-398 | published age and lag are the time elapsed, at least zero, where both ends are known; id, rows and bytes; none of it if nothing was picked |
| DrSla.SuccessMeasuresAgeIffStampParses | scripts/dr_sla_monitoring.py:380-398 | a success carries an age iff the timestamp parses, and then within the objective; likewise the lag |
| DrSla.SuccessWithoutAge | scripts/dr_sla_monitoring.py:380-466 | a run that is published as a success with no age, for every timestamp that is missing or does not parse |
| IsoStamps.StampsAgree | scripts/dr_sla_monitoring.py:126 | timestamps as isoformat writes them, in one zone, with or without fractions: text order is time order, both ways |
| IsoStamps.YearStart | scripts/dr_sla_monitoring.py:129-139 | days before a year as the proleptic Gregorian calendar counts them |
| IsoStamps.EasterlyStampIsOlder | scripts/dr_sla_monitoring.py:126 | in any two zones, a pair of timestamps whose text order is not their time order |
| DrSla.PickedIsNewest | scripts/dr_sla_monitoring.py:126 | if the timestamps of the tenant's usable backups are in one zone, the picked backup is the newest of them |
| DrSla.NewestIffOneZone | scripts/dr_sla_monitoring.py:102-143 | for every inventory stamped in the given zones the pick is the newest: iff there are no two zones |
| DrSla.WordBeatsStamps | scripts/dr_sla_monitoring.py:126-143 | a timestamp that begins above the digits is picked before any real one: no age is published, and the pick is newest iff no time can be read at all |
| DrSla.PublishesExactlyWhen | scripts/dr_sla_monitoring.py:145-168 | in any chain a run publishes iff it has a condition and no remembered publication is inside the window; then all its conditions |
| DrSla.PublicationsAreApart | scripts/dr_sla_monitoring.py:145-168 | two publications without a quiet run between are at least the window apart, however the clock runs |
| DrSla.QuietRunResets | scripts/dr_sla_monitoring.py:159-160 | after a quiet run the next condition is published, however soon |
| DrSla.WithoutLagRunsAlternate | scripts/dr_sla_monitoring.py:171-182 | healthy runs that measure no lag alternate success and unknown forever |
| PlaidPaging.ClampLimit | src/finance_sync/connectors/plaid_like.py:336 | the limit itself from 1 to 500, 500 above, 1 below zero, 100 where none or zero is given |
| PlaidPaging.WellFormedIsExact | src/finance_sync/connectors/plaid_like.py:449-453 | exactly the transactions of a ledger are kept, each as often as it is there |
| PlaidPaging.WellFormedAppend | src/finance_sync/connectors/plaid_like.py:449-453 | page by page, in order |
| PlaidPaging.FetchProduction | src/finance_sync/connectors/plaid_like.py:404-458 | ends after at most one request more than the ledger is long, with the first `limit` well-formed entries or the first fault met |
| PlaidPaging.FetchTransactions | src/finance_sync/connectors/plaid_like.py:336-342 | the clamped fetch; nothing for an empty range; no fault, no error |
| CsvImport.ParseCsv | src/finance_sync/connectors/csv_import.py:201-253 | the row loop, skips and first problem included |
| CsvImport.TransactionsAreRows | src/finance_sync/connectors/csv_import.py:201-244 | one transaction for each row that is not skipped, in order, with the id, account, amount, date and description of its row |
| CsvImport.ProblemIsFirst | src/finance_sync/connectors/csv_import.py:201-253 | the problem raised is that of the first row that is not skipped and has a bad date or amount |
| CsvImport.TxnIdIsInjective | src/finance_sync/connectors/csv_import.py:181-230 | a transaction id determines file name and row number |
| CsvImport.RaisingSinceOnlyRemoves | src/finance_sync/connectors/csv_import.py:207-230 | a later `since` gives the same transactions, ids included, minus the earlier ones |
| CsvImport.FetchTransactions | src/finance_sync/connectors/csv_import.py:156-168 | the file loop with its early stop and both truncations |
| CsvImport.EarlyStopIsExact | src/finance_sync/connectors/csv_import.py:156-168 | if every file parses, the result is the slice of the concatenated parses: iff the limit is not negative or leaves no row |
| CsvImport.StopsWhenFull | src/finance_sync/connectors/csv_import.py:161-163 | files after the limit is filled do not matter, parsable or not |
| CsvImport.ReachedProblemIsRaised | src/finance_sync/connectors/csv_import.py:157-158 | a file reached before the limit is filled that does not parse ends the fetch |
| CsvImport.DirectoryIdsAreDistinct | src/finance_sync/connectors/csv_import.py:147-152 | ids are pairwise distinct across files with distinct names |
| Coverage.CountClass | scripts/coverage_report.py:191-202 | line and branch counters of one element |
| Coverage.CountsAreExact | scripts/coverage_report.py:191-202 | lines counted are all lines, covered those with hits |
| Coverage.CountingIsPointwise | scripts/coverage_report.py:191-202 | branch counters are the sums of the condition pairs |
| Coverage.ReadReport | scripts/coverage_report.py:184-235 | a summary iff all elements are named, there is one, and they sum to the reported totals; and which error otherwise |
| Coverage.FileCountersSumToTotals | scripts/coverage_report.py:203-234 | published per-file counters sum to the totals iff no element with lines is replaced by a later one of the same name |
| Coverage.CompareSummaries | scripts/coverage_report.py:345-402 | class and counts of a divergence |
| Coverage.ClassesAreExact | scripts/coverage_report.py:345-402 | when each class of divergence is given and what its counts are, in terms of the two maps |
| Coverage.ClassifyIsSymmetric | scripts/coverage_report.py:345-402 | the classification does not depend on the order of its arguments |
| Coverage.IdenticalMeansEqual | scripts/coverage_report.py:376-402 | identical iff the per-file counters are equal |
| Coverage.PercentIsExact | scripts/coverage_report.py:217-235 | a percentage is the covered part of the total, from 0 to 100, and 100 iff all is covered |
| Coverage.IdenticalSummariesPublishTheSame | scripts/coverage_report.py:217-235 | identical summaries of reports in which nothing is replaced have equal totals and percentages |
| Autoscaling.ScaleWorkers | scripts/autoscaling_policy.py:45-103 | rejects exactly the invalid inputs; stays in bounds, moves by at most one, never during cooldown |
| Autoscaling.DecisionIsExact | scripts/autoscaling_policy.py:71-85 | each action iff its cause in queue, bounds and cooldown; a worker to drain is protected iff a lease is active |
| Autoscaling.RunStaysInBounds | scripts/autoscaling_policy.py:63-85 | a run that starts in bounds is never rejected and never leaves them |
| Autoscaling.SteadyQueueSettles | scripts/autoscaling_policy.py:73-85 | under a steady queue the count reaches its bound in exactly the remaining distance and stays |
| Autoscaling.ChangesAreBoundedByTime | scripts/autoscaling_policy.py:75-76 | with the cooldown restarted at each change, changes times cooldown is at most the elapsed time |

## Left out

- HMAC signing, report access control, AES bundles, key rotation and regex redaction: cryptography and text scrubbing through libraries.
- SQL, migrations, application wiring, configuration, argument parsing and printing.
- Request-body schema contents and `$ref` resolution: the diff compares fingerprints only.
- OpenApiRequests.RequestsStayAccepted: acceptance is path, method, required and typed parameters, body and security; items and enum values are in `RequestsStayFinelyAccepted`, with its condition, since the diff does not report ones newly introduced.
- OpenApiPlaces.OneEntryOneFinding: for findings with a note the condition on names is sufficient only; `UntidyNameCollides` shows a collision, and the exact condition is a matter of how type names are quoted.
- OpenApiDiff.CompareSchema: the recursion guard `_seen` is not modelled; every call starts with an empty one, so it never stops anything.
- Documents whose parameters, properties or component schemas are not JSON objects: the script raises on them.
- RetentionChain.ClaimedIffLastDeleted: for runs of one tenant, instant, period and secret; `RetentionGuard.SafeRunsIffGuarded` and `GuardedRunsKeepOrder` say what holds of others, and exactly when.
- RetentionGuard.SafeRunsIffGuarded: record ids are one space for all tenants, since the callbacks are given an id and nothing else (`scripts/enforce_audit_retention.py:149`, `:170`); stores kept apart by tenant under equal ids are not modelled.
- RetentionLimits.SharedRunIdSkipsDeletes: for the same reason it speaks of the calls not made, and not of a second tenant's record of the same id.
- Re-entrant runs from inside a callback, and failures of `restore`.
- BackupPruner.BackupDirectory.Prune: file deletion that fails is not modelled, nor a file that vanishes meanwhile.
- BackupPruner.SortByDate: the sort is a stable insertion in order of listing, not the library's sort.
- DrSla.NewestIffOneZone: for timestamps as `isoformat` writes them with an offset of whole minutes; other texts that the parser accepts are not characterised, nor is a null timestamp, on which the comparison raises.
- DrSla.RestoreCheck: the published free-text fields, runbook and owner are left out; the alert time is handed on as a time and not as text.
- PlaidPaging.FetchProduction: a provider that caps pages below the requested count, or whose ledger changes while it is read, is not modelled.
- Conversion of a raw Plaid entry into a transaction, CSV tokenising, and the type, currency, status and fingerprint of a CSV transaction.
- Coverage.IdenticalSummariesPublishTheSame: percentages are exact quotients, without rounding to two places; the list of example names of a divergence is left out.
- `decide`, the backpressure rule beside the scaling rule: one branch chain, easy members only.
