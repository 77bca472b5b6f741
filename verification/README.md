# pz-workflow: a model and its proofs

pz-workflow accepts event types, events and triggers. An event is checked
against its type, stored, and percolated: every stored trigger whose condition
matches it gets a job published with the event's values substituted into it, and
an alert is recorded. Repeating events are also kept in a cron store and posted
again on schedule.

The model follows the Go code, in its own form. Tree walks over Go maps are
methods that take the keys in any order; their contracts are relations
(`Renames`, `IsVars`), so a result proved of them holds for every iteration
order. The service is a class over its stores; each operation is proved against a
relation on the stores (`ServiceSpec`) that says what happens for every set of
failing store calls, and against what a caller gets from it (`ServiceContracts`);
its `Valid()` is the integrity of the stores, which every handler keeps. The theorems
about runs are proved of the relations. The goroutines of one event are a transition
system in which any interleaving may happen.

| file | subject |
|---|---|
| `Json`, `Records` | JSON trees (section 3 of RFC 8259), the records of the service |
| `DottedNames`, `ConditionKeys` | dotted names; how one key of a condition is rewritten, encoded, stripped |
| `ConditionTrees`, `StoredTrees` | the tree walks; when a tree comes back from storage |
| `TriggerConditions`, `TriggerUpdates`, `LostFields` | posting, reading and updating a condition; which fields updates lose |
| `Percolation` | what a condition means, and that rewriting keeps it |
| `MappingCompiler`, `Flattening`, `Precheck`, `EventValidator`, `AmbiguousMappings` | the schema compiled from a mapping; flattened variables; the check of a new type; the validator; typing |
| `JobTemplate` | substitution into a job |
| `FanOut`, `FanOutSafety`, `FanOutAnswers`, `FanOutJoin`, `RacyCounter` | the goroutines of PostEvent, what each answer that they get leads to, and the unlocked counters |
| `ServiceSpec`, `ServiceContracts`, `Service`, `Client` | the operations over the stores, what they promise, and a user of the service |
| `ServiceInvariants`, `ServiceRuns`, `ServiceHistory`, `TriggerHistory`, `StartUp` | what runs keep; what updates make of a trigger; the types posted at start-up |
| `Orphans`, `EndToEnd`, `JobsSent`, `Example` | queries without triggers; what a trigger's author can rely on; the jobs an event sends; a run in which it happens |
| `CronAgreement`, `CronHistory`, `CronRestart`, `SharedEntries`, `RestartRuns`, `NowExample` | the scheduler and the cron store; restart; runs with restarts; a run with the schedule "@now" |
| `DeleteTool` | the bulk deletion tool |

Check everything with `dafny verify dfyconfig.toml`.

## Results

- **Triggers fire as written.** `EndToEnd.TriggersAlertAsWritten`: a trigger posted
  with a condition, after any run that does not delete it, raises an alert for an
  event answered with 201 exactly when it is enabled and the condition, as its author
  wrote it, holds of the event's data, as its author posted it. It needs a type name
  without dots and a condition without `exists` clauses; both needs are shown to be
  real (`DottedNameLosesMeaning`, `ExistsLosesMeaning`). `Client.Watch` draws it from the
  handlers' contracts, `Example.AnAlertIsRaised` runs it from empty stores.
- **Conditions survive storage** exactly when they are readable, a condition on keys that
  a caller can check; for every tree and every iteration order (`ConditionRoundTrip`,
  `EncodingUndone`, `UpdateKeepsCondition`). Repeated updates lose no field exactly when no
  two are stored or stripped to one name (`LostFields.UpdatesLoseNothing`).
- **Validator and schema together are typing** (`ValidatorAndSchemaAreTyping`) for a
  mapping that compiles, if and only if its dotted paths tell its fields apart
  (`AmbiguousMappings.TypingIffUnambiguous`).
- **Every interleaving** of the goroutines sends at most one job and one alert per
  trigger, reaches the join, and loses nothing; which jobs are sent, and what PostEvent
  answers, follows from the answers that the goroutines got (`FanOutAnswers`,
  `JobsSent.AnswerExplained`). The jobs on the queue are the triggers' own, with the event's
  values in them (`JobsSent.PostedEventSends`).
- **Over every run and every failure pattern** referential integrity and name uniqueness
  hold, restarts included (`RestartRuns.SoundForLife`), and the percolator holds the queries
  of the stored triggers and exactly those that a known step left behind (`Orphans.PercolatorMatchesTriggers`).
- **The scheduler and the cron store agree** where the cron store's calls work, but for
  events with the schedule "@now" that have fired (`CronHistory.CronIdsAgree`,
  `OnlyOneShotsDisagree`), and nothing fires for an event after its deletion.

## Where the code differs from its comments or intentions

Each of these is a theorem about the code as it is.

- A matched percolation query without a trigger makes PostEvent answer with an error,
  although the comment at `workflow/Service.go:769` says not to fail: the store
  answers a read of a missing document with an error, so the earlier branch is taken
  (`FanOutSafety.OrphanQueryReported`). Such a query is left when DeleteTrigger fails to
  remove it, stays for good, and no event that it matches is ever answered with 201
  (`Orphans.OrphanBlocksEvents`).
- Every PutTrigger strips one more component from long condition keys and re-keys the
  job (`TriggerUpdates.RepeatedUpdates`, `UpdateChangesOnlyEnabled`;
  of a stored trigger in any run `TriggerHistory.UpdatesOverRun`).
- One PutTrigger can lose a clause: `data.user.name` and `data.group.name` are both read
  back as `data.name`, one of the two conditions is left, and the next PutTrigger stores it
  alone (`LostFields.UpdateLosesClauses`).
- Two clauses whose keys are stored alike, such as `data.x` and `data~t~x` for the type
  `t`, are registered as two and read back as one (`TriggerConditions.TildeLosesAClause`).
- A mapping that does not compile may pass the check of its leaf types, in some iteration
  order, if dots in its keys let one leaf hide another (`Precheck.PrecheckMayPass`,
  `UncompilableMaySlip`); its type is then stored and taken back.
- An array of objects where the mapping has one object passes both checks
  (`EventValidator.ArrayOfObjectsSlipsThrough`).
- The order in which keys are substituted into a job matters as soon as one key is a
  prefix of another, or there are two keys and a value has a dollar sign or one in the job
  starts no key (`JobTemplate.OrderMattersForPrefixes` and the two after it).
- An event with the schedule "@now" stays in the cron store after it has fired, without
  an entry in the scheduler, and fires again after a restart
  (`NowExample.FiresAgainAfterRestart`).
- After a failed write to the cron store the job stays scheduled
  (`ServiceHistory.UnstoredJobStays`).
- After a restart all cron jobs stand for the last event listed, so the live entries are
  rebuilt only if at most one cron event is stored and it is live
  (`CronRestart.SharedVariableRestart`); deleting that event stops at most one of its entries and
  leaves the others firing until the next restart (`SharedEntries.RestartOutlivesDelete`,
  `RestartRuns.RestartEndsDeleted`).
- The bulk deletion hangs for most page counts (`DeleteTool.DeleteAllObjects`).

## Model

| member | source | states |
|---|---|---|
| ConditionKeys.StripMeaning | workflow/TriggerDB.go:294-298 | the slicing closure removes the second component of a dotted name that has at least three, and leaves any other name alone |
| ConditionKeys.InsertMeaning | workflow/Service.go:1084-1086 | inserting the type name after the first `data.` adds its components behind the first component, other than the last, that ends in "data" |
| ConditionKeys.InsertInjective | workflow/Service.go:1084-1086 | for any type name, two keys rewritten alike are the same key |
| ConditionKeys.KeyRoundTrip | workflow/TriggerDB.go:292-299 | rewriting then stripping gives a key back if and only if `SurvivesRoundTrip` holds of it |
| ConditionKeys.StripTimesMeaning | workflow/TriggerDB.go:294-298 | n strips remove exactly min(n, m - 1) components from behind the first, m being how many follow it |
| ConditionTrees.HandleDotTildeMap | workflow/TriggerDB.go:311-324 | the walk renames leaf keys only, whatever the iteration order |
| ConditionTrees.HandleDotTildeArr | workflow/TriggerDB.go:325-338 | the same for arrays |
| ConditionTrees.HandleUniqueParamsMap | workflow/TriggerDB.go:351-364 | the walk renames every key, whatever the iteration order |
| ConditionTrees.HandleUniqueParamsArr | workflow/TriggerDB.go:366-379 | the same for arrays |
| ConditionTrees.OneOutcome | workflow/TriggerDB.go:311-379 | if no two keys of one object are renamed alike, every iteration order gives the same tree |
| TriggerConditions.RewriteCondition | workflow/Service.go:1084-1086 | PostTrigger's rewriting, tied to the renaming relation |
| TriggerConditions.EncodeCondition | workflow/TriggerDB.go:288-291 | encodeCondition, tied to the renaming relation |
| TriggerConditions.DecodeCondition | workflow/TriggerDB.go:292-299 | decodeCondition's two walks, tied to the renaming relation |
| TriggerConditions.RewriteHasOneOutcome | workflow/Service.go:1084-1086 | no two keys of any condition collide when rewritten, so the registered query is unique |
| StoredTrees.ReturnsIffKept | workflow/TriggerDB.go:288-379 | a tree that is renamed, encoded, decoded and read comes back if and only if each of its fields does and no two fields of one object are stored under one name, in every iteration order |
| TriggerConditions.EncodingUndone | workflow/TriggerDB.go:288-293 | for every tree and every outcome, undoing the tildes of the encoded tree gives it back if and only if its leaf keys have no tilde and no other key is what a leaf key beside it is stored under |
| TriggerConditions.ConditionRoundTrip | workflow/TriggerDB.go:100-221 | for every condition, type name and iteration order, posting then reading gives the condition back if and only if it is `Readable`: each key survives, leaf keys have no tilde, and no two fields of one object are stored alike |
| TriggerConditions.GetTriggerRoundTrip | workflow/Service.go:967-988 | GetTrigger returns the posted condition if and only if it is `Readable` and the type name is not one of its top-level keys |
| TriggerConditions.TildeLosesAClause | workflow/TriggerDB.go:288-324 | for any two fields of a term clause that are stored under one name, the registered query asks for both and the stored condition for one, whichever is written last |
| TriggerConditions.TildeClash | workflow/TriggerDB.go:288-291 | `data.x` and `data~t~x` are two such fields for the type `t` |
| TriggerUpdates.RepeatedUpdates | workflow/TriggerDB.go:115-136 | for every condition, each key that n updates leave is a key of the condition, its tildes undone if it is a leaf's, stripped n times, down the whole tree |
| TriggerUpdates.EveryNameLeft | workflow/TriggerDB.go:115-136 | if no update stores two fields of one object under one name, what each key is stripped to is the name of a field that is left; keys stripped to one name share it |
| LostFields.WalkLoses | workflow/TriggerDB.go:288-379 | for every tree, key map and iteration order, a walk leaves as many fields, counted down the whole tree, if and only if no two keys of one object are renamed alike, and never more |
| LostFields.UpdatesLoseNothing | workflow/TriggerDB.go:115-136 | for every condition and outcome, n updates leave as many fields as there were if and only if none stores two fields of one object under one name and no two are stripped to one; then the outcome is the one tree with every key stripped and every value kept |
| LostFields.UpdateLosesClauses | workflow/TriggerDB.go:294-298 | of the fields of a term clause that an update strips to one name one alone is read back |
| LostFields.StripClash | workflow/TriggerDB.go:294-298 | `data.a.name` and `data.b.name` are two such fields, stored apart, for all components a and b without tildes, such as `user` and `group` |
| LostFields.ClashIsLost | workflow/TriggerDB.go:288-299 | a term clause over two such fields meets the condition on storing and not the one on stripping |
| TriggerUpdates.UpdateKeepsCondition | workflow/TriggerDB.go:115-136 | for every condition, an update leaves it alone if and only if no key has more than one dot, no leaf key a tilde, and no other key is what a leaf key beside it is stored under |
| TriggerUpdates.UpdatesSettle | workflow/TriggerDB.go:115-136 | for every condition, once the updates reach the longest key a further one changes nothing if and only if it stores no leaf key under the name of an object beside it |
| TriggerUpdates.UpdatedDocument | workflow/TriggerDB.go:115-129 | the document PutTrigger writes is the marshalled trigger with its leaf keys encoded |
| TriggerUpdates.UpdateChangesOnlyEnabled | workflow/TriggerDB.go:115-136 | for every trigger, an update changes nothing but Enabled if and only if its condition is one that updates leave alone and no leaf key of the job's data has a dot |
| Percolation.MatchesTracked | workflow/TriggerDB.go:340-379 | a renaming that tracks a change of document keeps the meaning of every nested boolean query |
| Percolation.RewritingPreservesMeaning | workflow/EventDB.go:361-364 | for a dot-free type name the rewritten condition matches the percolated document exactly when the condition holds of the event as posted |
| Percolation.DottedNameLosesMeaning | workflow/Service.go:1084-1086 | for every type name with a dot some condition holds of an event that percolation misses |
| Percolation.ExistsLosesMeaning | workflow/Service.go:1084-1086 | for every field below `data.` an exists clause changes its meaning, since it names the field in a value |
| Percolation.ExistsNotRewritten | workflow/TriggerDB.go:351-364 | the rewriting leaves an exists clause as it is |
| MappingCompiler.VisitNode | workflow/EventDB.go:317-359 | compilation fails exactly when some leaf is not a type name, independent of iteration order; otherwise the schema has a type exactly where the mapping has a leaf, and a leaf `t` or `[t]` has the type `t` |
| MappingCompiler.ConstructEventMappingSchema | workflow/EventDB.go:291-313 | the same of the whole schema, which is the one specified |
| MappingCompiler.LeafTypes | workflow/EventDB.go:349-358 | a leaf is valid if and only if it is a scalar type name or one in square brackets, an array type if and only if it is the latter, and compiles to the scalar type alone |
| MappingCompiler.TypesOfSchema | workflow/EventDB.go:314-359 | for every mapping that compiles, every path and every t: the schema has the type t there if and only if t is a scalar type name and the mapping's leaf there is `t` or `[t]` |
| MappingCompiler.DecompileSchema | workflow/EventDB.go:314-359 | a decompiler recovers from the schema the mapping, each leaf `t` or `[t]` as the type name `t` |
| MappingCompiler.SchemaIsStrict | workflow/EventDB.go:339-348 | every object of a compiled schema is strict |
| MappingCompiler.SchemaMeaning | workflow/EventDB.go:291-359 | the schema accepts exactly the data that conforms to the mapping |
| MappingCompiler.LeafConforms | workflow/EventDB.go:349-359 | what conforms to a leaf: null, an array of what conforms, an object for `geo_point` and `geo_shape` alone, any other value that the store can parse; brackets make no difference |
| Flattening.GetVarsFromStructSkip | vendor/github.com/venicegeo/pz-gocommon/gocommon/util.go:42-79 | the variables are those of some order of visits, in which leaves with one dotted path overwrite one another |
| EventValidator.VerifyEventReadyToPost | workflow/EventDB.go:54-111 | the verdict is `Ready` exactly when counts agree and arrays are at array-typed fields |
| EventValidator.CompareVars | workflow/EventDB.go:77-110 | the error, when there is one, names the missing, extra or wrongly shaped variables |
| EventValidator.LeafTypesAreValid | workflow/EventTypeDB.go:38-47 | the precheck of a new type accepts exactly when every variable is a type name |
| Precheck.PrecheckIsCompilability | workflow/EventTypeDB.go:38-47 | for every mapping, the precheck passes in every iteration order if and only if the mapping compiles |
| Precheck.PrecheckMayPass | workflow/EventTypeDB.go:38-47 | for every mapping, it passes in some iteration order if and only if the leaves that are no type names can be hidden by leaves visited later |
| Precheck.HiddenLeavesShare | workflow/EventTypeDB.go:38-47 | then each of them shares its dotted path with a leaf that is a type name |
| Precheck.UncompilableMaySlip | workflow/EventTypeDB.go:38-47 | a mapping that does not compile and can pass |
| Precheck.SharingIsNotEnough | workflow/EventTypeDB.go:38-47 | a mapping whose leaves all share so and that cannot pass |
| EventValidator.ValidatorAndSchemaAreTyping | workflow/EventDB.go:54-111 | where the mapping's dotted paths tell its fields apart, an event is typed if and only if the validator passes it, the strict schema accepts it and it is shaped like the mapping |
| EventValidator.DotFreeIsUnambiguous | workflow/EventDB.go:54-111 | they do so if no key has a dot |
| AmbiguousMappings.TypingIffUnambiguous | workflow/EventDB.go:54-111 | for every mapping that compiles: validator and schema let through exactly the typed events of its shape, in every iteration order, if and only if its dotted paths tell its fields apart |
| EventValidator.StoredIsTyped | workflow/EventDB.go:38-52 | a stored event of an unambiguous mapping that is shaped like it is typed |
| EventValidator.ArrayOfObjectsSlipsThrough | workflow/EventDB.go:54-111 | an untyped event that both checks accept |
| JobTemplate.SubstituteJob | workflow/Service.go:817-819 | the loop performs the replacements one after another in some order of the keys |
| JobTemplate.ReplaceOneKey | workflow/Service.go:817-819 | replacing one key first leaves the simultaneous substitution of the others |
| JobTemplate.OrderDoesNotMatter | workflow/Service.go:817-819 | with no key a prefix of another, no dollar sign in keys or values and no dangling one in the template, every order equals one simultaneous substitution |
| JobTemplate.OrderMattersForPrefixes | workflow/Service.go:817-819 | for every set of dollar-free keys: all settled templates and dollar-free values give the same in every order if and only if no key is a prefix of another |
| JobTemplate.OrderMattersForDollarValues | workflow/Service.go:817-819 | for prefix-free keys: they do so for values with dollar signs too if and only if there is at most one key |
| JobTemplate.OrderMattersForDanglingDollars | workflow/Service.go:817-819 | for prefix-free keys: all templates do so, dangling dollar signs included, if and only if there is at most one key |
| FanOutSafety.EveryAlertHasItsJob | workflow/Service.go:756-839 | at every moment of every interleaving: one job and one alert per trigger at most, and every alert carries the id of a job already sent for a stored, enabled trigger of the event's type |
| FanOutSafety.JoinConserves | workflow/Service.go:756-845 | at the join, matches = skipped + failed before + alerts + failed after, jobs = alerts + failed after, and the results map names exactly the failures |
| FanOutSafety.NoTriggerPassedOver | workflow/Service.go:760-839 | an eligible match has its alert or a reported failure, never neither and never both |
| FanOutSafety.OrphanQueryReported | workflow/Service.go:764-773 | a matched query without a trigger has a recorded error at the join if and only if the store did not answer the read of the trigger quietly |
| Orphans.OrphanBlocksEvents | workflow/TriggerDB.go:257-286 | once DeleteTrigger has failed to remove the query, no event that it matches is answered with 201, after any run |
| Orphans.PercolatorMatchesTriggers | workflow/TriggerDB.go:79-286 | in every run the percolator holds exactly the queries of the stored triggers if and only if no DeleteTrigger and no rollback failed to remove a query |
| FanOutSafety.JobIsSubstituted | workflow/Service.go:817-824 | the job sent is the trigger's job with every key replaced at once, where the order does not matter |
| FanOutAnswers.MessageMeansPermitted | workflow/Service.go:796-828 | in every interleaving a match has its job sent if and only if its creation was permitted, or nobody could be asked, and the publication worked |
| FanOutAnswers.DenialRejects | workflow/Service.go:806-810 | where access was denied nothing is sent, no alert is raised, and 403 is recorded |
| FanOutAnswers.AuthoriseFailureRejects | workflow/Service.go:789-805 | the same with 500 where the job could not be marshalled or access not be asked for |
| FanOutAnswers.ReadFailureRejects | workflow/Service.go:763-767 | the same with 400 where the trigger could not be read |
| FanOutAnswers.PublishFailureRejects | workflow/Service.go:824-828 | the same with 500 where the publication failed |
| FanOutAnswers.AlertFailureRecorded | workflow/Service.go:832-837 | where the alert could not be stored the job is sent, there is no alert, and 500 is recorded |
| FanOutAnswers.AlertMeansStored | workflow/Service.go:832-837 | a match has its alert if and only if storing it worked |
| FanOutAnswers.FailureMeansAnswer | workflow/Service.go:763-837 | a failure is recorded for a match if and only if one of its answers was a failure; a disabled trigger, one of another type or a quiet miss is none |
| FanOutJoin.StepWorks | workflow/Service.go:758-843 | every step leaves less to do, so every interleaving ends |
| FanOutJoin.NotStuck | workflow/Service.go:758-843 | until the join returns some goroutine can take a step |
| FanOutJoin.RunGoroutines | workflow/Service.go:756-849 | the fan-out ends joined, with an outcome that the answers of some interleaving explain: which jobs were sent, which alerts raised, which matches failed and with what status; it answers a recorded error if and only if there is one |
| FanOutJoin.CreatedMeansAllHandled | workflow/Service.go:845-853 | no error is recorded if and only if every match was rightly skipped or raised its alert |
| RacyCounter.CounterBounds | workflow/common.go:135-157 | in every interleaving of loads and stores the counter is at most the start plus the stores done and, once there is one, above the start |
| RacyCounter.PossibleEnds | workflow/common.go:135-157 | n racing increments can end at exactly the values one to n above the start |
| Service.Service.PostEventType | workflow/Service.go:454-511 | keeps the stores sound; answers 201 if and only if the name is free, every leaf is a type name, no dotted path has a tilde and no call fails, and then the index takes exactly the data that conforms to the mapping; answers 400 to a taken name or a tilde; else restores unless the rollback failed |
| Service.Service.DeleteEventType | workflow/Service.go:521-571 | keeps the stores sound; answers 200 if and only if the type is stored, is neither `piazza:ingest` nor `piazza:executionComplete`, known to the index and named by no event or trigger and no call fails; then exactly that type goes and nothing names it, else nothing changes; 404, 400 and 403 are told apart |
| Service.Service.StoreEvent | workflow/EventDB.go:38-52 | an event is stored exactly when the type can be read, the validator passes it, the index takes it and the write works |
| Service.Service.PostEvent | workflow/Service.go:723-854 | keeps the stores sound; on 201 the event is stored as posted, exactly the enabled triggers of its type whose queries match have a new job on the queue and a new alert, and no query without a trigger matches it; whatever it answers, the queue grows by such jobs alone, one for each trigger at most, with the values put in, and each new alert is for one of them; where typing can be decided, it is stored if and only if it is typed and the calls it needs work, is answered with 400 if it is not stored and with 201 if no query matches it |
| Service.Service.PostRepeatingEvent | workflow/Service.go:672-720 | keeps the stores sound; where typing can be decided, answers 201 if and only if the type is stored, the schedule parses, the event is typed and the calls it needs work; on 201 the event is stored, in the cron store, and has an entry that can run; else no event is stored and, if the cron store's calls work, cron store and live entries are as before |
| Service.Service.DeleteEvent | workflow/Service.go:915-963 | keeps the stores sound; answers 200 if and only if the event is stored, not under `piazza:ingest`, `piazza:executionComplete` or a type that holds no events, and the calls it needs work; then only it goes, it is no cron event, and no entry with its id can run; to a system event it answers 400 and changes nothing |
| Service.Service.PostTrigger | workflow/Service.go:1065-1105 | keeps the stores sound; answers 201 if and only if the type is stored, the job has a "serviceId" that is a string and no call fails; then trigger and rewritten query are stored under one new id, else it answers 400 and there is no trigger, and no query unless its rollback failed |
| Service.Service.PutTrigger | workflow/Service.go:1107-1127 | keeps the stores sound; answers 200 if and only if the trigger is stored and no call fails; then Enabled is set, the condition is one that could be read, encoded, and the job's data has its leaf keys encoded; all else stays; else nothing changes and it answers 404 or 400 |
| Service.Service.DeleteTrigger | workflow/TriggerDB.go:257-286 | keeps the stores sound; answers 200 if and only if the trigger is stored and no call fails; then exactly it and its query go; else nothing changes, or the trigger goes and its query stays behind |
| Service.Service.Fire | vendor/github.com/venicegeo/vegertar-cron/cron.go:189-229 | keeps the stores sound; a marked entry goes with its mark and posts nothing; any other posts its event with PostEvent's promise, and goes if its schedule is "@now" |
| Client.Watch | workflow/Service.go:454-1127 | a user who posts a type with a dot-free name and a trigger without exists clauses, switches it and posts an event: if all succeed there is an alert if and only if the trigger is on and its condition, as posted, holds of the data, as posted |
| ServiceContracts.PostEventTypeMeans | workflow/Service.go:454-511 | the promise of PostEventType follows from its relation on sound stores |
| ServiceContracts.DeleteEventTypeMeans | workflow/Service.go:521-571 | likewise for DeleteEventType, an event being found under its type's name |
| ServiceContracts.PostEventMeans | workflow/Service.go:723-854 | likewise for PostEvent, through the goroutines, the jobs they send, the orphans and the typing theorem |
| ServiceContracts.PostRepeatingEventMeans | workflow/Service.go:672-720 | likewise for PostRepeatingEvent, the answer through the typing theorem |
| ServiceContracts.DeleteEventMeans | workflow/Service.go:915-963 | likewise for DeleteEvent, ids of events being unique and entries of stored events backed by the cron store |
| ServiceContracts.PostTriggerMeans | workflow/Service.go:1065-1105 | likewise for PostTrigger |
| ServiceContracts.PutTriggerMeans | workflow/Service.go:1107-1127 | likewise for PutTrigger, the re-encoded document read as a trigger with all its fields |
| ServiceContracts.DeleteTriggerMeans | workflow/TriggerDB.go:257-286 | likewise for DeleteTrigger, a stored trigger having its query |
| ServiceContracts.FireMeans | vendor/github.com/venicegeo/vegertar-cron/cron.go:189-229 | likewise for a firing |
| ServiceInvariants.PostEventTypeKeeps | workflow/Service.go:454-511 | PostEventType keeps the integrity of the stores, failed rollback included |
| ServiceInvariants.DeleteEventTypeKeeps | workflow/Service.go:521-571 | DeleteEventType keeps it: no event or trigger is left without its type |
| ServiceInvariants.PostEventKeeps | workflow/Service.go:723-854 | PostEvent keeps it |
| ServiceInvariants.PostRepeatingEventKeeps | workflow/Service.go:672-720 | PostRepeatingEvent keeps it |
| ServiceInvariants.DeleteEventKeeps | workflow/Service.go:915-963 | DeleteEvent keeps it |
| ServiceInvariants.PostTriggerKeeps | workflow/TriggerDB.go:42-113 | PostTrigger keeps it: a stored trigger always has its query |
| ServiceInvariants.PutTriggerKeeps | workflow/TriggerDB.go:115-136 | PutTrigger keeps it |
| ServiceInvariants.DeleteTriggerKeeps | workflow/TriggerDB.go:257-286 | DeleteTrigger keeps it |
| ServiceRuns.ReferentialIntegrity | workflow/Service.go:521-940 | in every reachable state every event and trigger names a stored type, every event sits under that type's name, nested once, and satisfies validator and schema |
| ServiceRuns.NamesAreUnique | workflow/Service.go:454-511 | in every reachable state event types have distinct names |
| ServiceRuns.TriggersHaveQueries | workflow/TriggerDB.go:79-112 | in every reachable state each trigger has its own percolation query |
| ServiceHistory.SystemEventsOnlyGrow | workflow/Service.go:516-519 | over every run the types `piazza:ingest` and `piazza:executionComplete` and the events stored under them are never removed |
| StartUp.SystemTypesStay | workflow/Service.go:154-192 | from sound stores where neither name is taken, and if no call fails, start-up is answered with 201 twice, and over every run that follows both types are stored as posted |
| StartUp.CanStart | workflow/Service.go:154-192 | start-up can happen, from empty stores |
| StartUp.TypeNames | vendor/github.com/venicegeo/pz-gocommon/elasticsearch/common.go:38-65 | fourteen names may stand at the leaves of a mapping, with and without brackets |
| TriggerHistory.PutRewrites | workflow/TriggerDB.go:115-136 | PutTrigger changes of a stored trigger only Enabled, the condition and the job's data; what is read back of the condition is an update of what could be read before |
| TriggerHistory.PutChangesOnlyEnabled | workflow/Service.go:1107-1127 | the trigger read after PutTrigger is the one read before with Enabled set if and only if the condition read is one that updates leave alone and no leaf key of the job's data has a dot |
| TriggerHistory.UpdatesOverRun | workflow/TriggerDB.go:115-136 | over every run that does not delete it a trigger is what its n successful updates make of it: unchanged for none, else Enabled as set last, the job's data encoded once, and the condition read updated n times |
| ServiceHistory.NameCreatedOnce | workflow/Service.go:454-473 | at most one PostEventType per name answers 201 in a run, even across deletions |
| ServiceHistory.RefusedTypeRestores | workflow/Service.go:486-511 | a refused type leaves all stores as they were if and only if it did not come to a failing rollback; an accepted one is answered with the caller's own mapping |
| ServiceHistory.RefusedTriggerRestores | workflow/TriggerDB.go:102-110 | a refused trigger does so if and only if its query was not registered, stored in vain and left by a failing rollback; an accepted one is answered with the caller's own condition |
| ServiceHistory.RefusedRepeatingEventRestores | workflow/Service.go:672-720 | a refused repeating event leaves stores and live jobs as they were if and only if it was refused before anything was written or neither the cron store's write nor its rollback failed |
| ServiceHistory.UnstoredJobStays | workflow/Service.go:700-703 | a failed write to the cron store leaves a live job for an event that is nowhere stored |
| CronHistory.CronIdsAgree | workflow/Service.go:672-720 | in every run where cron store calls work: ids of live entries are in the cron store, those are ids of stored events; an id in the cron store is live if and only if its "@now" has not fired, so the two sets are equal if and only if none has; and each live entry finds its type under its name |
| CronHistory.OnlyOneShotsDisagree | vendor/github.com/venicegeo/vegertar-cron/cron.go:189-229 | in such a run the sets are equal at every moment, and after any next firing, if and only if no repeating event was accepted with the schedule "@now" |
| CronAgreement.RunsAgree | workflow/Service.go:672-720 | the agreement of events, cron store and scheduler is kept over every run where cron store calls work |
| CronAgreement.FiringReposts | workflow/Service.go:1416-1428 | a firing from an agreeing state stores the source's data, nested exactly once, created by the source's id |
| CronAgreement.EntriesStayApart | workflow/Service.go:672-720 | in every run, whatever fails, no two entries come to have one key |
| CronAgreement.NothingFiresAfterDelete | workflow/Service.go:942-960 | where entries have distinct keys, after DeleteEvent answers 200 no firing posts anything for the event, however long after and whatever fails |
| CronRestart.InitCron | workflow/Service.go:1382-1408 | it succeeds exactly when types and schedules can be had, and its entries all hold the last event listed |
| CronRestart.InitCronSucceeds | workflow/Service.go:1388-1402 | from an agreeing state, spent "@now" events included, every listed event can be restored |
| CronRestart.CopyingRestartRefines | workflow/Service.go:1394-1402 | with one variable per iteration every live entry is rebuilt, once, and also one for every spent "@now" event, so the rebuilt entries are the live ones if and only if there is none |
| CronRestart.CopyingRestartAgrees | workflow/Service.go:1382-1408 | and the service starts in an agreeing state again |
| CronRestart.SharedVariableRestart | workflow/Service.go:1394-1402 | with the shared variable the rebuilt entries are the live ones, each as often, if and only if at most one cron event is stored and it is live |
| SharedEntries.DeleteStopsOneEntry | vendor/github.com/venicegeo/vegertar-cron/cron.go:189-229 | of the entries with the key of a deleted event that fire more than once at most one stops, in every run that follows; if none fires only once, none while the mark stands and exactly one after |
| SharedEntries.RestartOutlivesDelete | workflow/Service.go:1382-1408 | after a restart all entries fire for the event listed last; of n stored cron events that fire more than once n entries last, and after that event's deletion at least n - 1 go on over every run without a restart, exactly n - 1 once the mark is used if no event is of the other kind |
| RestartRuns.SoundForLife | workflow/Service.go:1382-1408 | from empty stores, over every run with any number of restarts and whatever fails, the integrity of the stores holds and every cron event is filed under its own id |
| RestartRuns.RestartBuilds | workflow/Service.go:1382-1408 | after a restart no mark is left and there is one entry for each stored cron event, under its type's name and its schedule, all of them for the event listed last |
| RestartRuns.AbsentIsForgotten | workflow/Service.go:1394-1402 | an issued id that is absent from the cron store stays absent, and has no entry once the service was restarted |
| RestartRuns.RestartEndsDeleted | workflow/Service.go:942-960 | after DeleteEvent answers 200 the next restart takes away every entry for the event that the mark left, and none comes back |
| NowExample.FiresAgainAfterRestart | vendor/github.com/venicegeo/vegertar-cron/spec.go:152-156 | a run from empty stores in which an event with the schedule "@now" fires, stays in the cron store without an entry, and fires again after a restart |
| EndToEnd.PostedEventAlerts | workflow/Service.go:747-853 | an event answered with 201 raises an alert for a stored trigger if and only if it is enabled, of the event's type, and its query matches |
| JobsSent.PostedEventSends | workflow/Service.go:817-843 | whatever PostEvent answers, it adds to the queue only jobs of enabled triggers of the event's type whose queries match, one for each at most, under a new id, in the name of the trigger's creator, every `$key` of the job's text replaced by the text of the event's value in some order, or at once where the order does not matter; and it adds only alerts for such jobs |
| JobsSent.CreatedEventSends | workflow/Service.go:758-853 | if it answers 201, a trigger has its job on the queue if and only if it is enabled, of the event's type, and its query matches |
| JobsSent.AnswerExplained | workflow/Service.go:842-853 | once it starts its goroutines it answers 201 if and only if none of them got a failing answer, and else with the status of one that did |
| EndToEnd.TriggersAlertAsWritten | workflow/Service.go:723-1105 | for a type name without dots and a condition without exists clauses: a trigger, after any run that does not delete it, raises an alert for an event of its type answered with 201 if and only if it is enabled and its condition as posted holds of the data as posted |
| Example.OneTriggerAlerts | workflow/Service.go:758-843 | a single match with an eligible trigger can always come to its alert |
| Example.ServiceIdNeeded | workflow/TriggerDB.go:43-49 | a job without a "serviceId", or with one that is no string, is refused, and one that names a service accepted |
| Example.AnAlertIsRaised | workflow/Service.go:454-1105 | from empty stores a type with one field, a trigger with a term clause on it and an event can be posted, the premises of the end-to-end theorem hold, and by it the alert is raised |
| Example.AnOrphanBlocks | workflow/TriggerDB.go:257-286 | a reachable state in which a failing removal leaves a query that the event matches, so that it can no longer be answered with 201 |
| DeleteTool.PagesCover | tools/main.go:95 | the page count is the least that holds all objects |
| DeleteTool.Batch | tools/main.go:105-116 | which pages one batch launches and what its wait group is left waiting for |
| DeleteTool.DeleteAllObjects | tools/main.go:84-119 | each page is handed out once, in order, with one page past the end exactly when the last batch is not full; at most ten are in flight; the last join returns if and only if the page count is 0 or 9 modulo ten |

## Left out

- HTTP routing, request parsing, the REST client and process start-up.
- RabbitMQ, pz-idam, the service controller, audit and log calls: each is an outcome the environment chooses.
- The Elasticsearch library: a store is a map, a failing call leaves it unchanged, a read of a missing document is an error (as the library's index does it), and search is immediately consistent.
- Elasticsearch's query language beyond nested bool, term, match, range, exists and match_all clauses; a `should` list asks for one match, as it does where nothing else is asked.
- Parsing of scalar values by the store is a parameter; null, arrays of values and arrays of objects are taken where Elasticsearch takes them.
- Restoring the cron store in pages: the library's search returns ten documents unless asked for more, so a restart with more than ten cron events loses the rest; the model lists them all.
- Cron schedules and clock time: whether a schedule parses is a parameter, "@now" is the one schedule that ends (`vendor/github.com/venicegeo/vegertar-cron/spec.go:152-156`), and a firing may come at any moment; a run already started when its event is deleted is not modelled.
- A restart that fails: the service then does not start, and `RestartRuns` has no such turn.
- Interleaving of whole requests with each other: runs are sequential, only the goroutines of one event and the counters interleave.
- Go's detection of concurrent writes to the results map, panics and nil dereferences on error paths, and the recovery from them; a failing read is answered with the status of the error branch.
- The text of json.Marshal and of `%v`, and JSON escaping in substituted jobs: both texts are parameters.
- GetAll listings, DSL queries, pagination, alert inflation and direct posting and deletion of alerts: they would add easy members.
- The statistics counters as fields of the service: their increments are `RacyCounter`.
- That the bulk deletion removes every object: pages shift while others are deleted.
- Rounding in the float64 page count, which starts at counts beyond 2^53.
