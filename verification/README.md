# Verified model of the TRex service core

The project models the parts of the repository whose correctness is hardest to see from one function, in Dafny 4.11, and
proves what they promise. `dafny verify dfyconfig.toml` checks all of it.

**Locks, updates and controllers.** Any number of processes, each with its own lock factory and its own connection pool,
share one Postgres lock table, one table of dinosaurs and one table of events, and run any number of PATCH requests and
workers. `Protocol.dfy` is a state machine of their small steps: begin the outer transaction, begin the lock transaction,
wait for or try the lock, register it, read, compare, write, insert the event, notify, unlock, resolve; and for a worker
try the lock, read the event, run the handlers one by one, set the date, unlock. A run is any sequence of callers that
move. The files `ProtocolInvariants`, `MutualExclusion`, `Progress`, `Runs`, `PoolBound`, `StrandedTransactions`,
`Serialization`, `Answers`, `UnlockedUpdates`, `UnlockedRace`, `Reconciliation`, `Dispatch`, `WorkerTurns` and
`RepeatedActs` prove safety, conservation, termination, the exact pool size, serialisability, what every answer tells,
what is left without the lock, which handlers are run, and exactly how often a handler can act, for every run. `AdvisoryLocks`, `Requests` and `ControllerManager` hold the same code as classes
whose methods update fields, proved one call at a time against the specification functions in `LockTable`, `Replacing`
and `Domain`; `Replacing.Replace` is what both the service's method and every interleaving are measured against.

**Search.** `TslTree`, `FieldNames`, `Search`, `SearchJoins`, `SearchMeaning`, `SearchSeparation` and `SearchParts` treat
the three walks over a parsed search and the JOINs as a small compiler: exactly which searches are accepted, in terms of
the parts of their identifiers, what the accepted ones look like, and exactly when a search means the same after its
translation.

**Field projection.** `SliceFilter` has the validator that consumes a private copy of the request and the recursive
projector; `Projections` and `GrowingRequests` prove what a projection keeps and when more is shown for a larger
request; `RequestedFields` and `NestedFields` prove which requests are accepted and when validation and projection agree.

**Names, migrations, pages.** `Naming`, `Migrations`, `MigrationRegistry` and `Paging`.

The main results hold for all runs, inputs and iteration orders. Where a property is false in general, the exact
condition is proved or a concrete case is given:

- Locked updates that meet no error can get stuck if and only if some process limits its pool to at most two connections
  for each update it runs.
- An outer transaction that was begun is ended, once, if and only if its ID could be read; otherwise nobody ends it and
  its connection is lost, and enough such requests use up the pool for good.
- Without database errors every change of a dinosaur has exactly one event, in every run, if and only if no two calls on
  it, one of them without the advisory lock, ask for the same species while the row has another or some call asks for
  another. Two unlocked updates can emit two events for one change.
- Over all runs, the most a handler that checks the date acts on an undated event is once for each worker that gets as
  far as the handler and leaves no date, and once for all the others. So it can act twice if and only if two workers
  reach it and one of them leaves no date, because a handler fails or the date cannot be written.
- A search keeps its meaning if and only if the relations it names are separate: relations through one table are the same
  relation, and none leads to the resource's own table or to a preloaded one.
- A PATCH is answered with a success if and only if its row was read and had the wanted species already, or every later
  statement was acknowledged. An update waits for or is refused a lock exactly while another caller has a lock with the
  same two hashes.
- A second field walk is the identity if and only if no left operand hides `properties.` behind outer blanks.
- A larger request shows everything that a smaller one shows if and only if the struct is orderly: of the fields of one
  JSON name only the last that can be shown ever is, at every depth. Distinct names are orderly, and so are repeated
  scalars.
- A request without stars is accepted if and only if some field takes each of its names, in any struct; a single name
  shows something if and only if it is one of the struct's full names. Of a field inside structs that hold nothing else
  the accepted name shows it if and only if the field is a time or lies at most one struct deep.
- Migration IDs sort by time over a range of years if and only if its ends have equally many digits.
- What is loaded from the migration registry is independent of the registration order if and only if IDs are not shared.
- A page is empty if and only if there are no rows or its offset, in int64 arithmetic, is past them; a page whose offset
  leaves int64 can be the first page again.

Where the code and its comments or tests differ, the model follows the code:

- `pkg/controllers/framework.go:27-30` says that processed events are removed and that a periodic process repeats
  failed ones. The code only sets `ReconciledDate`, and `Handle` does not look at it, so a repeated notification runs the
  handlers again: in some run every worker that is given the event runs all of them.
  `test/integration/controller_test.go:28-30` expects one processing per event, which handlers that check the date
  themselves give under the condition above.
- `pkg/db/advisory_locks.go:65-67` and `91-93` say that the caller can end the transaction of a failed lock call with the
  returned uuid. That uuid was never registered, so `Unlock` ignores it and the transaction stays open.
- `pkg/db/transaction_middleware.go:23-29` answers an error of `newTransaction` before `Resolve` is deferred; if the
  transaction was begun and only its ID could not be read (`pkg/db/transactions.go:28-34`), it stays open for good.
- A non-blocking `Replace` that is refused returns before its deferred `Unlock` exists
  (`plugins/dinosaurs/service.go:105-112`): the refused entry and its transaction stay.
- `pkg/services/generic.go:218-219` says that joins and group keys are reset; only the joins are.
- The property conversion of `pkg/db/sql_helpers.go:71-97` cannot be reached from a search unless the resource has a
  relation named properties, because the walk for related tables refuses the name first.

## Model

| member | source | states |
|---|---|---|
| LockTable.ReleaseUndoesGrant | pkg/db/advisory_locks.go:160-164 | a lock transaction that ends leaves the lock table as it was before its grant |
| LockTable.OnlyLockHeld | pkg/db/advisory_locks.go:212-217 | while one lock is held, another is kept out if and only if the hashes of both the IDs and the types are equal |
| Replacing.ReplaceAnswers | plugins/dinosaurs/service.go:116-140 | which answer comes for which row and errors: a success if and only if the row was read and had the species or every later statement was acknowledged, and then it has the species |
| Replacing.EventsFollowChanges | plugins/dinosaurs/service.go:116-140 | over any series of calls and database answers, events never outnumber real changes and a change without its event is a failed call |
| Replacing.EventsEqualChanges | plugins/dinosaurs/service.go:116-140 | without database errors every real change has exactly one event and the last call's species stays |
| ProtocolInvariants.StepEffect | pkg/db/advisory_locks.go:52-158 | one step changes lock table, open transactions, registry and pools exactly as the moving caller's own phase does, and nothing of anybody else |
| ProtocolInvariants.StepInv | pkg/db/advisory_locks.go:52-158 | every step keeps the agreement of callers with lock table, open transactions, registries and pools |
| MutualExclusion.RunInv | pkg/db/advisory_locks.go:52-158 | every reachable state satisfies that agreement |
| MutualExclusion.AtMostOneOwner | pkg/db/advisory_locks.go:204-262 | in every state of every run at most one caller over all factories has the lock for a key, for any mix of blocking and non-blocking calls |
| MutualExclusion.ExcludedIffHeld | pkg/db/advisory_locks.go:204-248 | in every reachable state a lock statement that will not fail waits or is refused if and only if another caller has a lock whose ID and type have the same hashes; it waits exactly for a blocking update |
| MutualExclusion.LockTransactionsConserved | pkg/db/advisory_locks.go:61-100 | when no lock call is under way, open lock transactions are the registered ones plus failed lock calls, and registered ones are owned or refused to a non-blocking Replace |
| Progress.NotStuck | pkg/db/transaction_middleware.go:17-49 | if the pool of every process allows one connection more than its callers can hold while they wait, some unfinished caller can always move |
| Progress.RunsAreBounded | pkg/db/advisory_locks.go:52-158 | every run is no longer than the steps its callers started with |
| Progress.RunsEndClean | pkg/db/context.go:24-57 | a run that can go no further has released every lock, every outer transaction whose ID could be read has ended once, rolled back exactly if marked, and the connections each process still uses are those of its transactions that nobody ends |
| StrandedTransactions.OuterEndsIffIdIsRead | pkg/db/transactions.go:20-37 | a finished request has ended its outer transaction if and only if it was begun and its ID could be read |
| StrandedTransactions.StrandedRequestsUseUpThePool | pkg/db/transaction_middleware.go:20-29 | for every process and pool size, as many requests without a transaction ID as its pool has connections leave a faultless request stuck for good |
| PoolBound.SmallPoolsGetStuck | pkg/db/db_session/default.go:44-65 | from every start of error-free locked updates, over any processes and dinosaurs, of which w are in a process with a pool of at most 2w connections, there is a run that ends stuck |
| PoolBound.PoolBoundIsTight | pkg/db/db_session/default.go:44-65 | from every such start a stuck state is reachable if and only if some process has so small a pool |
| Serialization.StepShows | plugins/dinosaurs/service.go:116-140 | a dinosaur's row, events and changes move only when a statement of a call on it finishes, and then as that statement does |
| Serialization.RunSerial | plugins/dinosaurs/service.go:95-141 | at every moment of every run of locked updates the tables show the calls made in grant order, up to where the last granted one is |
| Serialization.UpdatesAreSerial | plugins/dinosaurs/service.go:95-141 | any interleaving of locked updates ends as the granted calls made one by one in grant order, with the same answers |
| Serialization.EventsMatchChanges | plugins/dinosaurs/service.go:126-139 | for any database answers, events <= changes <= events + failed calls |
| Serialization.ErrorFreeEventsEqualChanges | plugins/dinosaurs/service.go:126-139 | without database errors events equal changes in every interleaving, and the last granted species stays |
| Answers.AnswersAreEarned | plugins/dinosaurs/service.go:95-141 | in every run, locked or not, each answer is the one for the failed or refused lock, or for the row that the call read and the statements that were acknowledged; the request is marked exactly for an unacknowledged write |
| Answers.SuccessIsShown | plugins/dinosaurs/service.go:116-140 | among locked updates the row has the wanted species from a success on until the next grant |
| UnlockedUpdates.WithoutRaceEventsMatch | plugins/dinosaurs/service.go:95-141 | without a race for one species every settled run has one event for each change, locked or not |
| UnlockedRace.RacesLoseTheMatch | plugins/dinosaurs/service.go:96-140 | for every race there is an error-free run that ends with more events than changes |
| UnlockedRace.EventsMatchIffNotRacy | plugins/dinosaurs/service.go:95-141 | without errors, with pools of at least four connections in every process, events equal changes in every settled run if and only if no two calls race, whichever of them take the lock |
| UnlockedRace.UnlockedUpdatesDuplicateEvents | plugins/dinosaurs/service.go:96 | with the lock disabled some error-free run emits two events for one change |
| Reconciliation.RunSessions | pkg/controllers/framework.go:99-138 | in every reachable state a worker in its session has run exactly a prefix of the registered handlers, in order, none of which failed |
| Reconciliation.StepEvents | pkg/controllers/framework.go:131-134 | no step clears a date or changes what an event is about, and a date is set only by the Replace of a session on that event |
| Reconciliation.DatesAreEarned | pkg/controllers/framework.go:122-137 | an event has its date only from before the run or from a session that held the lock and to which every registered handler returned nil, in order |
| Dispatch.LookupIsByName | pkg/controllers/framework.go:106-120 | a session begins if and only if the event was read and some Add call names its source and its own type, and it gets all handlers that the Add calls name for these |
| Dispatch.SessionsRunWhatIsNamed | pkg/controllers/framework.go:99-138 | in every run a worker has run a beginning of that list, and after its session all of it up to the first error |
| Dispatch.DinosaurEvents | plugins/dinosaurs/plugin.go:61-72 | the plugin's registrations: OnDelete for deletions, OnUpsert for creations and updates, nothing for other sources |
| Reconciliation.ActsAtMostOncePlusFailures | test/integration/controller_test.go:28-30 | over all interleavings and repeated notifications a handler that checks the date acts on an event at most once plus once per failed session in which it acted |
| WorkerTurns.EveryWorkerRunsTheHandlers | pkg/controllers/framework.go:75-138 | some run lets every worker that is given the event, dated or not, call all its handlers up to the first error |
| RepeatedActs.MostActs | pkg/controllers/framework.go:99-138 | the most acts of a handler on an undated event over all runs, attained by one: one for each worker that reaches the handler and leaves no date, and one more if another worker reaches it |
| RepeatedActs.ActsTwiceIff | test/integration/controller_test.go:28-30 | some run acts twice if and only if two workers reach the handler and one of them leaves no date |
| RepeatedActs.FailedHandlerActsAgain | pkg/controllers/framework.go:122-137 | the instance of one handler that acts, returns an error, and acts again for the second notification |
| RepeatedActs.HandlerRunsTwice | pkg/controllers/framework.go:122-137 | the instance of two workers without any error that both run the one handler |
| AdvisoryLocks.AdvisoryLock.Lock | pkg/db/advisory_locks.go:204-222 | grants the key exactly if all parts are there, the statement succeeds and the key is free; changes nothing else |
| AdvisoryLocks.AdvisoryLock.NonBlockingLock | pkg/db/advisory_locks.go:224-248 | errors and answers of the try, and the lock table after each |
| AdvisoryLocks.AdvisoryLock.Unlock | pkg/db/advisory_locks.go:250-262 | ends the transaction once, gives up its keys and clears the handle, also when Commit reports an error |
| AdvisoryLocks.AdvisoryLockFactory.NewLock | pkg/db/advisory_locks.go:103-118 | a fresh lock with its own new transaction, or no trace at all |
| AdvisoryLocks.AdvisoryLockFactory.NewAdvisoryLock | pkg/db/advisory_locks.go:52-75 | registers exactly a granted lock; a failed lock statement leaves an open transaction that no entry names |
| AdvisoryLocks.AdvisoryLockFactory.NewNonBlockingLock | pkg/db/advisory_locks.go:77-101 | a refused lock is registered and not an error; acquired exactly if the key was free |
| AdvisoryLocks.AdvisoryLockFactory.Unlock | pkg/db/advisory_locks.go:121-158 | removes exactly the entry and its transaction; ignores unknown uuids, so a second call does nothing |
| Requests.Transaction.constructor | pkg/db/transaction/transaction.go:20-27 | a built transaction is never marked, whatever flag it is given |
| Requests.Transaction.Commit | pkg/db/transaction/transaction.go:41-52 | commits once and drops the handle, whatever the driver answers; an ended transaction is an error |
| Requests.Transaction.Rollback | pkg/db/transaction/transaction.go:55-63 | rolls back once and drops the handle, whatever the driver answers; an ended transaction is an error |
| Requests.NewTransaction | pkg/db/transactions.go:14-38 | a transaction with an open driver transaction, or an error, which leaves that one open if only its ID could not be read |
| Requests.ResolveTransaction | pkg/db/context.go:24-45 | ends the transaction as its flag says, at most once |
| Requests.Tables.SaveDinosaur | plugins/dinosaurs/dao.go:50-57 | an error marks the request for rollback although the row may have been written |
| Requests.Tables.CreateEvent | pkg/dao/event.go:41-56 | a failed insert marks the request, a failed notification is an error that does not |
| Requests.DinosaurService.Update | plugins/dinosaurs/service.go:116-140 | the effect and answer of Replacing.Replace on one dinosaur, nothing on others, and the mark |
| Requests.DinosaurService.Replace | plugins/dinosaurs/service.go:95-141 | in all three modes: the effect of one Replace with lock, registry and transactions as before, or nothing but the transaction and entry that a failed or refused lock leaves |
| Requests.DinosaurService.ServePatch | pkg/db/transaction_middleware.go:17-49 | an outer transaction that was begun is ended exactly once if its ID could be read, rolled back if and only if a write marked it, and never otherwise |
| ControllerManager.KindControllerManager.Add | pkg/controllers/framework.go:55-59 | the registrations after it, whatever order the config map is iterated in |
| ControllerManager.KindControllerManager.AddOne | pkg/controllers/framework.go:61-73 | appends the functions to the one list and leaves every other list |
| ControllerManager.AddsConcatenate | pkg/controllers/framework.go:55-73 | the handlers of a source and type are those of all Add calls, concatenated in call order |
| ControllerManager.LookupFindsNamed | pkg/controllers/framework.go:106-120 | the lookup in the registrations finds the concatenation of what the Add calls name for the event's source and type, and nothing if none does |
| ControllerManager.KindControllerManager.Handle | pkg/controllers/framework.go:75-97 | leaves registry and lock table as found, runs the handlers that the Add calls name for the event's source and type up to the first error, and sets the date only if there was none |
| ControllerManager.KindControllerManager.HandleLocked | pkg/controllers/framework.go:99-138 | runs what the Add calls name for the event's source and type, in order, up to the first error and replaces the event only after all of them |
| FieldNames.WalkFieldNames | pkg/db/sql_helpers.go:103-189 | the walk with its loop over right-hand lists computes FieldNameWalk, and ends on every tree |
| FieldNames.WalkAccepts | pkg/db/sql_helpers.go:20-97 | succeeds exactly if every converted identifier is an allowed field and every right side is absent, a node or a list; returns the converted, trimmed tree and never panics |
| FieldNames.FieldOkIff | pkg/db/sql_helpers.go:38-69 | a name is a field if and only if, trimmed, it is a property expression, an allowed column, or an allowed column behind one table name |
| FieldNames.ResultShape | pkg/db/sql_helpers.go:117-188 | same operators, literals and list lengths; only identifiers differ |
| FieldNames.SecondWalk | pkg/db/sql_helpers.go:71-97 | walking a result again gives it back if and only if no left operand hid a property behind blanks: nothing is converted twice |
| FieldNames.HiddenPropertyInstance | pkg/db/sql_helpers.go:71-97 | the instance of ` properties.x`, which the first walk trims and the second one converts |
| Search.UniformWalk | pkg/services/generic.go:277-330 | an identifier walk accepts exactly the trees whose names its callback accepts, and renames them from left to right |
| Search.TranslateAccepts | pkg/services/generic.go:151-178 | exactly which searches the three walks accept, and the tree and joins they give |
| Search.RenameQualifies | pkg/services/generic.go:282-322 | a renamed identifier is table.column or an arrow expression left as it was |
| SearchParts.AcceptedByParts | pkg/services/generic.go:277-330 | in terms of the parts between the dots: exactly which identifiers may be searched, what each becomes, and which relations are joined |
| SearchParts.MeantByParts | pkg/services/generic.go:277-330 | in the same terms, what an identifier means: the resource's column, a relation's, or an arrow expression |
| SearchParts.OwnTableSearch | pkg/services/generic.go:282-292 | a column behind the resource's own table is kept as it is, joins nothing, and is refused only if disallowed or further dotted |
| SearchMeaning.TranslateFindsRelations | pkg/services/generic.go:277-307 | an accepted search collects exactly the relations its identifiers name |
| SearchMeaning.PropertySearchIsRefused | pkg/services/generic.go:284-292 | a search on properties.x is refused unless a relation has that name |
| SearchMeaning.AcceptedIsQualified | pkg/services/generic.go:277-346 | in an accepted search every identifier is an arrow expression or exactly table.column with an allowed column of the resource or of a table that a JOIN is emitted for, in every order, if no preload is named like a foreign table |
| SearchMeaning.MeaningIsPreserved | pkg/services/generic.go:151-186 | for separate names the translated search has the value of the original on every row, under every meaning of operators, for every order of the joins |
| SearchSeparation.PreservedIffSeparate | pkg/services/generic.go:151-186 | the value is kept on every row and for every order if and only if the names are separate |
| SearchSeparation.TwoRelationsToOneTable | pkg/services/generic.go:282-307 | the instance of two relations to one table: a.x and b.x both become t.x and the value changes |
| SearchJoins.AnyOrderJoinsTheSameTables | pkg/services/generic.go:199-211 | for every iteration order one JOIN per distinct foreign table that is not included, and none for the others |
| SearchJoins.JoinSqlDetermines | pkg/services/generic.go:204-206 | a JOIN clause says which relation it joins: different relations never give the same clause |
| SearchJoins.JoinSqlText | pkg/services/generic.go:204-206 | the text of the clause, with the foreign column before the relation's own |
| SearchJoins.ClausesInTurn | pkg/services/generic.go:199-211 | one clause and one group key, the foreign table's ID, per joined relation in turn |
| SearchJoins.ListContext.AddJoins | pkg/services/generic.go:198-220 | the JOIN clauses, the group keys with the base table's last, the grown set and the emptied joins, for some iteration order |
| SearchJoins.ListContext.BuildSearchValues | pkg/services/generic.go:151-186 | translates and then joins exactly what the accepted search named; a search that a walk or the SQL walker refuses joins nothing |
| SliceFilter.RemoveStar | pkg/api/presenters/slice_filter.go:145-156 | deletes exactly the matches of the remaining keys, in any iteration order |
| SliceFilter.UnstarredKeys | pkg/api/presenters/slice_filter.go:145-156 | for keys without line breaks these are the keys below the name |
| SliceFilter.Validate | pkg/api/presenters/slice_filter.go:80-143 | consumes the keys as Left does, nested structs included, and accepts exactly if none is left |
| SliceFilter.NameBeforeComma | pkg/api/presenters/slice_filter.go:105 | the JSON name is what stands before the first comma of the tag |
| Projections.UnnamedIsSkipped | pkg/api/presenters/slice_filter.go:95-98 | a field without a JSON name is neither validated nor shown |
| SliceFilter.StructToMap | pkg/api/presenters/slice_filter.go:158-232 | computes Project, with nested structs, lists cut at the first empty item, and stars |
| SliceFilter.Filter | pkg/api/presenters/slice_filter.go:35-78 | validates the first item with a private copy and projects every item with the whole request; the result has the model's kind and its page, size and total as int32 values; an empty list is not validated |
| Projections.ProjectIsPart | pkg/api/presenters/slice_filter.go:158-232 | a projection is a sub-record of the item at every depth: no invented key or value |
| Projections.ItemsStopAtFirstEmpty | pkg/api/presenters/slice_filter.go:200-214 | the kept items are exactly those before the first one of which nothing is kept |
| Projections.ProjectKeysGrow | pkg/api/presenters/slice_filter.go:158-232 | whatever the names, a larger request keeps every name |
| GrowingRequests.GrowsIffOrderly | pkg/api/presenters/slice_filter.go:158-232 | every larger request shows at least as much, at every depth, if and only if the struct is orderly |
| GrowingRequests.ScalarsAreOrderly | pkg/api/presenters/slice_filter.go:215-228 | scalars are orderly however often a name is repeated |
| GrowingRequests.ProjectGrows | pkg/api/presenters/slice_filter.go:158-232 | so with distinct names a larger request keeps at least as much at every depth |
| Projections.DuplicateNamesReplace | pkg/api/presenters/slice_filter.go:187-221 | with two fields of one name a larger request can replace a value |
| RequestedFields.FlatRequests | pkg/api/presenters/slice_filter.go:35-143 | for scalar and time fields: accepted if and only if every requested name is a field, and each item shows exactly the requested names with its values |
| RequestedFields.ShallowRequests | pkg/api/presenters/slice_filter.go:80-143 | with structs nested once: accepted if and only if some field accepts every requested key |
| RequestedFields.AcceptedIsVisible | pkg/api/presenters/slice_filter.go:80-232 | with structs nested once every key that is accepted without the star of its field is shown |
| NestedFields.LeftIsUntaken | pkg/api/presenters/slice_filter.go:80-143 | for any struct, with lists and repeated names: the validation of a request without stars leaves exactly the names that no field takes |
| NestedFields.AcceptedIffTaken | pkg/api/presenters/slice_filter.go:35-78 | a list request without stars is accepted if and only if some field of the first item takes each name; else the error has exactly the others |
| NestedFields.OneName | pkg/api/presenters/slice_filter.go:80-232 | for any struct: exactly when a single name is accepted, and exactly when it shows something |
| NestedFields.NestLeft | pkg/api/presenters/slice_filter.go:106-128 | at every depth the validation consumes a scalar by its innermost struct's name, and a time by its bare name |
| NestedFields.NestProject | pkg/api/presenters/slice_filter.go:185-228 | at every depth the projection shows a scalar by all its structs' names, and a time by its bare name |
| NestedFields.AcceptedNameShowsIffShallow | pkg/api/presenters/slice_filter.go:106-228 | the accepted name shows the field if and only if it is a time or at most one struct deep; deeper the name that would show it is refused |
| NestedFields.DeepNamesDisagree | pkg/api/presenters/slice_filter.go:114-127 | the instance a.b.c |
| Naming.ToSnakeCase | scripts/generator.go:247-256 | the loop computes Snake |
| Naming.ToPascalCase | scripts/generator.go:258-271 | capitalising the words between separators is the character-wise Pascal form |
| Naming.PascalUndoesSnake | scripts/generator.go:247-271 | Pascal(Snake(Pascal(s))) is Pascal(s) for all names |
| Naming.PascalUndoesCamel | scripts/generator.go:273-279 | the camel name determines the Go name |
| Naming.MapFieldNames | scripts/generator.go:321-332 | the Go, snake and camel names of a field; the Go name comes back from either of the others |
| Naming.LettersInTurn | scripts/generator.go:247-279 | the case conversions take each letter to the one at its place of the other alphabet and keep all else |
| Naming.CamelIsSmall | scripts/generator.go:273-279 | a camel name differs from the Pascal name in the case of its first letter only |
| Naming.NamesOfInstance | scripts/generator.go:321-332 | the instance my-f_2 |
| Naming.DistinctGoNames | scripts/generator.go:321-332 | different Go names never share a column, JSON or parameter name |
| Naming.SnakeUndoesPascal | scripts/generator.go:247-271 | Snake(Pascal(s)) is s if and only if s is in snake form |
| Naming.SnakeWordsComeBack | scripts/generator.go:247-271 | so for words [a-z][a-z0-9]* joined by underscores |
| Migrations.IdOrder | scripts/generator.go:167-168 | the string order of generated IDs is the order of time to the minute, for years of equally many digits |
| Migrations.IdIsNumber | scripts/generator.go:167-168 | the ID is the number with the year in front and two digits each for month, day, hour and minute |
| Migrations.DatePadOrder | scripts/generator.go:240-245 | padding keeps the order of numbers below 100 |
| Migrations.LongerYearSortsFirst | scripts/generator.go:167-168 | the last minute of the last year of k digits sorts behind the first of the next, for every k |
| Migrations.OrderedIffEquallyLong | scripts/generator.go:167-168 | over a range of years the IDs sort by time if and only if its ends have equally many digits |
| MigrationRegistry.Registry.LoadDiscoveredMigrations | pkg/db/migration_registry.go:15-22 | returns a fresh sorted permutation and leaves the registry |
| MigrationRegistry.OneOrderIffIdsIdentify | pkg/db/migration_registry.go:15-22 | that permutation is the only one, whatever the registration order, if and only if no two migrations share an ID |
| Paging.NewListArguments | pkg/services/types.go:25-67 | defaults and clamp, always 0 <= size <= 65500, and the field list |
| Paging.ParseIntReads | pkg/services/types.go:35-40 | a decimal with or without sign and zeros in front is read as itself, or as the nearest int64 |
| Paging.ParseIntRefuses | pkg/services/types.go:35-40 | anything else is read as zero |
| Paging.FieldsHaveId | pkg/services/types.go:48-64 | a field list has the requested names in their order, always the ID, and no empty or blank-edged name |
| Paging.Listing.LoadList | pkg/services/generic.go:222-257 | total, list and size of one page, with the early return for size 0 and the fetch errors |
| Paging.PagesGiveAllRows | pkg/services/generic.go:222-257 | the pages of any size give every row once and in order, and their sizes add up to the total |
| Paging.PageIsEmptyIff | pkg/services/generic.go:247 | a page is empty if and only if there are no rows or its int64 offset is past them |
| Paging.LaterPagesAreEmpty | pkg/services/generic.go:247 | later pages are empty as long as the offset is an int64, as for every page up to 2^31 |
| Paging.WrappedPageIsFirst | pkg/services/generic.go:247 | a page whose offset wraps around can be the first page again, and not empty |
| Paging.EarlyPageIsFirst | pkg/services/generic.go:247 | a page whose offset is not positive is the first page |

## Left out

- gorm, Postgres, ParseTSL, ident.Walk, the SQL walker and squirrel are not visible; they are small stated contracts (lock table, auto-committed statements, identifier map) or absent, and the final SQL text of a search is not modelled.
- The answers of the database and the first failing handler are fixed per caller before the run; they are arbitrary, so every pattern of errors is covered, but an answer cannot depend on the interleaving.
- A commit or rollback whose error is reported is taken to have ended the transaction, as database/sql gives its connection up.
- The lock transaction is begun on a session that carries the request's context (`pkg/db/db_session/default.go:142-151`); that this context is cancelled, which would end the transaction, is not modelled, and mutual exclusion and the transactions that stay open rest on it.
- AdvisoryLocks.AdvisoryLock.Lock: the class runs one call at a time, so a key that is held makes it time out; waiting is modelled in Protocol.
- Delete racing with Replace: Delete takes no lock and the outcome depends on gorm's Save.
- pg_notify delivery: notifications are arbitrary and may be repeated; no event is promised to be handled.
- The periodic repetition and the removal of processed events exist only in a comment.
- Nested locking of one key by one call stack is described in comments only; each lock call opens its own transaction.
- The hash of lock keys is any function: a collision only makes more calls wait for each other.
- Of ReconciledDate only whether it is set is kept; the clock is left out, and so are metrics and logging.
- Search.RenameQualifies: tables are plain identifiers other than properties, as a schema has them.
- SearchMeaning.MeaningIsPreserved: identifiers have no outer blanks, as the parser reads them; a row is read by its ON condition, so several related rows and NULL handling are left out.
- SearchJoins.ListContext.BuildSearchValues: ident.Walk threads the joins that its callback collects as a value, and the method stores them in the field.
- SliceFilter.Filter: pointers to slices, slices of other things than structs, nil items and models without the list's own fields, for which the code panics, are not modelled.
- SliceFilter.RemoveStar: a JSON name is matched literally, without characters that are special in a regular expression.
- NestedFields.AcceptedNameShowsIffShallow: one field inside structs that hold nothing else, with plain tags; for other structs what is accepted and what is shown are stated apart, in LeftIsUntaken and OneName.
- NestedFields.LeftIsUntaken: requests without stars, and names with line breaks only for structs without lists.
- RepeatedActs.MostActs: events that are in the table without a date when the run starts, and pools of at least two connections for their workers.
- RequestedFields.FlatRequests: no field is named `.*`, which the projection of scalars without a prefix would take for a star.
- The handler's call of SliceFilter with a bare slice; the model has the list struct that the body reads.
- Naming: ASCII names only; other letters go through Unicode case mapping.
- MigrationRegistry.Registry.LoadDiscoveredMigrations: sort.Slice is not visible; an insertion sort stands for it, and only sortedness and permutation are used.
- Paging.Listing.LoadList: Count and Fetch see one fixed ordered result; the total with grouped has_many joins is decided inside gorm, and a negative offset or limit is none.
- ArgsToOrderBy and cleanOrderBy add only easy members to getField, and determineListRange is not called.
- HTTP handlers, authentication, configuration, the OCM client, templates and generated code are plumbing.
