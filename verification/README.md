# Sbarbase operations: a verified model

Sbarbase runs many PostgreSQL environments on one host. Its operations layer is made of protocols that must survive a
kill at any point and neighbours that act at the same time. This project models them in Dafny and proves what they keep
over every run. `dafny verify dfyconfig.toml` checks it all.

| file | what it models |
|---|---|
| `DataApiSettings.dfy` | admitted Data API settings, their two written forms, what may be served while schemas are missing |
| `PreConfig.dfy` | the function PostgREST loads its settings with, in a session that may carry anything |
| `SchemaGuard.dfy` | the race of settings writes and tenants' schema changes on one lock, at read committed |
| `AtomicHba.dfy` | compare-and-swap of a whole file by writers that are killed anywhere |
| `MoveSteps.dfy`, `DatabaseMove.dfy`, `ClusterTakeover.dfy` | the attended database move and the takeover of a rebuilt cluster, on one durable record |
| `SupervisorLog.dfy`, `Supervisor.dfy` | the supervisor: its children, the drain before an update, the guarded resume, the restart limit |
| `SqlText.dfy`, `RoleInventory.dfy`, `RoleCompiler.dfy`, `RoleRebuild.dfy`, `ClusterReadBack.dfy` | an inventory of roles becomes SQL, and the cluster that ran it reads back as the same inventory |
| `TenantArchive.dfy` | a tenant's tree through archive and extraction |
| `BackupRetention.dfy` | what pruning keeps over any history of runs and marks |
| `OffsiteStream.dfy` | chunked encryption and reading of an off-host set |
| `AuthSettings.dfy`, `SignInRevisions.dfy` | the versioned sign-in settings file, and its revisions under saves and applies at once |
| `TlsProxy.dfy` | bounded bodies, retries and socket queues of the TLS proxy |
| `Prelude.dfy` | shared values and comma separated lists |

A protocol is a step system: a state, one function from a state and an action to the next state or to nothing, and
lemmas over every sequence of actions, a kill being an action like any other. A program that changes its own fields is
a class whose `Valid` is kept by every method; a loop of the source is a loop with its invariant, proved against a
function or a property of the whole input.

## What turned out not to hold

Each has a concrete run or input in the model, and beside it the exact condition under which the code does keep it.

- The comment of `lab/data_api.py` (line 451) says the values in force are the platform's, whatever ran in between. Only
  the rows given are checked again: code that runs before the last loop can change a default or set a key the scan found
  unset. The managed values are safe from it exactly when rows give all three keys, or are never accepted
  (`PreConfig.ManagedValuesAreKeptExactly`), the other keys only in the second case (`OtherKeysAreNeverKept`); from code
  between the checks of the last loop, only the last row (`OnlyTheLastRowIsProved`).
- A list an archive brought agrees with the report only without empty items (`PreConfig.ArchivedListAgreesExactly`,
  `EmptyItemsDisagree`).
- Until a takeover marks the move, the move's own command can be admitted too; the mark decides
  (`ClusterTakeover.OneCommandExactlyOnceMarked`, `BothAreAdmittedBeforeTheMark`).
- The comments of `lab/cluster_takeover.py` (lines 30-34 and 204-206) say that everything that can refuse is proven
  before the mark. The refusal of local changes comes after it; the model follows the code
  (`ClusterTakeover.LocalChangesRefuseAfterTheMark`, `LateRefusalIsReached`).
- An old takeover run again after a later move has changed the pin marks that move and can neither finish nor be
  released (`ClusterTakeover.LateTakeoverWedges`, `WedgedForGood`, `WedgeIsReached`); this is the case the code itself
  calls "needs review". `TakeoverCompletesExactlyWhenReady` says from which states a takeover does finish.
- Release looks for the rebuilt volume in the rebuild record; with that record unreadable it releases too late
  (`ClusterTakeover.LostRebuildRecordReleasesTooLate`, `ReleaseTooLateIsReached`; `ReleaseExactlyWhileUntouched` for every
  state with the record).
- A usable role inventory may name a setting twice, be unsorted, or hold an empty list: it then does not read back, as
  with `statement_timeout` twice (`ClusterReadBack.RepeatedTimeoutDoesNotReadBack`), or does not run.
  `ClusterReadBack.ReadBackComparesExactly` has the exact condition.
- When recording the end of an update child fails, the supervisor catches it and goes on from wherever HEAD is
  (`Supervision.Supervisor.ScheduleUpdates` says exactly when, `LostEndIsReached` shows it); when recording that a drain
  was given up fails, it goes on without the worker it stopped (`ContinueDrain`, `UnrecordedEndOfADrainStopsTheWorker`).
- A tenant's tree with two names of one file is archived but refused by the extraction
  (`TenantArchive.LinkedExactlyWhenHardLinked`, `CopyTenant`, `TwoNamesOfOneFile`).
- A mark is not held out by the backup lock: one that comes inside a run may not protect in that run, whose prunes go by
  the protection read when it began. It does exactly when the run already protects what is marked, or neither has nor can
  still take a later backup that `keep` counts, or the mark is not among the last two
  (`BackupRetention.MarkIsSafeExactly`).
- Overlapping applies, or one begun before there was a row, leave an applied row whose revision was never applied;
  `SignInRevisions.RunTellsExactly` says over which runs they do not.

## Model

| member | source | states |
|---|---|---|
| `DataApiSettings.ReadNames` | lab/data_api.py:74-89 | The list reader refuses exactly what the whole-list rule refuses (no list, empty, over the maximum, a bad, reserved or repeated name), names the failing field, and otherwise returns the names in order. |
| `DataApiSettings.ValidatedIsAdmitted` | lab/data_api.py:92-105 | Whatever `validate` accepts keeps the limits: schemas named once and not the platform's (or the empty schema alone), a search path with the two extra names allowed, a row limit in range. |
| `DataApiSettings.ValidationPassesExactly` | lab/data_api.py:74-105 | Which settings pass unchanged: the empty schema alone or 1 to 16 schemas of the tenant's own, each once; a search path of 1 to 16, with the two extra names; no row limit or one up to a million. |
| `DataApiSettings.GivenSettingsMean` | lab/data_api.py:92-105 | What a given request validates to: the listed schemas, the empty one for an empty list; the listed search path, `public` when it is left out; a row limit only when one is given. |
| `DataApiSettings.NothingListedIsAdmitted` | lab/data_api.py:101-102 | An empty list alone turns the Data API off. |
| `DataApiSettings.NothingInternalIsExposed` | lab/data_api.py:70-89 | No accepted schema is one of the platform's, the services' or PostgreSQL's, nor GraphQL's, except the empty one alone. |
| `DataApiSettings.AdmittedPassesAgain` | lab/data_api.py:92-105 | Validating a validated value returns it unchanged. |
| `DataApiSettings.RowRoundTrip` | lab/data_api.py:108-110 | Joining admitted settings into a catalog row and reading the row back is the identity. |
| `DataApiSettings.ServingRoundTrip` | lab/data_api.py:197-217 | Reading back what PostgREST serves from the rows `settings_function` was written with gives the validated settings, in whatever order the rows come. |
| `DataApiSettings.LookupUnique` | lab/data_api.py:367-369 | The value found for a key is the text of the one line that carries it. |
| `DataApiSettings.KeepSelects` | lab/data_api.py:155-157 | The names kept are exactly the chosen ones that exist (or do not), in their order and without repetition. |
| `DataApiSettings.ServedIsAdmitted` | lab/data_api.py:149-162 | What may be served keeps every limit of validated settings. |
| `DataApiSettings.ServedExactly` | lab/data_api.py:155-161 | Served names are the chosen ones that exist, in order, or the empty schema when none does. |
| `DataApiSettings.EffectiveServesOnlyWhatTheOwnerListed` | lab/data_api.py:149-162 | What may be served always validates again unchanged, serves exactly the listed names that exist, keeps the row limit, and never adds `public`. |
| `DataApiSettings.LeftOutIsExactlyWhatIsMissing` | lab/data_api.py:156-162 | The report names each chosen name that is gone once and nothing else; with the Data API off only the schemas count. |
| `PreConfig.Session.Apply` | lab/data_api.py:426-436 | Applying the managed rows and the two defaults leaves the session as the specification's loaded values, the last row of a key deciding. |
| `PreConfig.Session.Carries` | lab/data_api.py:443-450 | The scan of the keys PostgREST reads finds one exactly when the session sets a key the platform did not. |
| `PreConfig.Session.Holds` | lab/data_api.py:452-456 | The last loop succeeds exactly when each managed row is in force as its own check comes, whatever runs before each check. |
| `PreConfig.Session.Run` | lab/data_api.py:419-457 | The whole function ends in the specification's session or refuses and leaves the session as it was. |
| `PreConfig.SetAllEffect` | lab/data_api.py:427-429 | After the rows are applied a key has the value of its last row, or the one it had. |
| `PreConfig.CleanMeans` | lab/data_api.py:443-450 | What the scan accepts: every unmanaged key unset, and the row limit unset or empty when no row gives it. |
| `PreConfig.ProvedMeans` | lab/data_api.py:452-456 | What the last loop accepts: each managed row in force. |
| `PreConfig.LoadEndsInPlatformValues` | lab/data_api.py:419-457 | Undisturbed, a load is accepted exactly for a session with the right search path and nothing foreign in it, and every key PostgREST reads then has the platform's value while the rest of the session is untouched. |
| `PreConfig.MeddlingKeepsTheGivenKeys` | lab/data_api.py:451-456 | Whatever runs outside the last loop, an accepted load has every row the platform gave in force, and rows that contradict each other are never accepted. |
| `PreConfig.AnyOtherKeyCanBeSet` | lab/data_api.py:443-456 | A managed key no row gives, or any unmanaged one, can be given any text by code that runs outside the last loop, and the load is accepted. |
| `PreConfig.ManagedValuesAreKeptExactly` | lab/data_api.py:426-456 | Code outside the last loop can never change the managed values of an accepted load exactly when rows give all three keys, or contradict each other. |
| `PreConfig.OtherKeysAreNeverKept` | lab/data_api.py:443-456 | The keys that must stay unset are kept so against such code exactly when no load is accepted at all. |
| `PreConfig.DefaultsAreNotProvedAgain` | lab/data_api.py:430-456 | Concretely: a default changed between being set and the scan is accepted. |
| `PreConfig.OnlyTheLastRowIsProved` | lab/data_api.py:451-456 | With code between the checks of the last loop too, a key is sure to have a text exactly when they are the last row checked. |
| `PreConfig.NoRowsKeepTheManagedValues` | lab/data_api.py:451-456 | So for any rows such code has an accepted load that ends without the platform's managed values. |
| `PreConfig.InForceIsWhatServingReports` | lab/data_api.py:360-374 | After an accepted load of written settings, what is in force is what `serving` reports, also for the defaults. |
| `PreConfig.ArchivedListAgreesExactly` | lab/data_api.py:367-374 | For a list an archive brought, in force and reported texts agree exactly when the list has no empty item. |
| `PreConfig.EmptyItemsDisagree` | lab/data_api.py:367-374 | Concretely: for a list of two empty items they differ. |
| `SchemaGuard.StepKeepsInv` | lab/data_api.py:321-341 | Each step of a settings write or of a tenant's transaction keeps the lock, the private views and the exposed schemas consistent. |
| `SchemaGuard.EveryRunStaysSafe` | lab/data_api.py:468-535 | Over every interleaving of writes (tried, claimed, reset) with renames, drops and cascades, savepoints, aborts and ended sessions, every exposed and search path schema is present in every committed state. |
| `SchemaGuard.QuietStartIsInvariant` | lab/data_api.py:387-412 | A database with its exposed schemas present and nothing under way is a start every run is safe from. |
| `SchemaGuard.TryingNeverWaits` | lab/data_api.py:334-336 | Trying the lock always answers at once: the write owns it, or is gone. |
| `SchemaGuard.ClaimingAlwaysGetsThrough` | lab/data_api.py:252-259 | From every reachable state a claiming write ends the sessions around the lock and no other, takes it and commits its settings, if its schemas exist and no other platform write holds it. |
| `SchemaGuard.LockedWriteGoesThrough` | lab/data_api.py:337-341 | Once the lock is free a queued write takes it, finds its schemas and commits. |
| `SchemaGuard.WriteCommitsExactly` | lab/data_api.py:321-341 | A write that only tries the lock commits, undisturbed, exactly when the lock is free and every schema it names exists; otherwise it leaves everything as it was. |
| `SchemaGuard.TransactionCommitsExactly` | lab/data_api.py:468-535 | Undisturbed, a tenant's read committed transaction of any renames and drops commits what they leave exactly when every exposed and search path schema is there after each of them; otherwise it cannot commit. |
| `SchemaGuard.ReleasedSavepointCommitsExactly` | lab/data_api.py:468-535 | The same through a savepoint that is released. |
| `SchemaGuard.RolledBackSavepointLeavesNothing` | lab/data_api.py:468-535 | What follows a savepoint is undone by rolling back to it, failed or not; the lock taken since is given back, and what came before commits. |
| `SchemaGuard.CreatedIsCommittedExactly` | lab/data_api.py:468-505 | A created schema commits exactly when there was none of that name, with no lock taken. |
| `SchemaGuard.SnapshotsMustBeRefused` | lab/data_api.py:519-523 | A guard that reads by the transaction's first snapshot has a run that drops an exposed schema. |
| `SchemaGuard.TheLockIsNeeded` | lab/data_api.py:524-527 | A guard without the lock has a run in which a drop fits between the platform's check and its write. |
| `AtomicHba.HeadersDiffer` | lab/atomic_hba.py:42-49 | Two requests with different revisions never carry the same file, whatever their rules. |
| `AtomicHba.PrepareKeepsInv` | lab/atomic_hba.py:42-49 | Preparing with a fresh revision makes a content no request and no earlier file carries. |
| `AtomicHba.StepKeepsInv` | lab/atomic_hba.py:7-32 | Each command of the script, and a kill between any two, keeps the chain of replacements and the lock's meaning. |
| `AtomicHba.ContentIsNew` | lab/atomic_hba.py:42-49 | A request that is not done carries a content the file never had. |
| `AtomicHba.CurrentIsNotDone` | lab/atomic_hba.py:30-31 | A request whose expected digest is in the file now has not been done: no content comes back. |
| `AtomicHba.FileIsAlwaysOneCompleteContent` | lab/atomic_hba.py:7-32 | With any writers, kills and wrong or cut payloads the file is the original or one whole prepared content, ending in a newline and without a zero byte, each replacement expected exactly what it replaced, and each request succeeds at most once. |
| `AtomicHba.StaleRequestNeverRevives` | lab/atomic_hba.py:30-31 | Once a request's expected revision has left the file no later replacement is that request's, even if the same rules return. |
| `AtomicHba.SuccessCannotBeReplayed` | lab/atomic_hba.py:52-59 | A request that succeeded is stale from then on. |
| `AtomicHba.OnlyTheHolderWrites` | lab/atomic_hba.py:26-32 | No step changes the file but the rename of the lock's holder, and only to its own request's content. |
| `AtomicHba.RequestGoesThroughExactlyWhenCurrent` | lab/atomic_hba.py:26-32 | Whatever killed writers left, a request undisturbed replaces the file exactly when its expected digest is the file's; otherwise nothing changes. |
| `AtomicHba.PreparedReplacementTakesEffect` | lab/atomic_hba.py:42-63 | From every reachable state with the lock free, preparing any complete rules and running the request undisturbed always succeeds, and the file is then one comment line followed by exactly the rules. |
| `AtomicHba.DeadHolderIsFollowed` | lab/atomic_hba.py:7-32 | A writer killed anywhere while it holds the lock leaves the file as it is and both to the next replacement, which takes effect. |
| `AtomicHba.BusyWriterLeaves` | lab/atomic_hba.py:29 | A writer that finds the lock held leaves at once and changes nothing. |
| `AtomicHba.WrongPayloadChangesNothing` | lab/atomic_hba.py:14-16 | A payload other than the request's is turned away whatever it holds, and nothing is changed. |
| `DatabaseMove.StepKeepsInv` | lab/database_move.py:242-304 | Every effect of the move, of a takeover and of the operator keeps what the record, the checkout, the migration record, the pin and the marked run say about each other. |
| `DatabaseMove.RunKeepsInv` | lab/database_move.py:242-304 | The same over every run, with kills anywhere. |
| `DatabaseMove.ChangeStartsRightAndFinishesOnce` | lab/database_move.py:276-299 | Over every run each start of the database change found a clean checkout of the target, and the change finished at most once. |
| `DatabaseMove.PreparedBackupsAreKept` | lab/database_move.py:281-293 | Over every run, of a move prepared with a backup: each start of its change found the backup run marked, and it is marked once the move is archived as completed or superseded; of one prepared without, nothing is marked. A completed move finished its change exactly once. |
| `DatabaseMove.PreparedExactlyAtRest` | lab/database_move.py:118-178 | A move is prepared exactly with none recorded, no migration recorded or waiting, a clean checkout of its from version and that version's image running, and changes nothing but the record. |
| `DatabaseMove.PreparedMoveCanBeDropped` | lab/database_move.py:182-190 | A move only prepared can be dropped, and Sbarbase starts again. |
| `DatabaseMove.BegunMoveIsNeverDropped` | lab/database_move.py:182-190 | A move past prepared stays recorded, with every start of Sbarbase refused, until it is archived as completed or superseded. |
| `DatabaseMove.FinishedChangeIsNotRepeated` | lab/database_move.py:220-304 | A finished change is never started or finished again over any run of the move's own commands, of takeovers killed or released, and of the operator's actions, until another move is prepared. |
| `DatabaseMove.CourseContinues` | lab/database_move.py:242-304 | Each effect of a resumed move that is on course leads on and brings it nearer to its end. |
| `DatabaseMove.ContinueCompletesExactlyWhenReady` | lab/database_move.py:242-304 | From every reachable state, running the move again completes it exactly when the database is stopped while it is only prepared and the checkout is a clean target once it has moved. |
| `DatabaseMove.KillLeavesTheMoveReady` | lab/database_move.py:242-304 | A kill anywhere on the course leaves a state the rerun completes. |
| `ClusterTakeover.StepKeepsGrounds` | lab/cluster_takeover.py:105-176 | Every effect keeps each record of a takeover naming the rebuild it was made for. |
| `ClusterTakeover.RunKeepsGrounds` | lab/cluster_takeover.py:105-176 | The same over every run. |
| `ClusterTakeover.TakeoverAdmittedExactly` | lab/cluster_takeover.py:60-160 | In every idle state a takeover gets past its checks exactly with a completed rebuild, no move or a begun one, no migration or one onto the rebuilt volume and image or a stuck one, and a checkout whose lock names the rebuilt image or a recorded way back to one. |
| `ClusterTakeover.OneCommandExactlyOnceMarked` | lab/cluster_takeover.py:204-212 | Where the takeover is admitted, the move's own command is refused once the move is marked, whether the database runs or not; before, it is admitted unless the database runs with nothing of the move's migration to account for it. |
| `ClusterTakeover.BothAreAdmittedBeforeTheMark` | lab/cluster_takeover.py:198-212 | Concretely: a run from a quiet installation into a state where both commands are admitted. |
| `ClusterTakeover.MarkedMoveIsOnlyTakenOver` | lab/cluster_takeover.py:105-109 | Once marked, no effect of the move's own command happens until the record is archived or released, over every run. |
| `ClusterTakeover.TakeoverOnCourse` | lab/cluster_takeover.py:198-234 | Each effect of a takeover that is on course leads on and brings it nearer to its end. |
| `ClusterTakeover.TakeoverFinishes` | lab/cluster_takeover.py:198-234 | A takeover on course ends on the rebuilt volume and image with no record left, a recorded move archived as superseded with its backups kept, and Sbarbase starts. |
| `ClusterTakeover.TakeoverCompletesExactlyWhenReady` | lab/cluster_takeover.py:198-234 | From every reachable state the takeover completes exactly when it is admitted, the tree is clean or is moved back, and a volume already named was named with the rebuilt image. |
| `ClusterTakeover.KilledTakeoverFinishesWhenRunAgain` | lab/cluster_takeover.py:198-234 | A kill anywhere on the way, in a half written checkout too, leaves a state a rerun completes. |
| `ClusterTakeover.LocalChangesRefuseAfterTheMark` | lab/cluster_takeover.py:211-219 | A refusal for local changes comes after the move was marked, and leaves it marked. |
| `ClusterTakeover.LateRefusalIsReached` | lab/cluster_takeover.py:198-219 | A run from a quiet installation reaches a state with such local changes. |
| `ClusterTakeover.ReleaseExactlyWhileUntouched` | lab/cluster_takeover.py:237-257 | In every reachable state release is admitted exactly while no migration onto the rebuilt volume is recorded, waiting or already named; the move's own command is then admitted again. |
| `ClusterTakeover.LostRebuildRecordReleasesTooLate` | lab/cluster_takeover.py:250-256 | With the rebuild record gone, release is admitted although the rebuilt volume is named. |
| `ClusterTakeover.ReleaseTooLateIsReached` | lab/cluster_takeover.py:250-256 | A run from a quiet installation reaches a state that is released too late. |
| `ClusterTakeover.LateTakeoverWedges` | lab/cluster_takeover.py:207-212 | A takeover run again after a later move changed the pin marks that move and cannot finish. |
| `ClusterTakeover.WedgedForGood` | lab/cluster_takeover.py:224-231 | From there no command and no operator action of the model leads out. |
| `ClusterTakeover.WedgeIsReached` | lab/cluster_takeover.py:198-234 | A run from a quiet installation reaches such a state. |
| `SupervisorLog.NothingElseStartsWhileQuiesced` | lab/dev.py:228-233 | In every orderly log, between the beginning of a drain and its end or its child's, only that upgrade or rollback child starts. |
| `SupervisorLog.OneUpdateChildAtATime` | lab/dev.py:358-377 | In every orderly log an update child ended between the starts of any two. |
| `SupervisorLog.EveryStartAtHome` | lab/dev.py:489-502 | A log at home has each start but an upgrade's or rollback's own at the supervisor's commit. |
| `SupervisorLog.NoWindowHoldsMore` | lab/dev.py:257-265 | Restarts of which four in a row span more than 60 seconds put at most three into any 60 seconds. |
| `SupervisorLog.RestartsAreLimited` | lab/dev.py:257-265 | What the supervisor remembers of its restarts implies that no 60 seconds hold more than three counted ones. |
| `SupervisorLog.KeptPruned` | lab/dev.py:258-259 | Forgetting a restart older than 60 seconds keeps that record true. |
| `SupervisorLog.KeptCounted` | lab/dev.py:265 | Counting one more below the limit keeps it true. |
| `SupervisorLog.Prune` | lab/dev.py:258-265 | The loop forgets exactly the restarts older than 60 seconds, and the limit is reached exactly when three remain. |
| `SupervisorLog.Reap` | lab/dev.py:652-659 | Children that ended are reaped, and one that found the lock held is asked again five seconds later. |
| `SupervisorLog.StartDue` | lab/dev.py:662-667 | Exactly the requests without a child that may be asked again are started, each once, and their retry times cleared. |
| `Supervision.Supervisor.StartWorker` | lab/dev.py:218-223 | Starts the worker, and logs it at the checkout's commit. |
| `Supervision.Supervisor.Check` | lab/dev.py:239-270 | An exited console stops the program; an exited worker is dropped without being counted while an update drains, is started again and counted otherwise, and a fourth exit within 60 seconds stops the program. |
| `Supervision.Supervisor.ScheduleBackup` | lab/dev.py:272-310 | Follows the daily backup or starts a due one, never while paused. |
| `Supervision.Supervisor.ScheduleStudios` | lab/dev.py:621-635 | Reaps ended Studio children and, unless paused, starts exactly the rows that ask for one, in order, one per environment. |
| `Supervision.StudiosStartExactly` | lab/dev.py:621-635 | A turn starts a Studio child for an environment exactly when it has none and a row of it asks, and the first such row says which. |
| `Supervision.Supervisor.ScheduleSignIn` | lab/dev.py:648-667 | Reaps, and unless paused starts exactly the due sign-in requests. |
| `Supervision.Supervisor.ScheduleDataApi` | lab/dev.py:680-700 | Reaps, and unless paused starts exactly the due Data API requests. |
| `Supervision.Supervisor.ScheduleToggles` | lab/dev.py:720-741 | Reaps, and unless paused starts exactly the due toggles, one per service and environment. |
| `Supervision.Supervisor.ScheduleHostActions` | lab/dev.py:771-786 | One host action at a time, none while paused, half a minute after a failure. |
| `Supervision.Supervisor.ScheduleScheduler` | lab/dev.py:788-805 | The scheduler runs except while paused, when it is stopped; one that exited waits five seconds. |
| `Supervision.Supervisor.ScheduleRolling` | lab/dev.py:807-821 | One rolling child at a time, none while paused, with its three waits. |
| `Supervision.Supervisor.BeginDrain` | lab/dev.py:445-460 | A drain begins with its deadline, and its child starts at once when nothing is in flight; one whose request cannot be recorded does not begin. |
| `Supervision.Supervisor.ContinueDrain` | lab/dev.py:473-487 | The child starts exactly once everything is idle and no record waits; past the deadline the drain is given up and work resumes or the program stops, exactly unless recording it fails first. |
| `Supervision.Supervisor.ResumeWork` | lab/dev.py:525-534 | Work resumes only at the commit the supervisor started on with no phase pending; otherwise it stops with the restart code. |
| `Supervision.Supervisor.RestartToSettle` | lab/dev.py:519-523 | Stops with the restart code unless the drain marker cannot be removed. |
| `Supervision.Supervisor.StartMove` | lab/dev.py:536-546 | The upgrade or rollback child starts alone, or the drain is over. |
| `Supervision.Supervisor.StartCheck` | lab/dev.py:536-546 | A check starts when no other update child and no drain is there. |
| `Supervision.Supervisor.UpdateFinished` | lab/dev.py:548-608 | Unless recording it fails first, an upgrade or rollback that ended leads to resumed work exactly when it failed with no phase pending and HEAD readable and where the supervisor started, and else to a stop with the restart code. |
| `Supervision.EndMeans` | lab/dev.py:489-517 | An upgrade or rollback got there when its child says so or the upgrade state has it move the checkout for good to where HEAD is; work goes on only after one that did not, with no phase pending and HEAD at the supervisor's commit. |
| `Supervision.Supervisor.ScheduleUpdates` | lab/dev.py:358-410 | One update child at a time is followed; a lost end leaves the checkout moved exactly when recording failed and HEAD had moved. |
| `Supervision.Supervisor.Begin` | lab/dev.py:875-886 | The start of a turn: a moved checkout is seen, the console and worker are looked at, and a handover that waits for its confirmation holds everything else back. |
| `Supervision.Supervisor.Work` | lab/dev.py:887-900 | All eight schedules run in a turn that goes on, each with its own contract, and touch nothing else. |
| `Supervision.Supervisor.TryUpdates` | lab/dev.py:905-911 | The update channel is served, or its failure puts it off for a minute and changes nothing of the drain but what it had begun. |
| `Supervision.Supervisor.Turn` | lab/dev.py:875-910 | One turn does all of it: the console and worker are looked at, a confirmation awaited, and when the turn goes on every schedule's contract holds of it (backup, Studios, due sign-in, Data API and toggle requests, host action, scheduler, rolling child), then the update channel's when it is due; it raises exactly when the look does; and it keeps the whole invariant. |
| `Supervision.Supervisor.Loop` | lab/dev.py:875-911 | Every turn is taken, in order, until one raises or the supervisor stops. |
| `Supervision.Supervisor.Run` | lab/dev.py:855-942 | Over a whole run every turn is taken, in order, until one raises, the supervisor stops or none is left; the log is orderly and the restarts limited, every child is gone in the end, and without a failure to record an end every start was at the supervisor's commit. |
| `Supervision.LostEndStartsFromTheMovedCheckout` | lab/dev.py:366-377 | When recording an upgrade that moved the checkout fails, the next child starts from the moved checkout. |
| `Supervision.LostEndIsReached` | lab/dev.py:366-377 | The same from the start of a supervisor. |
| `Supervision.UnrecordedEndOfADrainStopsTheWorker` | lab/dev.py:480-487 | From the start of a supervisor: a drain whose giving up cannot be recorded leaves the worker stopped with nothing draining. |
| `RoleInventory.Usable` | lab/cluster_inventory.py:152-183 | The loop finds no problem exactly when every role is named once, recorded under its own kind and environment, and keeps its kind's rule. |
| `RoleInventory.FromRows` | lab/cluster_inventory.py:117-137 | The record of the rows: managed rows in the kept form, sorted, and a refusal for every other one and every broken rule. |
| `RoleInventory.KeptRowsRefuseNothing` | lab/cluster_inventory.py:117-137 | Rows that keep their rule give a record that refuses nothing and lists each of them. |
| `RoleInventory.NoManagedRoleRules` | lab/cluster_inventory.py:31-43 | No kept role is a superuser or creates roles or databases; only Studio and developer logins bypass row security, only Realtime replicates. |
| `RoleInventory.ClassifiedExactly` | lab/cluster_inventory.py:25-43 | A name is an environment's role exactly when it is `e_`, 24 hexadecimal digits and the ending of its kind, and otherwise one of the cluster's own or no managed role. |
| `RoleInventory.SortSorts` | lab/cluster_inventory.py:127-136 | Sorting gives an ascending list of the same elements. |
| `RoleInventory.SortedIsUnique` | lab/cluster_inventory.py:127-136 | Two ascending lists of the same elements are the same list when equal keys mean equal elements. |
| `SqlText.WrittenNamesReadBack` | lab/cluster_rebuild.py:73-74 | A quoted name or literal is one token that PostgreSQL reads as the text that went in, whatever it holds, and nothing after it is touched. |
| `SqlText.ElementsAreTheText` | lab/cluster_rebuild.py:162-173 | What the list pattern matches is the list of its elements written one after another. |
| `SqlText.WrittenElementsReadBack` | lab/cluster_rebuild.py:162-173 | Well formed elements written as a list are matched as the same elements. |
| `SqlText.ListsAreStoredAsWritten` | lab/cluster_rebuild.py:159-173 | PostgreSQL stores a list setting as it was written exactly when each element is written the way PostgreSQL writes it. |
| `RoleCompiler.RoleSql` | lab/cluster_rebuild.py:182-210 | The loops refuse exactly when a login that must open has no password or a setting cannot be written, and otherwise give the compiled statements and the closed logins. |
| `RoleCompiler.SettingsSql` | lab/cluster_rebuild.py:166-174 | The settings of a role are written in order, or refused when one is malformed. |
| `RoleCompiler.ClosedExactly` | lab/cluster_rebuild.py:192-196 | The closed logins are exactly the Studio, developer and scheduler logins recorded open without a kept password. |
| `RoleCompiler.RefusedExactly` | lab/cluster_rebuild.py:187-196 | What is refused, role by role: a login recorded open without a kept password unless it is a Studio, developer or scheduler login, or a setting that cannot be written. |
| `RoleCompiler.SettingsWrittenExactly` | lab/cluster_rebuild.py:166-174 | A setting is written as its quoted value, a list setting as its elements, and refused exactly for a malformed key or list. |
| `RoleCompiler.ExecuteConcat` | lab/cluster_rebuild.py:208-210 | Running two lists of statements one after the other is running their concatenation. |
| `RoleRebuild.StoredAsRecorded` | lab/cluster_rebuild.py:166-174 | A setting set again is stored as its recorded text exactly when it is no list or a canonical one. |
| `RoleRebuild.SettingsReadBack` | lab/cluster_rebuild.py:202-203 | The settings read back equal the recorded list exactly when that is sorted, names no setting twice and is canonical. |
| `RoleRebuild.GrantsReadBack` | lab/cluster_rebuild.py:204-207 | The memberships read back equal the recorded list exactly when that is sorted and names no role twice. |
| `ClusterReadBack.RoleExecuted` | lab/cluster_rebuild.py:197-203 | A role's statements run exactly when its limit and settings are taken, and make that role alone, as recorded: its kept password, or the one the image had, and open exactly when it is recorded open and a password is kept. |
| `ClusterReadBack.RolesExecuted` | lab/cluster_rebuild.py:187-203 | The same for all roles of distinct names. |
| `ClusterReadBack.GrantsExecuted` | lab/cluster_rebuild.py:204-207 | All grants run exactly when every granted role exists and is not the member, and leave each member its own memberships with their options. |
| `ClusterReadBack.ParametersExecuted` | lab/cluster_rebuild.py:208-210 | The parameter grants run exactly when privilege and grantee exist, and add exactly those privileges. |
| `ClusterReadBack.ExecutesExactly` | lab/cluster_rebuild.py:182-210 | All statements run exactly when PostgreSQL takes each part, and then leave exactly the recorded roles with their passwords, memberships and privileges. |
| `ClusterReadBack.RebuiltLogins` | lab/cluster_rebuild.py:185-207 | After the statements ran, a password opens a recorded role exactly when that role is recorded open and it is the password kept for it. |
| `ClusterReadBack.MaskedExactly` | lab/cluster_rebuild.py:213-222 | The comparison leaves out the login state of Studio, developer, Realtime and scheduler logins and of those created closed, and nothing else. |
| `ClusterReadBack.ReadBackRefusesNothing` | lab/cluster_rebuild.py:372-374 | The record read back from the rebuilt cluster keeps every rule. |
| `ClusterReadBack.ReadBackComparesExactly` | lab/cluster_rebuild.py:213-222 | For every usable inventory that compiles and runs on a cluster with only the image's roles, the read back compares equal exactly when the inventory is canonical. |
| `ClusterReadBack.RepeatedSettingDoesNotReadBack` | lab/cluster_rebuild.py:202-203 | A usable inventory that names any one setting twice compiles and runs, and whatever the query then returns does not compare equal to it. |
| `ClusterReadBack.RepeatedTimeoutDoesNotReadBack` | lab/cluster_rebuild.py:162-203 | The same for the platform's own names and list settings, with `statement_timeout` recorded twice for `management_auth`. |
| `ClusterReadBack.EmptyListDoesNotRun` | lab/cluster_rebuild.py:170-173 | A usable inventory with an empty list setting compiles, but its statement is refused. |
| `TenantArchive.SortedListsParentsFirst` | lab/backup_consistency.py:93 | Listing paths sorted by their names puts every directory before what it holds. |
| `TenantArchive.Archive` | lab/backup_consistency.py:82-103 | Refuses exactly when an entry is no directory and no regular file; otherwise one member per path with its metadata, bytes and kept attributes, a second name of a file as a link. |
| `TenantArchive.Target.MakeDirectories` | lab/backup_consistency.py:123-126 | Fails exactly when a file stands on the way, changing nothing; otherwise makes what is missing, the path with its mode and parents with the default one, touches the last directory that was there, and changes nothing else. |
| `TenantArchive.Target.Place` | lab/backup_consistency.py:117-134 | A member becomes a private directory, or a file with its bytes, attributes and metadata. |
| `TenantArchive.Target.Finish` | lab/backup_consistency.py:135 | Giving the directories their metadata from the last to the first never meets a directory that cannot be searched, and ends in the members' own metadata. |
| `TenantArchive.Target.Extract` | lab/backup_consistency.py:105-136 | For a listing as the archive writes it the extraction refuses exactly when a member is no directory and no regular file, and otherwise reproduces all of them; any stream it takes has only plain paths below the root, supported members, kept attributes, and no file in the place of an earlier member. |
| `TenantArchive.OneMoreBuilt` | lab/backup_consistency.py:114-134 | Creating the next entry changes only the time of the directory above it. |
| `TenantArchive.NextDirectory` | lab/backup_consistency.py:135 | The next directory from the end gets its metadata, and what is finished stays so. |
| `TenantArchive.LinkedExactlyWhenHardLinked` | lab/backup_consistency.py:95 | A member becomes a link exactly when two paths of the tree are one file. |
| `TenantArchive.TwoNamesOfOneFile` | lab/backup_consistency.py:95 | Concretely: a tenant's tree that is archived and holds one file under two names. |
| `TenantArchive.CopyTenant` | lab/backup_consistency.py:82-136 | Archive and extraction into an empty root reproduce the tree (paths, bytes, kept attributes, owners, modes within 0777, times), or refuse exactly for a special file or two names of one file. |
| `TenantArchive.CopiesAreFaithful` | lab/backup_consistency.py:82-136 | What the copy of a tree holds, path by path: the same directories and files and no others, with owner, mode within 0777, time, bytes and each kept attribute. |
| `TenantArchive.CopyAbsentTenant` | lab/backup_consistency.py:89-90 | An absent tenant becomes an empty directory with mode 0700. |
| `BackupRetention.LastOf` | lab/backup.py:608-626 | The last elements of the sorted list are those with fewer than that many later ones. |
| `BackupRetention.Backups.UpgradeRunTimes` | lab/backup.py:555-573 | The times with an upgrade manifest in any scope. |
| `BackupRetention.Backups.UpgradeRuns` | lab/backup.py:615-626 | The newest three of the upgrade runs that moved (of all while none is marked), the run under way counted. |
| `BackupRetention.OwnRunIsProtected` | lab/backup.py:615-626 | The upgrade run under way is protected before its manifests are written. |
| `BackupRetention.Backups.MarkMoved` | lab/backup.py:598-612 | The record becomes the newest twenty of the marked runs, or of all upgrade runs at the first mark, and the one marked. |
| `BackupRetention.MarkedExactly` | lab/backup.py:598-612 | A run is in the record after a mark exactly when it was in it (or is any upgrade run, at the first mark) or is the one marked, and fewer than twenty there are later. |
| `BackupRetention.Backups.Prune` | lab/backup.py:629-649 | Refused for a pending completion or nothing to keep; otherwise exactly the doomed backups of that scope go. |
| `BackupRetention.PruneKeepsExactly` | lab/backup.py:629-649 | A backup stays exactly if it is protected, named by a completed restore, among the newest of the others, or interrupted with no newer complete one. |
| `BackupRetention.OwnBackupSurvives` | lab/backup.py:629-649 | Whatever is kept, a run later than every backup of a scope keeps the one it took there, a cut one as cut; an upgrade's own and a cut one do not take the place of the newest complete one before. |
| `BackupRetention.FirstMarkDropsNothing` | lab/backup.py:604-608 | The first mark leaves the protection exactly as it was. |
| `BackupRetention.NewestOfPart` | lab/backup.py:615-626 | Dropping elements that are not among the newest does not change the newest. |
| `BackupRetention.PruneSpares` | lab/backup.py:641-649 | A run's prune leaves a backup that it protects, or that nothing it counts or can still take is later than, and leaves it spared. |
| `BackupRetention.SafeExactly` | lab/backup.py:629-649 | A state is safe exactly when no takes and prunes of the run under way can remove a backup of the last two moved upgrades. |
| `BackupRetention.MarkIsSafeExactly` | lab/backup.py:598-612 | A mark keeps the state safe exactly when the run under way spares what it marks, and otherwise that run can remove a backup of it. |
| `BackupRetention.LastTwoMovedSurvive` | lab/backup.py:629-649 | Over every history whose marks are such, inside runs too, the backups the last two moved upgrades had when they were marked survive. |
| `BackupRetention.MarkInsideARunLosesABackup` | lab/backup.py:598-612 | Concretely: a mark inside a run that does not spare it, and the prune that then removes the backup. |
| `OffsiteStream.Encrypting.Write` | lab/backup_offsite.py:316-318 | Any piece extends the ciphertext as the whole text's encryption would. |
| `OffsiteStream.Encrypting.Finish` | lab/backup_offsite.py:320-321 | The finished file is the sealed form of all that was written. |
| `OffsiteStream.Seal` | lab/backup_offsite.py:306-321 | A set written in any pieces is the sealed form of their concatenation. |
| `OffsiteStream.Decrypted` | lab/backup_offsite.py:324-348 | The blocks are the decryption of the body; a short file, a wrong mark and a wrong tag are told apart, exactly. |
| `OffsiteStream.AcceptedExactlyWhenSealed` | lab/backup_offsite.py:324-348 | A set is accepted under a key and name exactly when it is what sealing that text under them writes. |
| `OffsiteStream.Reader.Read` | lab/backup_offsite.py:359-373 | A read returns exactly the next bytes, fewer only at the end, empty blocks or not, and leaves the rest. |
| `OffsiteStream.ReadAll` | lab/backup_offsite.py:359-373 | Reads of any sizes give the concatenation piece by piece. |
| `OffsiteStream.RoundTrip` | lab/backup_offsite.py:380-417 | Whatever pieces are written and sizes read, what is read is what was written. |
| `OffsiteStream.SealedBytes` | lab/backup_offsite.py:302-321 | Byte for byte, a sealed set is the mark, the nonce and each byte of the text with the key stream of that key and nonce. |
| `OffsiteStream.OpenedElsewhere` | lab/backup_offsite.py:302-348 | A set sealed under one name and key is accepted under another exactly when the cipher gives both the same tag, which is taken of the mark, the name and the body. |
| `OffsiteStream.PruneRemote` | lab/backup_offsite.py:531-541 | Refused unless the uploaded set is listed; otherwise all but the newest go, and the newest never. |
| `AuthSettings.TidyTwice` | lab/auth_settings.py:172-176 | Tidying a tidied list of client ids changes nothing, and its parts are the stripped parts. |
| `AuthSettings.ValidateConfig` | lab/auth_settings.py:135-158 | The loop refuses exactly when a key or value is not admitted, and keeps every set value that is not retired or empty. |
| `AuthSettings.ValidateProviders` | lab/auth_settings.py:159-190 | The loop refuses exactly when a provider is not admitted, and otherwise returns each with its defaults and tidied ids. |
| `AuthSettings.Validate` | lab/auth_settings.py:115-205 | Validation returns the settings of a file exactly when every part is admitted. |
| `AuthSettings.LeftOutFieldsMean` | lab/auth_settings.py:115-134 | A file that leaves fields out is admitted and means what it would with them written out: sign-ups open, other switches off, nothing redirected, configured, offered or limited. |
| `AuthSettings.LeftOutOfProviderMeans` | lab/auth_settings.py:159-190 | The same of what a provider leaves out. |
| `AuthSettings.PlainFieldsAreAdmittedExactly` | lab/auth_settings.py:115-134 | Which version, revision, site and redirect addresses are admitted. |
| `AuthSettings.SettingIsAdmittedExactly` | lab/auth_settings.py:135-158 | What each kind of registered setting admits, and that an empty or absent value clears it. |
| `AuthSettings.OtherSettingsExactly` | lab/auth_settings.py:135-158 | A retired setting is dropped whatever it holds; an unknown one is refused. |
| `AuthSettings.ProviderIsAdmittedExactly` | lab/auth_settings.py:159-190 | Which written provider is admitted, and as what. |
| `AuthSettings.SessionIsAdmittedExactly` | lab/auth_settings.py:191-205 | Which session limits are admitted, and that they are kept as given. |
| `AuthSettings.AcceptedHolds` | lab/auth_settings.py:115-205 | Whatever validation returns keeps the limits of every part. |
| `AuthSettings.ProviderReadsBack` | lab/auth_settings.py:238-250 | A provider's written form is admitted and read back as it was, its flags left out only when both are off. |
| `AuthSettings.FormReadsBack` | lab/auth_settings.py:238-250 | Settings within their limits are what their written form validates to. |
| `AuthSettings.WrittenSettingsValidateBack` | lab/auth_settings.py:238-250 | For every file validation accepts, its settings written and validated again are the same settings. |
| `AuthSettings.OldShapeExactlyWhenPlain` | lab/auth_settings.py:238-250 | The file has the version 1 shape exactly while no switch or value of version 2 is on. |
| `SignInRevisions.StepKeepsOrder` | lab/auth_settings.py:416-447 | Every step keeps reported revisions at or below those row and file carry, which never go down. |
| `SignInRevisions.LaterSaveStaysPending` | lab/auth_settings.py:329-344 | However many applies run, recording one that reports a revision leaves a row pending for a later save as it is. |
| `SignInRevisions.LaterSaveIsLater` | lab/auth_settings.py:436-448 | A save that begins after an apply looked is given a later revision than it saw. |
| `SignInRevisions.SavedThenApplied` | lab/auth_settings.py:329-448 | From any state with nothing under way: a save gives file and row one new, later revision, and an apply of it ends the row as that apply ended. |
| `SignInRevisions.RowSavedThenApplied` | lab/auth_settings.py:329-448 | The same for an environment without a file. |
| `SignInRevisions.HalfSavedThenApplied` | lab/auth_settings.py:329-448 | A save cut after its file: applying that file settles the row too, with the file's later revision. |
| `SignInRevisions.InvalidFileFailsTheRow` | lab/auth_settings.py:416-447 | A file that is not admitted fails its row and applies nothing. |
| `SignInRevisions.AppliedRowsWereApplied` | lab/auth_settings.py:416-447 | With one apply at a time, started only for a pending row, every reachable applied row was applied with its revision or a later one. |
| `SignInRevisions.SupervisedFromTheStart` | lab/auth_settings.py:416-447 | So it is from an environment nothing was saved for. |
| `SignInRevisions.RecordTellsExactly` | lab/auth_settings.py:329-344 | When one record keeps an applied row at or below its applied revision, for any row and report. |
| `SignInRevisions.StepTellsExactly` | lab/auth_settings.py:329-344 | A step of the system keeps it exactly when it is not the end of an apply that worked, or one that meets a row it tells. |
| `SignInRevisions.RunTellsExactly` | lab/auth_settings.py:416-447 | Over any run, with any number of applies at once, every applied row was applied at every point exactly when each apply that worked met such a row as it ended. |
| `SignInRevisions.OverlappingAppliesUntellIt` | lab/auth_settings.py:339-342 | Two applies at once reach an applied row whose revision is above its applied one. |
| `SignInRevisions.ApplyWithoutARowUntellsIt` | lab/auth_settings.py:432-438 | An apply begun before there was a row marks a later save's row applied. |
| `TlsProxy.Upload.Pull` | deploy/console-tls-proxy.ts:150-160 | A pull passes the next chunk, closes at the end, or fails without passing the chunk that crosses the limit. |
| `TlsProxy.PassesAPrefix` | deploy/console-tls-proxy.ts:146-164 | However long it is read, at most the limit is passed and always a prefix; a closed stream passed all of it, a failed one was over the limit. |
| `TlsProxy.ReadBoundedBody` | deploy/console-tls-proxy.ts:127-174 | None for GET and HEAD, the whole body up to a MiB, a stream from there on, or a refusal that only a body over the limit gets. |
| `TlsProxy.ForwardBody` | deploy/console-tls-proxy.ts:127-174 | From the client's pieces to the console: at most the limit, a prefix, the whole when the body is accepted, and cut or refused exactly over the limit. |
| `TlsProxy.DelaysGrowToASecond` | deploy/console-tls-proxy.ts:210-214 | Waits are 100, 200, 400, 800 and then 1000 ms, each ending inside the window. |
| `TlsProxy.Requests.Arrive` | deploy/console-tls-proxy.ts:236-242 | A request starts with one send and no place among the waiting ones. |
| `TlsProxy.Requests.Failed` | deploy/console-tls-proxy.ts:243-251 | A failed send that may have reached the console is counted; the request waits again exactly when the connection was refused, the body is buffered, the window lasts and there is room; the counter stays the number of waiting requests, within its maximum. |
| `TlsProxy.Requests.Resumed` | deploy/console-tls-proxy.ts:252 | After a wait it is sent once more, or leaves because the client went away. |
| `TlsProxy.Requests.Leave` | deploy/console-tls-proxy.ts:255-257 | Leaving gives its place back exactly once and counts the last send that may have reached the console, of which there is at most one. |
| `TlsProxy.Sockets.Opened` | deploy/console-tls-proxy.ts:300-309 | A socket starts connecting with an empty queue. |
| `TlsProxy.Sockets.UpstreamOpened` | deploy/console-tls-proxy.ts:314-320 | The queue is delivered whole and in order before anything newer, and the place among the waiting ones given back. |
| `TlsProxy.Sockets.Refused` | deploy/console-tls-proxy.ts:322-335 | It waits for another try exactly when its client is there, the connect was refused, the window lasts and there is room. |
| `TlsProxy.Sockets.Retry` | deploy/console-tls-proxy.ts:335 | After the wait it connects again, or is settled because the client left. |
| `TlsProxy.Sockets.Message` | deploy/console-tls-proxy.ts:340-350 | A message is sent at once on an open line, queued behind the others within both bounds before that, else refused; nothing is lost, doubled or reordered, and no other socket changes. |
| `TlsProxy.Sockets.ClientCloses` | deploy/console-tls-proxy.ts:351-354 | Closing only marks the socket. |
| `TlsProxy.AnyRequests` | deploy/console-tls-proxy.ts:229-258 | Over any interleaving each event is served as it comes (an answer ends its request, a refused buffered one waits while there is room, a wait ends in another send); none reaches the console twice, a streamed body is sent once, the waiting ones stay within their number, and none that ended is taken up again. |
| `TlsProxy.AnySockets` | deploy/console-tls-proxy.ts:296-356 | Over any interleaving each event is served as it comes; what was delivered is never taken back or sent again and is a prefix of what was taken, all of it on an open line. |

## Left out

- The move, the takeover, the HBA writers, the settings writes and the sign-in applies are step functions, one effect a
  step, and not methods: a kill or another program may act between any two of their effects.
- Docker, Git, SQL, SQLite and S3 calls: each is a step that succeeds, fails or is cut by a kill. What a program reads
  from them is a parameter.
- The generation migration (`lab/hba_migration.py`) and the moves of the checkout (`lab/upgrade.py`) are the durable states
  their callers test for. A migration child is taken to end with the command that runs it, and the operator not to edit
  the checkout while a command runs.
- SHA-256 is injective, the cipher is a key stream with a tag function, and file contents, messages and bodies are
  sequences; base64, decimal times and text encodings are not modelled.
- Temporary files a killed HBA writer leaves behind, and a container recreated between preparing and applying.
- PostgreSQL's catalogs and name resolution: a schema is its name, a session its settings; the superuser's own steps,
  which pass the guards, are not part of the runs.
- A lone `default` in a list setting, which PostgreSQL takes as a reset and never stores so.
- Exceptions of the supervisor's schedules other than the update channel's: each ends the loop, or (rolling) pauses that
  schedule.
- PostgreSQL's own spelling of a setting's name, a setting or parameter the chosen image does not know, names over 63
  bytes and circular memberships: an inventory read from a cluster holds none of the last two.
- Malformed JSON shapes of an inventory: its fields are typed. `comparable` sorts roles by name; as names are distinct, the
  model compares the set of them.
- The texts of refusals and which field a refusal names first, except in `DataApiSettings`.
- The console's request file, release metadata, notifications, the handover to a new version's console process and the
  published update status.
- Restore cutover, the comparison of Storage's rows with an archive's members (one test per row), the build container and
  phase record of a rebuild, and the S3 request signature.
- `lab/backup.py`: a damaged record counts as none, as in the code; what protects more than the last two moved upgrades during
  an upgrade's own run. In the model a run may take a scope again whose interrupted
  backup it pruned; the code takes each once.
- A kill while Git writes the checkout can leave the move's own code half written, so that no rerun runs
  (`lab/database_move.py` lines 27-29 give the manual way); in the model the command always runs again.
- `PreConfig`: the rows are the same in the three queries of one load. A turn of the supervisor has one clock reading; the
  drain marker's file is not part of its state.
- Small members with nothing to prove beyond their body: connection budgets, admission arithmetic, volume names, leases.
- Supervision.Supervisor.Run: states where children start only while no end of an update child is lost; `UpdateFinished` and
  `ScheduleUpdates` say exactly when one is.
- SignInRevisions.AppliedRowsWereApplied: for the supervisor's own applies; an operator who runs one beside it is outside.
- TenantArchive.Target.Extract: exact for listings as the archive writes them; of any other stream, what one that is taken
  keeps.
- TenantArchive.Target.Place: exact for a new path in a directory that is there and can be searched.
- TlsProxy.Upload.Pull: the client's stream is its chunks; a client that goes away is not a step of it.
