# Verified models of a Matrix homeserver

This project models six parts of the homeserver in Dafny and proves what they guarantee over whole
histories, interleavings and inputs.

* **Room authorization** (`RoomEvents`, `EventAuth`, `AuthSpec`, `AuthExact`, `AuthSelection`, `RoomRuns`,
  `PowerLevelRuns`): the authorization rules of the Matrix room versions 1 to 11, once as the program computes them and once
  as relations that compute nothing, with a proof that the two agree on every event and state; the selection of auth events;
  and what the rules guarantee in every linear history of a room: bans hold until a sufficiently powerful member lifts them,
  invite-only rooms are entered by invitation, no level rises above the highest one, and the auth events that an
  event selects decide exactly as the whole room state would.
* **Rate limiting** (`Ratelimiting`, `LeakyBucket`): the lazily leaking, pruned buckets are proved to answer as an
  ideal bucket that leaks continuously; from that follow the rate bound over every window of time, the exactness of
  the returned time, the neutrality of pruning and the isolation of keys.
* **Application service delivery** (`AppserviceQueues`, `AppserviceDelivery`, `AppserviceRaces`): queues, the single sender, the
  transaction store and the recoverer as a state machine whose steps break at each `await`. In every
  interleaving the events go into transactions with none lost, doubled or reordered, and nothing leaves the store without an
  acknowledgement (a transaction may be sent twice, by its sender and by the recoverer); and there is an exact account
  of the two steps that can leave a transaction behind.
* **SQLite to Postgres porting** (`PortDb`, `PortWaves`): the two-way resumable sweep over one table, through crashes,
  restarts and growth of the source, and the waves in which tables are copied.
* **Notification** (`StreamTokens`, `UserStreams`, `PendingEvents`, `Notifications`): stream tokens,
  the wake-up protocol of waiting clients, the list of events that wait for earlier ones to be persisted, and the two
  indexes of user streams.
* **Visibility** (`Visibility`): which clients see an event, one user at a time and many at once.

Objects that the program updates in place are classes (`Ratelimiter`, `ServiceQueuer`, `PostgresTable`, `UserStream`,
`Notifier`), loops are loops, and each such method is proved against a function or predicate about which the laws are then
proved. Decisions that only compute are functions.

Some results say that a natural expectation does not hold of the code, and when exactly it does:

* The selection of auth events suffices for every event of a room version if and only if the version's
  `knock_restricted` rule comes with its `restricted` rule (`SelectionSufficesExactly`); every known version has that.
  For power-levels events it depends on the state key: it suffices, in every version, if and only if there is none, or it is
  empty, or it begins with `@` and has no `:` (`PowerLevelsKeysExactly`). Under any other key the event is compared
  with one that the selection leaves out (`OtherPowerLevelsKeyWitness`).
* `record_action` raises a bucket's level by what it records if and only if the bucket has not drained below zero
  (`RecordingIsExactUnlessDrained`, `RecordingForgotten`).
* A step leaves an unsent transaction to nobody if and only if it is one of two (`AttendedExactly`): a sender that read DOWN
  stores its transaction after the recoverer has looked at the store for the last time (`TransactionLeftBehind`), or the last
  failure handler finds such a recoverer still registered and starts none (`HandlerLeavesTransactionBehind`). A restart
  attends to what is in the store if and only if the service is DOWN or the store is empty (`RestartAttendsExactly`).
* Rows added at either end of a table between two porting processes are all copied if and only if none of them lies between
  the two sweeps (`GrowthKeepsPortedExactly`, `AppendedRowIsLost`); with positive ids above and negative ids below none does.
* Registering a stream keeps the two indexes in agreement if and only if it displaces no other stream that is in
  a room (`RegisterWithKeys`, `TwoWaitersOfOneUser`).
* The intervals given to a waiting client's callback overlap if and only if a callback on a proper interval was aborted by a
  timeout or a cancellation and another was made after it (`OverlapExactly`, `AbortedCallbackIsRepeated`).
* An erased sender's event disappears for a user exactly in one case, which the check for many users does not look at
  (`ErasureHidesExactly`, `ErasureHidesWitness`); and a laxer history visibility hides an event exactly from a peeking user who
  was invited, under `shared` as against `invited` (`LaxerHidesExactly`, `LaxerHidesWitness`).

`dafny verify dfyconfig.toml` checks the project.

## Model

| member | source | states |
|---|---|---|
| `RoomEvents.KnownVersion` | api/room_versions.py:99-353 | the flags of versions 1 to 11; `knock_restricted` joins come only with `restricted` joins and with knocking |
| `EventAuth.CheckPowerLevels` | event_auth.py:822-941 | accepts a power-levels event exactly when its levels are well-formed and every entry that is added, removed or changed may be moved by its sender |
| `EventAuth.LevelsToCheck` | event_auth.py:876-905 | the list holds exactly the seven top-level keys, every user and event type of either content, and the notifications where the version limits them |
| `EventAuth.CheckStateDependentAuthRules` | event_auth.py:248-339 | the verdict on a list of auth events is the verdict on the state they make up, a later event replacing an earlier one in its slot |
| `AuthExact.RulesExactly` | event_auth.py:248-339 | the program allows an event, and marks a redaction for a recheck, if and only if the relational rules do: for every event type, version and state, with levels read off the entries themselves |
| `AuthExact.EveryEventFollowsTheRules` | event_auth.py:248-339 | in every linear run every event follows those rules: the sender is joined, has the level that the entries ask for, and so on |
| `AuthExact.CreateExactly` | event_auth.py:418-453 | a create event is allowed if and only if it has no previous event, comes from the room's own server, and names a known version and, where needed, a creator |
| `AuthExact.MembershipExactly` | event_auth.py:465-703 | a membership change is allowed if and only if it is the creator's first join, or all levels are readable, the server may take part, and the rule for the new membership holds |
| `AuthExact.SendLevelExactly` | event_auth.py:724-758 | the level to send is the entry for the type, else the default for state or for messages, else 50 for state and 0 for messages |
| `AuthExact.UserLevelExactly` | event_auth.py:948-985 | a user's level is their own entry, else the default, else 0; without power levels 100 for the creator and 0 for others |
| `AuthExact.NamedLevelExactly` | event_auth.py:988-998 | what it takes to invite is the entry, else 0; to kick, ban or redact the entry, else 50 |
| `AuthExact.LevelsExactly` | event_auth.py:822-941 | a power-levels event is allowed if and only if its entries are well-formed and each entry that moves stays within the sender's level before and after |
| `AuthExact.TokenExactly` | event_auth.py:1001-1069 | a third-party invite holds if and only if its sender published the token, it names the user, and it is signed with a key of the token |
| `AuthExact.RedactionExactly` | event_auth.py:784-819 | a redaction is allowed at the redact level, in versions 1 and 2 also on an event of the same server, and elsewhere subject to a recheck |
| `AuthExact.DomainExactly` | event_auth.py:273-274 | the domain of an identifier is what follows its first colon |
| `AuthExact.AuthEventsExactly` | event_auth.py:190-245 | rules 2 and 3 hold if and only if every auth event is a known, unrejected state event of the room, in a selected slot of its own, and one is the create event |
| `AuthExact.SelectionOfMembers` | event_auth.py:1104-1123 | for each membership, the selected slots are exactly those listed |
| `AuthExact.SelectionOfOthers` | event_auth.py:1095-1102 | for any other event the selection is exactly the power levels, the create event and the sender's membership |
| `AuthSelection.AuthTypesForEvent` | event_auth.py:1083-1125 | fails exactly on member events that lack a needed field, and otherwise holds a slot exactly when the declarative selection rule does |
| `AuthSelection.LevelsReadTwoSlots` | event_auth.py:944-998 | level lookups give the same on any two states with the same power-levels and create events |
| `AuthSelection.FactsOfSelection` | event_auth.py:503-536 | on the selected state the membership rules find the same memberships and levels, and for joins and knocks the same join rule |
| `AuthSelection.DecisionOnSelection` | event_auth.py:549-703 | with those facts they decide the same on the selected state as on all of it |
| `AuthSelection.MembershipSelectionSuffices` | event_auth.py:465-703 | every membership event gets the same verdict on the selected state as on all of it |
| `AuthSelection.SelectionSuffices` | event_auth.py:248-339 | so does every event, power-levels events under the state keys named next: selection is sufficient for all state-dependent rules |
| `AuthSelection.SelectionSufficesExactly` | event_auth.py:1113-1123 | a room version makes selection sufficient for all its events and states if and only if `knock_restricted` implies `restricted` |
| `AuthSelection.AuthorisedJoinWitness` | event_auth.py:605-632 | in any other version, an authorised join allowed by the room state and refused by the selected state |
| `AuthSelection.PowerLevelsKeysExactly` | event_auth.py:866-870 | for each version and state key, selection is sufficient for all power-levels events under that key and all states if and only if the key is absent, empty, or begins with `@` and has no `:` |
| `AuthSelection.OtherPowerLevelsKeyWitness` | event_auth.py:866-870 | for every version and every other key, an event refused by a room state and allowed by the selected state |
| `AuthSelection.CheckStateIndependent` | event_auth.py:142-245 | with auth events from the batch or the store, accepts exactly when rules 1 to 3 hold |
| `AuthSelection.CheckAuthEvents` | event_auth.py:190-245 | accepts exactly when all auth events are known, of the room, not rejected, in distinct selected slots, and one is the create event |
| `AuthSelection.WalkAuthEvents` | event_auth.py:193-245 | the same of the walk that fills `auth_dict`, for any set of expected slots |
| `AuthSelection.SelectedAuthEventsPass` | event_auth.py:168-245 | auth events selected from a state of the room's own, unrejected events pass rules 2 and 3 if and only if the state has a create event |
| `AuthSelection.SelectedAuthEventsDecide` | event_auth.py:248-339 | judging an event by the auth events it selected is judging it by the whole room state |
| `RoomRuns.CreateEventStays` | event_auth.py:418-453 | in every linear run the create event stays in the state and no second one is accepted |
| `RoomRuns.ShortcutOnlyForSecondEvent` | event_auth.py:482-492 | the creator's shortcut past the membership rules is open only to the creator and only for the second event |
| `RoomRuns.MovesExactly` | event_auth.py:549-703 | the membership rules allow a change exactly when it is a legal move between memberships: who acts, from which membership, under which join rule, with which levels |
| `RoomRuns.EveryMoveIsLegal` | event_auth.py:465-703 | in every linear run every membership change but the creator's first join was a legal move |
| `RoomRuns.BanStep` | event_auth.py:549-703 | the only step out of a ban leads to leave, sent by another joined user with at least the ban and kick levels and strictly above the target |
| `RoomRuns.BanPersists` | event_auth.py:549-703 | in every linear run a banned user stays banned while no such event is accepted |
| `RoomRuns.LiftedBanWasUnbanned` | event_auth.py:549-703 | whoever was banned and no longer is was unbanned by such an event in between |
| `RoomRuns.TokenWasPublished` | event_auth.py:315-332 | a third-party token in the state was published by a user then joined with invite power |
| `RoomRuns.AcceptedInviteInvites` | event_auth.py:549-599 | an accepted invite comes from a joined user with invite power, or answers such a token of the same sender, naming the invited user and signed with its key |
| `RoomRuns.AcceptedJoinWasAdmitted` | event_auth.py:600-654 | in an invite-only room an accepted join is by someone invited or joined, or is the creator's first |
| `RoomRuns.InviteOnlyRoomsNeedInvites` | event_auth.py:465-703 | in every invite-only run, whoever is invited or joined was let in by an invite or as the creator and has been invited or joined ever since |
| `RoomRuns.JoinedUsersWereInvited` | event_auth.py:465-703 | so each joined user other than the creator has an earlier accepted invite |
| `PowerLevelRuns.BoundedUsers` | event_auth.py:948-985 | a non-negative bound on all entries and the default bounds every user's level |
| `PowerLevelRuns.ReplacementCompared` | event_auth.py:866-941 | an accepted replacement of the levels in force was compared with them at every key |
| `PowerLevelRuns.OnlyCreatorSetsStateAtFirst` | event_auth.py:724-781 | in every linear run, while there are no power levels, every state event other than memberships, aliases and third-party invites is the creator's |
| `PowerLevelRuns.CeilingHolds` | event_auth.py:822-985 | in every linear run such a bound holds for ever after: nobody is raised above it |
| `PowerLevelRuns.EntryStep` | event_auth.py:922-941 | a user's entry survives any event of others whose level does not exceed it |
| `PowerLevelRuns.TopUserKeepsLevel` | event_auth.py:822-985 | a user at the highest level keeps exactly that entry while they replace no power levels themselves |
| `Ratelimiting.Ratelimiter.PruneMessageCounts` | api/ratelimiting.py:242-260 | keeps exactly the buckets whose count exceeds what has leaked since their start |
| `Ratelimiting.Ratelimiter.CanDoAction` | api/ratelimiting.py:100-209 | answers and updates as the value-level step does, with the given rate and burst or else the limiter's own: a fresh key is allowed exactly up to that burst, and an update stores that rate; exempt requesters change nothing |
| `Ratelimiting.Ratelimiter.RecordAction` | api/ratelimiting.py:211-240 | adds to the stored count and changes no other key |
| `LeakyBucket.RepresentsLater` | api/ratelimiting.py:170-178 | a stored bucket that stands for the ideal one still does at any later time |
| `LeakyBucket.PruningKeepsLevels` | api/ratelimiting.py:242-260 | pruning keeps a key's level |
| `LeakyBucket.CountedIsFilled` | api/ratelimiting.py:168-193 | a call is allowed as the ideal bucket allows it, and what it stores stands for the ideal level |
| `LeakyBucket.AnswerRefinesIdeal` | api/ratelimiting.py:164-209 | one call answers as the ideal bucket does, with the same time, whether or not it prunes |
| `LeakyBucket.StepRefinesIdeal` | api/ratelimiting.py:164-193 | after any call, on this key or another at any rate, the key's bucket stands for the ideal one |
| `LeakyBucket.LimiterRefinesIdeal` | api/ratelimiting.py:159-209 | in every schedule in which a key keeps one rate, among any calls on other keys, its bucket stands for the ideal one and every answer is the ideal answer |
| `LeakyBucket.PruningIsNeutral` | api/ratelimiting.py:164-165 | whichever calls prune, the decisions and returned times for a key are the same |
| `LeakyBucket.MarkDependsOnKeyOnly` | api/ratelimiting.py:94-98 | a key's ideal bucket is that of the schedule of its own calls |
| `LeakyBucket.KeysAreIsolated` | api/ratelimiting.py:94-209 | the answer to a call is its answer in the schedule without the calls on other keys |
| `LeakyBucket.TraceIsLimited` | api/ratelimiting.py:170-193 | what was poured into a leaking bucket during a window is at most the burst plus what leaks |
| `LeakyBucket.PermittedIsPoured` | api/ratelimiting.py:184-193 | what the limiter permits in a window is what the ideal bucket takes in |
| `LeakyBucket.RateIsEnforced` | api/ratelimiting.py:159-193 | among any calls on other keys, a key is permitted at most burst + rate * (t2 - t1) actions by updating calls within [t1, t2] |
| `LeakyBucket.RoomFromFreeTime` | api/ratelimiting.py:195-207 | an ideal bucket has room for one action from exactly the computed time on |
| `LeakyBucket.ReturnedTimeIsExact` | api/ratelimiting.py:195-209 | after an updating call, and with no update between, a single action is permitted at a later call if and only if it is not before the returned time |
| `LeakyBucket.RecordingIsExactUnlessDrained` | api/ratelimiting.py:237-240 | recording raises the level by the recorded actions if and only if the bucket has not drained below zero |
| `LeakyBucket.RecordingForgotten` | api/ratelimiting.py:237-240 | an action recorded two seconds after a single one, at one a second, leaves the bucket empty |
| `AppserviceQueues.Consolidate` | appservice/scheduler.py:229-247 | each user is where the last summary mentioning them puts them, and nobody is both changed and left |
| `AppserviceQueues.ServiceQueuer.EnqueueForAppservice` | appservice/scheduler.py:142-166 | appends each kind of data to the service's own queue and changes no other service's, and asks for a sender exactly when something was queued and none is in flight |
| `AppserviceQueues.ServiceQueuer.StartSending` | appservice/scheduler.py:205-258 | puts the service in flight and takes its first batch |
| `AppserviceQueues.ServiceQueuer.TakeBatch` | appservice/scheduler.py:212-258 | batch and rest make up each queue, the batch being as large as it may; ends the sender exactly when there is nothing, and drops the summaries of all services |
| `AppserviceDelivery.TurnKeepsEvents` | appservice/scheduler.py:212-258 | a turn of the sender's loop keeps transactions + batch in hand + queue equal to what was enqueued, with batches of at most 100 |
| `AppserviceDelivery.ArriveKeepsEvents` | appservice/scheduler.py:142-166 | so does the arrival of data, starting a sender where there is none |
| `AppserviceDelivery.CreateKeepsEvents` | appservice/scheduler.py:394-402 | so does storing the batch as a transaction |
| `AppserviceDelivery.StepKeepsNothingLost` | appservice/scheduler.py:198-290 | so does every step of every process; at most one sender is in flight, and nothing waits without one |
| `AppserviceDelivery.StepKeepsStoreSound` | appservice/scheduler.py:388-411 | no step deletes a transaction that was not acknowledged; ids increase and are never reused |
| `AppserviceDelivery.StepKeepsSendersSound` | appservice/scheduler.py:403-408 | a sender completes only what it stored and the service acknowledged |
| `AppserviceDelivery.RecovererMoves` | appservice/scheduler.py:476-518 | a recoverer resends the oldest transaction, completes strictly increasing ids, and backs off by its failures |
| `AppserviceDelivery.StepKeepsRecoverySound` | appservice/scheduler.py:413-443 | every step keeps that, and at most one live recoverer, the registered one |
| `AppserviceDelivery.RunsStaySound` | appservice/scheduler.py:120-518 | all of these hold in every state of every interleaving |
| `AppserviceDelivery.DeletedWasSent` | appservice/scheduler.py:403-408 | in every interleaving, a transaction that left the store had been sent successfully before |
| `AppserviceDelivery.DelaysAreCapped` | appservice/scheduler.py:478-511 | in every interleaving, after k failed retries since a transaction was last completed or the recoverer started, the delay is 2^min(1+k, 9), at most 512 seconds |
| `AppserviceDelivery.DroppedExactly` | appservice/scheduler.py:389-392 | a batch is dropped if and only if the sender read DOWN and it has no events |
| `AppserviceDelivery.BatchIsStored` | appservice/scheduler.py:389-402 | in every interleaving a batch for which the sender read UP, or which has events, is the next to be stored, with all it holds |
| `AppserviceDelivery.AttendedExactly` | appservice/scheduler.py:388-443 | a step leaves an unsent transaction to nobody if and only if a sender that read DOWN stores while nobody will look at the store, or the last failure handler finds registered a recoverer that will not look again while a transaction is delivered by no sender |
| `AppserviceDelivery.QuietMeansDelivered` | appservice/scheduler.py:388-518 | in every interleaving without such a step since all was attended, whenever nothing is running the store is empty |
| `AppserviceDelivery.RestartAttendsExactly` | appservice/scheduler.py:109-118 | after a restart what an earlier process left in the store is attended if and only if the service is DOWN or nothing was left |
| `AppserviceRaces.TransactionLeftBehind` | appservice/scheduler.py:494-499 | an interleaving in which a sender that read DOWN while the recoverer waited for the store has its transaction stored between the store's empty answer and the recoverer's removal, and that ends UP and quiet with that transaction unsent |
| `AppserviceRaces.HandlerLeavesTransactionBehind` | appservice/scheduler.py:423-437 | an interleaving in which the handler of a second failed send finds the emptied recoverer registered, and that ends UP and quiet with an unsent transaction |
| `PortDb.ConversionExactly` | _scripts/synapse_port_db.py:884-897 | each column is stored as it is, a boolean column as whether the value is neither null, zero, false nor empty; a row is dropped if and only if a text in another column holds a NUL |
| `PortDb.TryConvertRow` | _scripts/synapse_port_db.py:884-906 | gives nothing exactly for a row that cannot be stored, and else the row stored column by column in that way |
| `PortDb.ConvertRows` | _scripts/synapse_port_db.py:874-908 | the rows that can be stored, in order, each stored in that way |
| `PortDb.CoveredForward` | _scripts/synapse_port_db.py:452-454 | the forward selection extends the covered rows at their end, and its new position is just past them |
| `PortDb.CoveredBackward` | _scripts/synapse_port_db.py:456-459 | the backward selection extends them at their beginning |
| `PortDb.BatchesExactly` | _scripts/synapse_port_db.py:471-479 | each selection takes as many rows as there are on its side, up to the batch size |
| `PortDb.CommitKeepsPorted` | _scripts/synapse_port_db.py:497-521 | a commit keeps the destination equal, as a multiset, to the conversions of the rows with backward < row id < forward |
| `PortDb.CommitMakesProgress` | _scripts/synapse_port_db.py:464-527 | with a batch size of at least 1 every commit covers rows not covered before |
| `PortDb.SweptMeansComplete` | _scripts/synapse_port_db.py:471-481 | the sweeps find nothing more if and only if every row is covered |
| `PortDb.GrowthKeepsPortedExactly` | _scripts/synapse_port_db.py:450-459 | rows added below and above the table while no process runs keep that equality if and only if none that would be copied lies between the sweeps |
| `PortDb.AppendedRowIsLost` | _scripts/synapse_port_db.py:450-459 | a row appended to a swept table of negative ids, with an id that is not positive, is lost |
| `PortDb.GrowthKeepsSound` | _scripts/synapse_port_db.py:319-346 | rows added above with positive ids, or below with ids that are not, never do harm |
| `PortDb.PortingIsExactlyOnce` | _scripts/synapse_port_db.py:318-527 | in every run with crashes, restarts, truncations and growth at both ends, no row is missing or doubled at any durable state |
| `PortDb.SetupTable` | _scripts/synapse_port_db.py:318-379 | carries on at the durable progress row of an append-only table, and otherwise starts over from nothing at (1, 0) |
| `PortDb.SelectRows` | _scripts/synapse_port_db.py:466-495 | gives both selections although an exhausted sweep is not tried again |
| `PortDb.InsertRows` | _scripts/synapse_port_db.py:497-521 | adds exactly the conversions and moves the progress row past the rows, in one transaction |
| `PortDb.HandleTable` | _scripts/synapse_port_db.py:409-527 | dying after any number of commits it leaves the equality intact; if it finishes, every row is there, except that with a batch size of 0 it returns at once; it finishes within as many commits as there are rows |
| `PortDb.PortThroughCrashes` | _scripts/synapse_port_db.py:318-527 | the same through any series of processes that die early |
| `PortWaves.PortInWaves` | _scripts/synapse_port_db.py:835-861 | terminates with every table ported, wave i being exactly the tables whose dependencies were ported before it |
| `PortWaves.PortedExactlyOnce` | _scripts/synapse_port_db.py:841-861 | each table is ported in exactly one wave, after all tables it depends on |
| `PortWaves.WavesMakeProgress` | _scripts/synapse_port_db.py:838-861 | n waves port at least n tables, or all |
| `PortWaves.NeverEntered` | _scripts/synapse_port_db.py:841-845 | a group of tables each of which waits for the group, or for a table not to be ported, is never ported |
| `PortWaves.WavesTerminateExactly` | _scripts/synapse_port_db.py:838-861 | the loop ends if and only if there is no such group |
| `PortWaves.PortableExactly` | _scripts/synapse_port_db.py:381-407 | that is, if and only if every dependency is itself to be ported and the constraints have no cycle |
| `StreamTokens.AdvancedIsLater` | types/__init__.py:469-488 | advancing a token takes, writer by writer, the later of the two positions |
| `StreamTokens.AfterAdvancedExactly` | types/__init__.py:1013-1020 | a row is after the advanced token if and only if it is after both tokens |
| `StreamTokens.AdvancedExactly` | types/__init__.py:942-970 | an update moves up the position of the stream it is about, to the later of the two, and no other |
| `StreamTokens.AdvancingGoesForward` | types/__init__.py:942-970 | so no update ever moves a stream of a token backwards |
| `StreamTokens.PersistedAfterExactly` | types/__init__.py:1013-1020 | a row is after a token if and only if its writer's own position there, or else the default, is before the row |
| `UserStreams.NotifiedWakesAll` | notifier.py:130-161 | news wakes every pending listener at the token it leads to, and leaves none on an old deferred |
| `UserStreams.StepKeepsWaiterSound` | notifier.py:592-658 | every step keeps pending listeners on the current deferred since the last news, and a sleeping client's token up to date |
| `UserStreams.NothingIsMissed` | notifier.py:568-658 | in every interleaving each interval given to a client's callback starts where the one before it ended, or repeats the start of one that was aborted, from the client's own token on; only the last in the loop can have been |
| `UserStreams.OverlapExactly` | notifier.py:632-657 | the intervals overlap if and only if a callback on a proper interval was aborted and another was made after it |
| `UserStreams.AbortedCallbackIsRepeated` | notifier.py:645-657 | an interleaving in which a callback times out and the last callback starts over from the same token |
| `UserStreams.NobodySleepsThroughNews` | notifier.py:177-190 | a client sleeps only while it has been given everything up to the stream's token, and any news lets it wake up |
| `UserStreams.CallbacksExactly` | notifier.py:622-657 | a callback is made on waking, and once the loop is over if there is no result yet, and always from what the client has seen to where the stream is |
| `UserStreams.ReturnsExactly` | notifier.py:632-658 | a call returns with the first result there is, or once the loop is over with an empty one or with what a last callback gives |
| `PendingEvents.WokenByReleased` | notifier.py:413-426 | the gathered users and rooms concern a user exactly when some released entry does |
| `PendingEvents.JoinedRoomsAre` | notifier.py:413-422 | a user is added to the rooms of exactly the released member events that say that this user joined |
| `PendingEvents.JoinWakes` | notifier.py:417-422 | a user whose join is released is concerned by it, being added to the room first |
| `PendingEvents.PendingExactly` | notifier.py:396-416 | in every sequence of additions and tokens an entry is pending if and only if it was persisted after every token since it came |
| `PendingEvents.ReleasedExactlyOnce` | notifier.py:396-426 | an entry no longer pending left exactly once, at the first token it was not persisted after |
| `PendingEvents.OrderIsKept` | notifier.py:413-415 | pending entries keep their order and none is there twice |
| `PendingEvents.PendingListIsQueue` | notifier.py:369-416 | the notifier's list is that queue, entry by entry |
| `PendingEvents.WokenTokenCoversEvent` | notifier.py:425-432 | the token a client is woken with covers the released event |
| `Notifications.UserStream.Notify` | notifier.py:130-161 | moves up the token of the stream the news is about and of no other, and fires the deferred, waking every pending listener |
| `Notifications.UserStream.NewListener` | notifier.py:177-190 | the new listener is pending exactly when there was no news since its token |
| `Notifications.UserStream.Remove` | notifier.py:163-172 | takes the stream out of both indexes and changes nothing else |
| `Notifications.Notifier.RegisterWithKeys` | notifier.py:797-802 | adds the stream to both indexes; they still agree if and only if no other stream with rooms is displaced |
| `Notifications.TwoWaitersOfOneUser` | notifier.py:580-590 | two requests of one user that both found no stream leave a stream in a room's set that is not registered |
| `Notifications.Notifier.UserJoinedRoom` | notifier.py:804-809 | adds the room to both indexes for a registered user, and keeps them in agreement |
| `Notifications.Notifier.RemoveExpiredStreams` | notifier.py:784-795 | removes exactly the streams without listeners that were last notified more than ten minutes ago, and none with a pending listener |
| `Notifications.Notifier.OnNewEvent` | notifier.py:496-545 | wakes, once each, exactly the registered streams of the users or in one of the rooms |
| `Notifications.Notifier.ReleaseEntries` | notifier.py:405-424 | keeps the entries not yet released, in order, and adds each registered user who joined to the room |
| `Notifications.Notifier.NotifyPendingNewRoomEvents` | notifier.py:396-432 | wakes exactly the streams that some released entry concerns, among them those of the users whose join is released |
| `Visibility.GetStateMap` | visibility.py:252-274 | under every key asked for it holds what the state right after the event holds |
| `Visibility.StateAfterExactly` | visibility.py:258-274 | that is the event itself in its own slot, and in every other the stored event that was there before |
| `Visibility.NotDenied` | visibility.py:190-211 | leaves exactly the users from whom the event is not withheld: no dummy or alias event, no message of an ignored sender, none older than the room keeps |
| `Visibility.FilterByState` | visibility.py:224-249 | with narrow fetches and an early exit, keeps exactly the users who see the event by the whole state |
| `Visibility.FilterEventForClientsWithState` | visibility.py:151-249 | a user is in the result exactly when asked for, the event is not soft-failed, and the check for that user alone shows the event; nothing withheld is shown |
| `Visibility.WithheldExactly` | visibility.py:482-519 | withheld events are hidden from everybody, and on all others ignoring, retention and event type have no influence |
| `Visibility.ShownExactly` | visibility.py:277-387 | who sees an event in full, pruned or not at all, read off the contents of the event, of the one it replaced and of the state |
| `Visibility.SeesExactly` | visibility.py:151-249 | the same for the check of many users |
| `Visibility.HistoryExactly` | visibility.py:527-571 | the lax check passes if and only if the visibility in force, or for a change of it the one before, is world readable or shared with users who do not peek |
| `Visibility.MembershipCheckExactly` | visibility.py:397-471 | the membership check passes for those joined, for invited ones under invited visibility, for one's own departure, and where everybody sees |
| `Visibility.MissingStateExactly` | visibility.py:333-347 | without the state the check fails exactly where it comes to need it |
| `Visibility.ErasureHidesExactly` | visibility.py:353-375 | erasing the sender hides an event from a user if and only if it is a history visibility event seen by the former visibility alone, and never shows one |
| `Visibility.ErasureHidesWitness` | visibility.py:359-375 | a change from shared to joined, seen by a user outside the room unless its sender is erased |
| `Visibility.ErasedContentExactly` | visibility.py:377-387 | of an erased sender's events a user sees in full exactly those from when they were joined, out-of-band ones and always included ones |
| `Visibility.LaxerHidesExactly` | visibility.py:441-471 | a laxer visibility hides what a stricter one shows if and only if a peeking user was invited, under shared as against invited |
| `Visibility.LaxerHidesWitness` | visibility.py:448-467 | a message that a peeking, invited user sees under invited and not under shared |

## Left out

- The return value of `check_redaction`: the model keeps the flag for a later recheck that it sets.
- Contents in which `users`, `events` or `notifications` is not a mapping, and member events without a membership in the room state, on which the program raises.
- The cryptography of third-party invites: an invite carries the set of public keys under which its signed block verifies.
- Event size limits, signatures and the checks made before the authorization rules.
- State resolution and histories that are not linear.
- Floating-point rounding in the rate limiter, which is modelled over the reals; deriving a key from a requester; the pause before a refusal.
- Rate-limited calls that are processed out of the order of their times, which `ratelimit` takes before it awaits the user's override.
- LeakyBucket.LimiterRefinesIdeal: speaks of `can_do_action` only, since `record_action` does not commute with pruning.
- Objects for the transaction controller and the recoverer: they are steps on values, for one service at a time. Other services appear by what they do to it: they drop its pending summaries and take transaction ids.
- Delivery with store failures or failing key counts. A store operation takes effect in one step, together with what its caller does up to its next `await`; only the recoverer's removal after an empty answer and the start of a recoverer after a DOWN write are steps of their own.
- AppserviceDelivery.RunsStaySound: conserves persistent events only, since the program itself drops batches without any while a service is down (`DroppedExactly`).
- The tables `event_search`, `sent_transactions`, `user_directory_stream_pos` and those ignored, sequences, and the CASCADE of a truncation into other tables.
- Rows that appear between existing row ids, and purges of rows from append-only tables between two processes, after which the destination keeps the purged rows.
- A failing table among the concurrent ones of a wave, which ends the program.
- Historical (topological) tokens, which cannot be advanced, and the unused groups stream.
- News between the moment a new stream's token is read and its registration, after its user's rooms have been fetched: it does not reach the stream, so a client whose own token equals the one read sleeps through it.
- The expiry of a stream while its client's callback is running, after which the client listens to a stream no longer registered.
- Exceptions raised while a stream is notified, which the program logs, and replication, pushers and federation.
- The list wrapper `filter_events_for_client`, which reads one room's retention policy for all events, and the filters for other servers.
- Visibility.FilterEventForClientsWithState: reads the clock once for all users, and member events without a state key count as nobody's.
- Parsing, configuration, HTTP, metrics and logging, and components that only wrap others.
