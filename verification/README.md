# Aviron, verified

Aviron is a typing race: a Go backend runs one actor per race, a gateway relays the
actor's broadcasts to web sockets, two Kafka consumers write to Postgres, and a browser
front end decides when a word is done. This project models that logic in Dafny and proves
what a race promises its players, for every list of events, every interleaving and every
failure of a collaborator.

Check it with `dafny verify dfyconfig.toml`.

## What is where

| file | what it holds |
|---|---|
| `RoomModel.dfy` | the race as a value: participants, events, effects, one step, whole runs |
| `RoomActor.dfy` | the actor as a class whose methods update its fields, proved to take exactly those steps |
| `RoomRanks.dfy` | ranks are distinct and bounded; every result list is fair |
| `RoomLifecycle.dfy` | one terminal write, notices after writes, no orphaned room |
| `RoomHistory.dfy` | conservation, finish records, times, telemetry, departures |
| `RoomEffects.dfy` | what each turn tells the world, and when it ends the room, exactly |
| `RoomResults.dfy` | every result handed over, told from the events of the run alone |
| `Delivery.dfy` | channel, drain, bus, hub and writers as steps in any interleaving |
| `DeliveryLosses.dfy` | where frames are lost on that way, exactly, and nowhere else |
| `Relay.dfy` | the same loops as methods of a class, each turn proved to be such a step |
| `EndToEnd.dfy` | the actor and the pipeline together |
| `Store.dfy`, `Leaderboard.dfy` | the tables, their transactions, and the leaderboard against recomputation |
| `RaceFinishedConsumer.dfy`, `SampleConsumer.dfy` | the two Kafka consumers |
| `Capacity.dfy` | overlapping joins and leaves against the cap of ten |
| `CapacityAnswers.dfy` | what each answer to a join or leave means |
| `Typing.dfy` | prompt, typing box, and the typist's place in the race |
| `TypingHistory.dfy` | pace, input and error mark, told from the keys pressed |
| `Gateway.dfy`, `Paging.dfy` | routing cache, round robin, leaderboard pages |
| `Shared.dfy`, `Options.dfy` | identifiers and race states; an option type |
| `Collections.dfy`, `Sums.dfy` | sets and maps; sums over maps |

## How to read the model

* **World as input.** A turn of the actor comes with an `Env`: the clock reading, whether
  each collaborator call succeeds, whether each channel has room. The database calls come
  with a `Fault` saying which statement fails, the consumers with scripts of what the
  reader, the clock and the database answer. Theorems hold for all of them.
* **Map iteration.** What iterating a Go map yields is a `Choice`; the class produces one
  that some iteration order allows (`HonestRun`), and theorems hold for every such choice,
  so nothing depends on how ties are ordered.
* **Traces.** Calls to collaborators and broadcasts are recorded in order in a trace.
* **Class and value.** Where the program updates fields in place, a class does too, and
  each method's contract ties its new state to a function of the old one. The laws are
  lemmas about those functions.
* **Seconds and floats.** Only the order of events and clock readings are kept. Pace is a
  real number. Go's integer width appears where it can matter: the 64-bit round-robin
  counter and the leaderboard's page offset.

## Where the code differs from its documentation, or surprises

* `README.md:53-55` reads as if one racer's finish closed the race and settled everybody's
  result. In the code a race goes on while anybody live is unranked
  (`backend/internal/room/room.go:529-533`). The model follows the code:
  `RoomHistory.FirstFinishIsNotTheEnd` is such a race, and `RoomLifecycle.ReleaseEndsIff`
  states exactly when a finish ends one.
* A removed room's owner may be served again (`backend/internal/wsgateway/gateway.go:159-170`):
  the registry is asked outside the lock. `Gateway.RemovedRoomServedIff` says exactly when.
* An unreadable sample's offset is committed ahead of samples still pending
  (`backend/internal/consumer/workout_sample_loop.go:74-86`), exactly as
  `SampleConsumer.OvertakenIff` says.
* `backend/internal/race/prompt.go:9-12` promises exactly `wordCount` words. That holds if
  and only if no generated word holds a space (`Typing.PromptRoundTrip`), and a prompt can
  be typed to the end if and only if none is empty (`Typing.TypingTheTextCompletes`).
* `backend/internal/leaderboard/service.go:60-63` bounds page numbers from below only. Very
  large ones wrap their offset, and may fail or show rows again (`Paging.PagesPastTheEnd`).
* `backend/internal/room/registry.go:254-256` only logs a lost `room_closed`. The gateway's
  hub and writers then never end of their own accord (`Delivery.StrandedIff`,
  `Delivery.WindsDownIff`).
* Pages of the leaderboard are separate queries whose order leaves ties open
  (`backend/internal/postgres/leaderboard_repository.go:46-54`); `Paging.PagesFitIff` says
  exactly when they still show everybody once.
* `backend/internal/race/race.go:50-54` caps a race at ten players. Under overlapping joins
  the cap can be passed, by exactly one less than the number of joins between count and
  insert (`Capacity.CapacityHolds`, `Capacity.CapacityIsReached`).

## Model

| member | source | states |
|---|---|---|
| `Actor.RoomActor.constructor` | backend/internal/room/room.go:130-158 | a new actor is the empty, pending, unfinished race |
| `Actor.RoomActor.RankedRows` | backend/internal/room/room.go:662-680 | a snapshot lists every live participant once, most words first, ranked from 1 without gaps |
| `Actor.RoomActor.StablePlace` | backend/internal/room/room.go:668-670 | in a descending list the place found has everyone with at least as many words before it and only fewer after it |
| `Actor.RoomActor.AllResults` | backend/internal/room/room.go:545-551 | one result for each live participant, then one for each departed one, in some order |
| `Actor.RoomActor.SomeoneStillRacing` | backend/internal/room/room.go:529-533 | true exactly when some live participant has no rank |
| `Actor.RoomActor.CheckRaceFinished` | backend/internal/room/room.go:525-553 | waits, expires or finishes exactly as the value model's check does, with results some map order yields |
| `Actor.RoomActor.DepartParticipant` | backend/internal/room/room.go:495-508 | moves the record to the departed ones, marks the eviction whatever the recorder answers, then runs the finish check |
| `Actor.RoomActor.ApplyEvent` | backend/internal/room/room.go:273-424 | for every event and every failure, the in-place update is exactly one step of the value model, and its broadcasts and results are ones map iteration allows |
| `Actor.RoomActor.Loop` | backend/internal/room/room.go:256-271 | any series of picked events and ticks is a run of the value model |
| `RoomModel.RunPeople` | backend/internal/room/room.go:273-424 | over a whole run, what becomes of the participants never depends on the effects, the persistence outcomes or whether the room has finished |
| `RoomRanks.SlotAfter` | backend/internal/room/room.go:327-340 | after an event every ranked record either came from one record with that same rank or holds the single next rank |
| `RoomRanks.AdvanceKeepsRanks` | backend/internal/room/room.go:273-424 | no event makes two ranks equal, leaves 1..finishedCount, or lets finishers plus unfinished records outgrow the head count |
| `RoomRanks.RanksAlwaysSound` | backend/internal/room/room.go:327-340 | so for every event list, even with evicted users rejoining |
| `RoomRanks.ResultsFair` | backend/internal/room/room.go:567-588 | in any listing, ranks lie in 1..n, finishers' ranks are distinct and strictly better than non-finishers', all of whom have n, and at most one entry has rank 1 |
| `RoomRanks.EveryFinishFair` | backend/internal/room/room.go:545-606 | every result list handed to the database in any run is fair in that sense, with n no more than the head count |
| `RoomLifecycle.StepKeepsPersist` | backend/internal/room/room.go:460-468 | no event can add a second successful terminal write or a notice without its write, and a finished room stays finished |
| `RoomLifecycle.OneTerminalWrite` | backend/internal/room/room.go:595-642 | in every run at most one of all FinishRace and CancelRace calls succeeds, the room is finished and cancelled exactly if one did, and each race_finished or race_expired follows its write and carries its results |
| `RoomLifecycle.EveryPublishFollows` | backend/internal/room/room.go:606-620 | in every run each published result list is the one whose write succeeded immediately before |
| `RoomLifecycle.NoticesAreTrue` | backend/internal/room/room.go:622-635 | in every run each race_finished or race_expired comes after the successful write of its kind, and its entries carry user, rank, time and pace of the results written |
| `RoomLifecycle.RacingAfter` | backend/internal/room/room.go:310-400 | unranked live participants rise by one on a new join only, and drop by one exactly on a crossing, leave or honoured eviction of one of them |
| `RoomLifecycle.ReleaseEndsIff` | backend/internal/room/room.go:525-553 | a finish, leave or eviction ends an unfinished room if and only if nobody else is still racing and the write succeeds |
| `RoomLifecycle.RacersBalance` | backend/internal/room/room.go:293-302 | over a run, joins counted equal those still racing plus those released |
| `RoomLifecycle.NoOrphanedRoom` | backend/internal/room/room.go:407-423 | with working persistence every reachable room is finished, or has a racer, or nobody ever joined and the no-show timer has not fired |
| `RoomLifecycle.EveryRaceEnds` | backend/internal/room/room.go:525-553 | with working persistence the race has ended once everyone who joined has been released |
| `RoomHistory.PartedIff` | backend/internal/room/room.go:276-302 | live and departed stay disjoint, with evicted equal to the departed, if and only if the event is no join by an evicted user |
| `RoomHistory.Conservation` | backend/internal/room/room.go:293-302 | if nobody evicted rejoins: head count equals live plus departed plus pending withdrawals, and every rank up to finishedCount is still held |
| `RoomHistory.ResultUsersDistinct` | backend/internal/room/room.go:545-551 | then no result list names a user twice |
| `RoomHistory.ResultUsersAll` | backend/internal/room/room.go:545-551 | a result list names exactly the live and the departed |
| `RoomHistory.FinishIsForGood` | backend/internal/room/room.go:276-302 | for every run and every user on record with a finish, that rank is still on record at the end if and only if the user has not been given a new seat since, that is, joined while not live; then the time is unchanged too |
| `RoomHistory.GuardKeepsFinishes` | backend/internal/wsgateway/endpoint.go:122-130 | if no evicted user joins, as the handshake check ensures, nobody with a finish is ever given a new seat |
| `RoomHistory.RejoinLosesFinish` | backend/internal/room/room.go:276-302 | a run without that check in which a winner who leaves, rejoins and leaves again has lost the finish |
| `RoomHistory.FirstFinishIsNotTheEnd` | backend/internal/room/room.go:525-533 | a run of two in which the first has finished and the other races on: whatever the collaborators answer, the room is open and has handed nothing to the database |
| `RoomHistory.PairTimes` | backend/internal/room/room.go:573-577 | a finish time is reported exactly for those ranked, is never negative, and does not decrease in rank |
| `RoomHistory.FinishesInOrder` | backend/internal/room/room.go:335-339 | under a clock that never runs back, finish times lie between start and now and do not decrease in rank |
| `RoomHistory.TimesFollowRanks` | backend/internal/room/room.go:573-577 | reported times are non-negative and a better-ranked finisher never has a longer one |
| `RoomHistory.EveryFinishTrue` | backend/internal/room/room.go:545-606 | every result list handed to the database in such a run has distinct users and times in the order of ranks |
| `RoomHistory.LatestTelemetryWins` | backend/internal/room/room.go:310-320 | a participant live throughout an active run shows the message with the greatest number delivered, or is unchanged if none was newer |
| `RoomHistory.TelemetryConverges` | backend/internal/room/room.go:310-320 | if no sequence number is reused with another payload, two runs that deliver the same messages to someone who stays live and active, however reordered, repeated or mixed with others' events, leave the same progress |
| `RoomHistory.MarksAgree` | backend/internal/room/room.go:282-291 | someone live is marked disconnected, with a timer pending, exactly when their latest join or disconnect was a disconnect |
| `RoomHistory.LostSince` | backend/internal/room/room.go:342-349 | and the mark bears the time of that disconnect |
| `RoomHistory.GoesOnlyThen` | backend/internal/room/room.go:360-400 | someone live goes exactly upon their leave or an eviction that finds them disconnected; evicted only grows, and never by a pending withdrawal |
| `RoomHistory.SeatIsKept` | backend/internal/room/room.go:275-302 | whoever is not removed keeps seat, name, count and finish over any run and never falls back in sequence number |
| `RoomHistory.BrokenConnectionsLeaveNoTrace` | backend/internal/room/room.go:276-369 | for someone who is never removed, taking every disconnect, reconnect and ineffective eviction of theirs out of a run leaves the end of it the same for everyone, but for that one's own disconnection marks and count |
| `RoomEffects.TurnEndsIff` | backend/internal/room/room.go:407-421 | for every event, a turn ends an unfinished room if and only if its write succeeds and either the event is one that reaches the finish check and nobody is left racing after it, or it is the pending timer and the race has not started |
| `RoomEffects.CancelsIff` | backend/internal/room/room.go:460-468 | a cancellation is asked for, and the race said to have expired, exactly in a turn that would end the room while the race has not started, the latter only if the write succeeds |
| `RoomEffects.FinishesIff` | backend/internal/room/room.go:595-635 | results are handed over exactly in a turn that finds nobody racing once the race has started, and published and announced exactly if that write succeeds |
| `RoomEffects.EndsAsItStands` | backend/internal/room/room.go:414-421 | in every run, cancellations and expiries come only in turns that leave the race not started, and results only in turns that leave it started |
| `RoomEffects.ActiveIff` | backend/internal/room/room.go:411-413 | a race has started exactly if it was ever activated |
| `RoomEffects.SaidOnce` | backend/internal/room/room.go:595-635 | no turn says anything twice, and a finish is asked for right after the last standings were shown |
| `RoomEffects.MarksIff` | backend/internal/room/room.go:495-508 | an eviction is recorded exactly for somebody who goes in that turn, unless they withdraw before the start |
| `RoomEffects.LeavesIff` | backend/internal/room/room.go:370-399 | the participant row is given up exactly for somebody who withdraws before the start |
| `RoomEffects.SamplesIff` | backend/internal/room/room.go:310-326 | a sample is published exactly when telemetry raises somebody's sequence number, with the progress it takes them to |
| `RoomEffects.SnapshotsIff` | backend/internal/room/room.go:661-693 | standings are shown exactly upon a join, a tick or a finish |
| `RoomEffects.SnapshotsNumbered` | backend/internal/room/room.go:672-673 | in every run the standings shown are numbered 1, 2, 3 and so on |
| `RoomEffects.EvictedIff` | backend/internal/room/room.go:360-400 | evicted are exactly those who at some time left the started race or were removed by an eviction |
| `RoomEffects.RepliesTrue` | backend/internal/room/room.go:401-406 | in every run a question about an eviction is answered by whether that user had gone for good before it |
| `RoomResults.RunIsTrue` | backend/internal/room/room.go:276-349 | after any events, the finish count is the number of crossings, the head count the number of seats taken, and each live participant shows the latest telemetry, the disconnections and the crossing of their own seat |
| `RoomResults.DepartedAsGone` | backend/internal/room/room.go:495-508 | and each departed one is as they were at their last departure |
| `RoomResults.EveryResultTrue` | backend/internal/room/room.go:545-588 | in every run, each result handed to the database has the pace of the accepted telemetry with the greatest number on its user's seat, or 0; the number of disconnections on it; the rank and the whole milliseconds of the crossing on it, or no time and the number of seats taken as rank |
| `Delivery.PipeAlways` | backend/internal/room/registry.go:223-262 | in every interleaving the channel, the bus, the hub and each connection hold consistent parts of the broadcast order |
| `Delivery.WrittenInOrder` | backend/internal/wsgateway/racehub.go:75-149 | what a socket has been sent is always an order-preserving subsequence of what the actor broadcast |
| `Delivery.EverythingDelivered` | backend/internal/wsgateway/endpoint.go:314-344 | a connection never cut or overrun, ended by its room, was sent every published frame from its registration on; if no publish failed these are all drained frames, which include all enqueued before the cancellation |
| `Delivery.RoomClosedOnce` | backend/internal/room/registry.go:240-259 | room_closed is published at most once, nothing follows it, and without publish failures it is there exactly when the drain is over |
| `Delivery.SomethingCanMove` | backend/internal/wsgateway/endpoint.go:314-344 | once the room is cancelled, whatever frames were lost, some failure-free move is possible until drain, hub and writers have all ended, unless the pipeline is stranded: drain over, hub open, and no room_closed published |
| `Delivery.MovesWindDown` | backend/internal/wsgateway/racehub.go:75-149 | and each such move strictly decreases one measure, so no schedule of them is endless |
| `Delivery.WindsDownIff` | backend/internal/room/registry.go:240-261 | from a reachable point after the cancellation the end of every loop can be reached by failure-free moves if and only if the pipeline is not stranded |
| `Delivery.StrandedIff` | backend/internal/room/registry.go:253-257 | a reachable pipeline is stranded if and only if its publish of room_closed failed and nothing else has stopped the hub |
| `Delivery.StrandedRun` | backend/internal/room/registry.go:253-257 | a run that ends in that failed publish, with a connected writer that can never end by itself |
| `Delivery.LastFrameArrives` | backend/internal/room/registry.go:240-259 | if no publish failed, the last frame accepted before the cancellation reaches every clean connection that registered before it |
| `DeliveryLosses.OverrunIff` | backend/internal/wsgateway/racehub.go:16-97 | in every interleaving a connection has lost a frame at the hub if and only if the hub took one while the connection was registered and eight were already waiting for it; more than eight never wait |
| `DeliveryLosses.HoldsWhatIsServed` | backend/internal/wsgateway/racehub.go:90-97 | what a connection has been sent and what waits for it are exactly the frames taken while it was registered with room left, in order; if a write failed, just that frame is missing |
| `DeliveryLosses.NothingLost` | backend/internal/wsgateway/endpoint.go:314-344 | a connection never cut, no write to which failed, for which eight frames never waited when another came, and whose room closed the hub, has been sent every published frame but those fanned out before it registered |
| `DeliveryLosses.CutIff` | backend/internal/wsgateway/endpoint.go:314-344 | a connection is cut if and only if its context was cancelled or a write to it failed |
| `DeliveryLosses.RegisteredIff` | backend/internal/wsgateway/racehub.go:171-176 | the hub knows a connection if and only if it registered while the hub was open and has not unregistered since |
| `DeliveryLosses.OpenIff` | backend/internal/wsgateway/racehub.go:75-149 | the hub is open until it is stopped, loses the bus, or takes room_closed |
| `DeliveryLosses.LossyIff` | backend/internal/room/registry.go:223-262 | a frame or room_closed is missing on the bus if and only if its publish failed |
| `DeliveryLosses.ChannelLosesIff` | backend/internal/room/room.go:687-692 | all broadcasts enter the actor's channel if and only if none came while sixteen were waiting in it |
| `DeliveryLosses.DrainedByTheEnd` | backend/internal/room/registry.go:240-261 | whatever the channel had accepted by the cancellation has been drained when the drain is over |
| `Relay.Pipeline.DrainBroadcast` | backend/internal/room/registry.go:223-262 | a turn of the drain publishes the oldest buffered frame, sees the end, or, once it has and nothing is left, publishes room_closed and is over |
| `Relay.Pipeline.FanOut` | backend/internal/wsgateway/racehub.go:90-98 | in whatever order connections are visited, each registered one gets the frame or, if full, loses it, and no other changes |
| `Relay.Pipeline.TakeEnvelope` | backend/internal/wsgateway/racehub.go:83-118 | the next envelope is fanned out, or closes the hub |
| `Relay.Pipeline.WriteLoop` | backend/internal/wsgateway/endpoint.go:314-344 | a turn of the writer writes its oldest frame, ends on a failed write or a cut, or drains and ends after the hub has closed |
| `Relay.Pipeline.RegisterConn` | backend/internal/wsgateway/racehub.go:171-176 | a new connection is known to an open hub, and to no other |
| `Relay.Schedule` | backend/internal/wsgateway/endpoint.go:164-201 | any schedule of turns of all loops, of any length, takes the mutable pipeline exactly where its moves take the step system |
| `Relay.MovesOf` | backend/internal/wsgateway/endpoint.go:164-201 | the moves of a schedule are always possible one after the other |
| `Relay.EveryRunIsScheduled` | backend/internal/wsgateway/endpoint.go:164-201 | and every run of the step system is the moves of some schedule |
| `EndToEnd.AlwaysInStep` | backend/internal/room/room.go:633-641 | in every joint run of actor and pipeline, where the channel alone decides which broadcasts it has room for, the pipeline is fed just the accepted broadcasts, and is cancelled by the turn that finished the room |
| `EndToEnd.OutcomeReachesEveryone` | backend/internal/room/room.go:631-641 | in every joint run, if the notice found room in the channel and no publish failed, each clean connection that registered before it is sent the notice of exactly what was persisted |
| `EndToEnd.SomeoneIsTold` | backend/internal/room/room.go:460-468 | a joint run that meets those conditions: a room nobody joins expires, and a watching connection is told |
| `Store.Database.FinishRace` | backend/internal/postgres/race_repository.go:227-289 | races, rows and leaderboard all change as the statements say, or at any failing statement none does |
| `Store.Database.ReconcileParticipantResults` | backend/internal/postgres/race_repository.go:301-322 | fills rows still without a rank, all or nothing |
| `Store.Database.CancelRace` | backend/internal/postgres/race_repository.go:330-338 | changes a pending race's status or nothing |
| `Store.RaceEndsAs` | backend/internal/postgres/race_repository.go:234-236 | over any series of committed FinishRace and CancelRace calls, for any races: a race that one of them finished has finished as of the last that did; one that none did is cancelled exactly if it was pending and one cancelled it, as of the first that did; any other is as it was |
| `Store.FinishedRowIs` | backend/internal/postgres/race_repository.go:240-247 | afterwards each row of the race has rank, time, pace and disconnect count of the last result listed for its user, and every other row is untouched |
| `Store.ReconciledRowIs` | backend/internal/postgres/race_repository.go:308-316 | a reconcile gives each unranked row of the race rank, time and pace of the first result that ranks its user, or else of the last that names them, and touches no disconnect count and no other row |
| `Store.ReconcileAfterFinish` | backend/internal/postgres/race_repository.go:308-316 | a reconcile after FinishRace changes nothing if and only if no user with a row is listed first with a rank and last without one |
| `Store.SteadyResults` | backend/internal/postgres/race_repository.go:308-316 | which holds for results that are all ranked, or name each user once |
| `Store.ReconcileTwice` | backend/internal/postgres/race_repository.go:308-316 | reconciling twice equals reconciling once, for all rows and results |
| `Store.FinishAfterReconcile` | backend/internal/postgres/race_repository.go:240-247 | FinishRace after a reconcile of the same results leaves what FinishRace alone leaves, whatever the results |
| `Leaderboard.UpsertRecomputes` | backend/internal/postgres/race_repository.go:255-282 | one upsert takes a board equal to recomputation over a history to the one for the longer history |
| `Leaderboard.BoardIsRecomputed` | backend/internal/postgres/race_repository.go:255-282 | after any series of commits each user's races, wins, distance and pace sum equal counts and sums over that user's results, and the best time is their null-aware minimum |
| `Leaderboard.FinishMany` | backend/internal/postgres/race_repository.go:227-289 | after any series of calls, failing anywhere, the board is that of the committed ones |
| `Leaderboard.OrderIsIrrelevant` | backend/internal/postgres/race_repository.go:265-282 | the same races committed in any order give the same leaderboard |
| `Leaderboard.WinsConserved` | backend/internal/postgres/race_repository.go:255-258 | the sum of everyone's wins grows by exactly the number of rank-1 results |
| `Leaderboard.OneWinPerRace` | backend/internal/room/room.go:567-588 | for any list that some room's run hands over, everyone's wins together grow by one if somebody in it has rank 1, and otherwise not at all |
| `Leaderboard.WinsAreRacesWon` | backend/internal/postgres/race_repository.go:227-289 | if every list comes from some room's run, then after any series of calls, failing anywhere, all wins on the board are as many as the committed races that had a winner, and so no more than the committed races |
| `RaceFinishedConsumer.Consumer.ProcessRaceFinishedMessage` | backend/internal/consumer/race_finished_loop.go:42-87 | reconciles and commits; dead-letters and commits what is unreadable or refused for good; on a transient failure changes and commits nothing |
| `RaceFinishedConsumer.Consumer.RunRaceFinishedLoop` | backend/internal/consumer/race_finished_loop.go:21-36 | over any series of deliveries the rows and acts are those of the deliveries in order |
| `RaceFinishedConsumer.CommitsAreSettled` | backend/internal/consumer/race_finished_loop.go:56-86 | over any deliveries the offsets committed are exactly, in order, those of messages unreadable, permanently refused, or whose reconcile took effect, and dead-lettered are exactly the unreadable and the refused |
| `RaceFinishedConsumer.DeadLettersCommit` | backend/internal/consumer/race_finished_loop.go:56-78 | every dead letter is followed at once by the commit of its offset |
| `RaceFinishedConsumer.NothingDroppedUnseen` | backend/internal/consumer/race_finished_loop.go:79-86 | a message committed and never dead-lettered could be read, and some delivery of it reconciled the rows |
| `RaceFinishedConsumer.UncommittedChangesNothing` | backend/internal/consumer/race_finished_loop.go:79-81 | a delivery that commits nothing was refused for the moment and changes no row |
| `RaceFinishedConsumer.LateDeliveriesHarmless` | backend/internal/consumer/race_finished_loop.go:55-86 | after the finish any number of deliveries changes nothing if and only if none of them applies, or no user with a row is listed first with a rank and last without one |
| `RaceFinishedConsumer.ManyDeliveriesAreOne` | backend/internal/consumer/race_finished_loop.go:55-86 | any number of deliveries does what one does, if any of them succeeds, and nothing otherwise |
| `RaceFinishedConsumer.EarlyDeliveriesHarmless` | backend/internal/consumer/race_finished_loop.go:55-86 | deliveries before the finish leave no trace once it is done |
| `RaceFinishedConsumer.PublishedIsPersisted` | backend/internal/room/room.go:606-620 | what an actor publishes in any run is what it has just persisted, and every result in it has a rank |
| `RaceFinishedConsumer.DeliveriesOfTheActor` | backend/internal/consumer/race_finished_loop.go:55-86 | however often the actor's message is delivered before and after its write, the rows end as that write leaves them |
| `SampleConsumer.SampleBatch.Add` | backend/internal/consumer/batch.go:22-28 | appends sample and message together, and opens the window on the first |
| `SampleConsumer.SampleBatch.ShouldFlush` | backend/internal/consumer/batch.go:30-35 | due exactly when non-empty and full or old enough |
| `SampleConsumer.Consumer.Flush` | backend/internal/consumer/workout_sample_loop.go:111-140 | written: commit and empty; refused for good: dead-letter each message in order, commit and empty; transient: keep everything |
| `SampleConsumer.Consumer.RunWorkoutSampleLoop` | backend/internal/consumer/workout_sample_loop.go:35-104 | any series of polls, cancellations and outcomes runs as the turn-by-turn model says, and nothing after the loop has stopped |
| `SampleConsumer.StoppedIff` | backend/internal/consumer/workout_sample_loop.go:41-97 | the loop has stopped exactly if some turn began cancelled or had its fetch interrupted; no failing fetch or write stops it |
| `SampleConsumer.SamplesConserved` | backend/internal/consumer/workout_sample_loop.go:35-140 | in every run the readable messages committed, then those pending, are the readable ones fetched, in order; what was written or refused, then the batch, is what they decode to; exactly the unreadable ones and those refused are dead-lettered |
| `SampleConsumer.CommittedOnce` | backend/internal/consumer/workout_sample_loop.go:111-140 | every message fetched is committed or pending, and no message more often than it was fetched |
| `SampleConsumer.CommitsAreEarned` | backend/internal/consumer/workout_sample_loop.go:119-137 | every commit follows at once the insert of exactly its messages' samples, or the refusal and dead-lettering of each of them, or the dead-lettering of its one unreadable message |
| `SampleConsumer.ShutdownLosesNothing` | backend/internal/consumer/workout_sample_loop.go:41-44 | the stopping turn leaves everything fetched committed if and only if nothing was pending or its write did not fail transiently |
| `SampleConsumer.NothingOverdue` | backend/internal/consumer/batch.go:30-35 | a turn that gets to its flush check and does not fail transiently leaves no batch whose first message was added a flush interval or longer before |
| `SampleConsumer.WritesAreDue` | backend/internal/consumer/workout_sample_loop.go:100-104 | a turn writes what is waiting, all of it at once, if and only if something is and the turn stops the loop, or gets to its flush check with two hundred samples waiting or the first of them added three seconds before or more |
| `SampleConsumer.FillsIff` | backend/internal/consumer/workout_sample_loop.go:100-140 | a turn takes a batch below the flush size to it if and only if it adds the sample that fills it and that write fails transiently |
| `SampleConsumer.BatchStaysSmall` | backend/internal/consumer/workout_sample_loop.go:100-140 | so over any run the batch stays below the flush size after every turn if and only if no turn does that |
| `SampleConsumer.BatchGrows` | backend/internal/consumer/workout_sample_loop.go:100-140 | and for every n some run holds n pending samples |
| `SampleConsumer.OvertakenIff` | backend/internal/consumer/workout_sample_loop.go:74-86 | with ascending offsets, after any run a committed offset lies above one still pending if and only if an unreadable message was taken, and so committed at once, while that batch was pending |
| `SampleConsumer.OvertakingRun` | backend/internal/consumer/workout_sample_loop.go:74-86 | two turns that do so |
| `Capacity.RaceService.JoinRace` | backend/internal/race/service.go:66-97 | run alone, for every failure, answer and rows are those of the join's four database calls in order |
| `Capacity.RaceService.LeaveRace` | backend/internal/race/service.go:119-128 | run alone, answer and rows are those of its two calls |
| `Capacity.RaceService.AddParticipant` | backend/internal/postgres/race_repository.go:77-92 | adds the row, or reports that it exists already, or fails and leaves the rows |
| `Capacity.JoinAddsIff` | backend/internal/race/service.go:66-97 | run alone, a join adds its row, and no other, if and only if the race is pending, the user not yet in it, the race not full, and every database call succeeds |
| `CapacityAnswers.JoinAnswers` | backend/internal/race/service.go:66-97 | run alone, a join gives each answer under exactly one condition on status, rows, the cap of ten and the five outcomes, and a token means that the user has a row |
| `CapacityAnswers.AnswersMeanWhatTheySay` | backend/internal/race/service.go:59-97 | in every interleaving an answer is true of the race: a token's user has a row then, which was there before or added after the race was found pending, later the user absent, and later still fewer than ten rows; a full race holds ten; an already joined user was absent at the join's own check |
| `CapacityAnswers.RowsMove` | backend/internal/race/service.go:92-128 | a row comes with the insert of one of its user's joins, goes with a removal by one of their leaves, and stays in every other step |
| `CapacityAnswers.LeaveAnswers` | backend/internal/race/service.go:119-128 | run alone, a leave gives each answer under exactly one condition, and exactly upon success the user's row is gone, and no other |
| `CapacityAnswers.LeavesMeanWhatTheySay` | backend/internal/race/service.go:119-128 | and so at the step that ends a leave in every interleaving |
| `Capacity.CapacityHolds` | backend/internal/race/service.go:84-94 | in any interleaving with joins, leaves and status changes, if at most k joins are ever between count and insert, rows plus those joins stay within MaxParticipants - 1 + k |
| `Capacity.SerialNeverOverfills` | backend/internal/race/service.go:84-94 | one open join at a time never exceeds MaxParticipants |
| `Capacity.CapacityIsReached` | backend/internal/race/service.go:84-94 | for every k some run with at most k such joins ends with MaxParticipants - 1 + k rows |
| `Typing.GeneratePromptText` | backend/internal/race/prompt.go:13-19 | the prompt is the join of the generated words in the order generated |
| `Typing.PromptRoundTrip` | backend/internal/race/prompt.go:9-19 | splitting the joined prompt gives the words back, and gives as many, if and only if no word holds a space; it gives one piece more per space held |
| `Typing.TypingBox.constructor` | frontend/src/components/race-screen/TypingBox.tsx:41-53 | a mounted box has nothing typed or sent |
| `Typing.TypingBox.HandleChange` | frontend/src/components/race-screen/TypingBox.tsx:113-138 | keeps a value that is a prefix of the word, drops any other, and completes only the last word |
| `Typing.TypingBox.HandleKeyDown` | frontend/src/components/race-screen/TypingBox.tsx:140-187 | only a space after the whole non-empty word completes it; wrong letters and all spaces are kept from the browser |
| `Typing.Pace` | frontend/src/components/race-screen/TypingBox.tsx:130-133 | the reported pace is the whole number nearest to the exact words per minute, halves upwards, and 0 when no time has passed |
| `Typing.AlwaysTidy` | frontend/src/components/race-screen/TypingBox.tsx:109-187 | for any keys and pastes the input is a prefix of the current word, and message k has number k and reports min(k, distance) words |
| `TypingHistory.PaceSinceFirstWord` | frontend/src/components/race-screen/TypingBox.tsx:130-133 | for any keys, each message reports the pace of all words so far over the time from the completion of the first word to its own |
| `TypingHistory.SentAreFinished` | frontend/src/components/race-screen/TypingBox.tsx:113-187 | as many messages are sent as keys completed a word: a space upon a whole non-empty word, or a change that makes the whole last word |
| `TypingHistory.InputIsLatest` | frontend/src/components/race-screen/TypingBox.tsx:113-138 | the input is the latest change kept since the last word was completed, and empty if there was none |
| `TypingHistory.ErrorIff` | frontend/src/components/race-screen/TypingBox.tsx:140-165 | the error mark is on if and only if the latest of letters, backspaces and completed words was a wrong letter |
| `TypingHistory.PreventedIff` | frontend/src/components/race-screen/TypingBox.tsx:113-153 | a letter is kept from the browser if and only if the change it would make would be dropped |
| `Typing.SplitPrefix` | frontend/src/components/race-screen/TypingBox.tsx:42 | the split of a part of the text is the split of the whole cut inside one word, and differs from it if the part is proper |
| `Typing.TypingAlong` | frontend/src/components/race-screen/TypingBox.tsx:113-187 | typing any first part of the text leaves the box at the word and letter where it ends; only the whole text completes every word |
| `Typing.EmptyWordBlocks` | frontend/src/components/race-screen/TypingBox.tsx:167-173 | no keys get past an empty word |
| `Typing.TypingTheTextCompletes` | frontend/src/components/race-screen/TypingBox.tsx:113-187 | typing the text exactly completes every word if and only if no word is empty |
| `Typing.RankedOnTime` | backend/internal/room/room.go:310-340 | fed in order and mixed with anything others do, a player who stays is ranked exactly from message number target on |
| `Typing.TypistIsRankedOnTime` | frontend/src/components/race-screen/TypingBox.tsx:130-136 | whatever the prompt and whatever is done in the box, that player is ranked exactly once as many messages have arrived as the race is long |
| `Typing.TypingThePromptFinishesTheRace` | backend/internal/race/prompt.go:9-19 | typing a prompt of non-empty, space-free words sends one message a word, and the player is ranked at the last of them and not before |
| `Gateway.Router.CheckCache` | backend/internal/wsgateway/gateway.go:152-157 | a request is done with the unexpired instance of its race, or goes on to ask the registry |
| `Gateway.Router.TakeAnswer` | backend/internal/wsgateway/gateway.go:159-165 | a failed lookup or an absent owner ends the request; an owner is held until it is stored |
| `Gateway.Router.StoreOwner` | backend/internal/wsgateway/gateway.go:167-170 | the owner that the request holds is stored, whatever has happened since, and answered |
| `Gateway.Router.ResolveTarget` | backend/internal/wsgateway/gateway.go:151-171 | these three with nothing in between: answers the vouched-for instance without a lookup; otherwise passes on failure or absence, or stores and answers the owner |
| `Gateway.Router.WatchRoomEvents` | backend/internal/wsgateway/gateway.go:190-208 | the events announced are handled in order, each created one as a store and each removed one as a deletion |
| `Gateway.Router.NextBackend` | backend/internal/wsgateway/gateway.go:177-184 | an empty pool is an error and uses up no turn; otherwise the backend of the current count, which then advances modulo 2^64 |
| `Gateway.ServedIffVouched` | backend/internal/wsgateway/gateway.go:151-157 | for any order of cache writes, an instance is served if and only if the latest write about the race stored it less than the time to live ago |
| `Gateway.CacheIsItsWrites` | backend/internal/wsgateway/gateway.go:151-208 | in any interleaving of checks, answers, stores and events, the cache is what the stores and deletions made it, so that this holds of what any request is served |
| `Gateway.ServedIffNamed` | backend/internal/wsgateway/gateway.go:151-208 | so in any interleaving an instance is served if and only if the latest step about the race, a created or removed event or the store of a request's answer, named that instance less than the time to live ago |
| `Gateway.RemovedRoomServedIff` | backend/internal/wsgateway/gateway.go:159-170 | a removed room that neither an event nor a lookup has named since is served if and only if a request whose lookup was answered before the removal has stored its answer after, the last such store less than the time to live ago |
| `Gateway.StaleOwnerServed` | backend/internal/wsgateway/gateway.go:159-170 | a run of four steps in which that happens |
| `Gateway.ServesTheClaimer` | backend/internal/wsgateway/gateway.go:151-171 | with one claimer per race the cache names that claimer or nothing |
| `Gateway.EvenWithoutWrap` | backend/internal/wsgateway/gateway.go:182-183 | as long as the counter does not wrap, any run of successive calls picks no backend of an unchanged pool two times more than another |
| `Gateway.EvenAlwaysIff` | backend/internal/wsgateway/gateway.go:182-183 | over every window, wraps included, if and only if the pool size divides 2^64 |
| `Paging.GetTop` | backend/internal/leaderboard/service.go:54-88 | unknown windows and failing queries are reported; page and offset are those of the model, the page count comes from the count query, and the ranked rows from the other |
| `Paging.AnswerInFull` | backend/internal/leaderboard/service.go:54-88 | every window but two is refused; the query fails if it is down or the 64-bit offset is negative; otherwise the page carries its window and number, announces the least number of fives, one at least, that hold the counted rows, and shows the five entries from its offset on with their places |
| `Paging.PagesCoverTheRanking` | backend/internal/leaderboard/service.go:60-85 | whatever the count query says, the first n pages give the whole ranking, ranks 1 to total, if and only if n is at least as many pages as the rows fill, or there are none |
| `Paging.PagesBelow` | backend/internal/leaderboard/service.go:60-63 | page numbers below 1 are page 1 |
| `Paging.PagesPastTheEnd` | backend/internal/leaderboard/service.go:60-63 | for every page number past the last that an int holds: the query fails if and only if 5(page - 1) modulo 2^64 is 2^63 or more, and no rows come back if and only if 5(page - 1), less 2^64 or 2^65, is not an index of the listing |
| `Paging.WrappedPageShowsRows` | backend/internal/leaderboard/service.go:63 | a page number past the last whose offset wraps to 4, so that it shows the fifth and sixth entries again |
| `Paging.PagesFitIff` | backend/internal/postgres/leaderboard_repository.go:46-54 | all pages, each from a query free to order ties afresh, are sure to show every entry exactly once if and only if no two entries tie across the end of a page |
| `Paging.TieShowsTwice` | backend/internal/postgres/leaderboard_repository.go:46-54 | for any page end that a tie reaches across, allowed answers of the query whose pages do not |
| `Paging.SeparateQueriesAgree` | backend/internal/postgres/leaderboard_repository.go:46-54 | they are sure to continue the ranking the first page began if and only if no entry past the first page ties with the one before it |

## Left out

- Participant records as pointers: `ParticipantState` is a value in the actor's maps, so that two maps holding the same pointer is not modelled; the actor never reads a record through both.
- The actor's timers and wall-clock durations: the grace, no-show and pending timers are the events they send, which may come at any time and any number of times.
- `RoomActor.Send` and `IsEvicted` blocking on a full inbox: the loop takes any series of events, including ones applied after the cancellation.
- Goroutines as running code: each method of `Relay.Pipeline` is one turn of a loop's select, so that any interleaving can be scheduled; a loop is not one method, and the channels between the loops are sequences.
- `RaceHubRegistry` and its reference counts: the hub is stopped early only when no connection is registered with it; the count itself does not check identity (backend/internal/wsgateway/racehub.go:260-264) and can stop a hub in use.
- `SpawnRoom`, `Registry.Get`, `cleanupWhenDone`, heartbeats and the locator's claims: bookkeeping around the actor.
- The read side of a connection: what clients send is the actor's arbitrary event list; a read error is a cut.
- NATS, Redis, Kafka and Postgres themselves: the bus is an ordered channel whose publishes may fail, a transaction is all or nothing with any statement failing, and a commit whose outcome is unknown is not modelled.
- JSON encoding, and marshalling errors such as a NaN pace.
- `StartRace`'s update, which has no pending guard: status is set freely in the capacity model, and no monotone status is claimed.
- `CreateRace` as a call: the capacity model starts when the race row exists and the creator's row is still to be inserted, unchecked.
- Validation of names and distances, session tokens, password handling and HTTP handlers: they add no state.
- Outcomes of offset commits and dead-letter publishes: the program only logs them, so the traces record attempts.
- Flush latency in wall-clock time.
- Delivery.EverythingDelivered: says nothing of a connection that was overrun or cut, whose frames the code drops; which frames those are is `DeliveryLosses.HoldsWhatIsServed`.
- EndToEnd.OutcomeReachesEveryone: assumes that the notice found room in the actor's channel, since the code drops it otherwise (backend/internal/room/room.go:633-638).
- Typing.Pace: the division is exact, where JavaScript divides in floating point.
- Typing.TypingTheTextCompletes: keys are pressed one after the other with a render in between; the browser inserts a character that was not prevented at the end of the input. Pastes, deletions and any other changes are covered by `Typing.AlwaysTidy`.
- Characters are compared one by one; UTF-16 surrogates, rendering, scrolling and sound are not part of this model.
- `GetMyStats` and its rounding, the weekly window's aggregate query, and `extractRaceID`: each is one expression over its arguments, with nothing to relate it to.
