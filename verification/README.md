# Verified model of the distributed platform game

A Dafny model of the state machines that carry the guarantees of the four-player networked game:
the simulation tick, client prediction and reconciliation, the lead controller and visual smoothing,
failure detection, election and host migration, the lobby's slots, crash and return, replication by
events, the host's input cache, agent perception and stale-action control, and remote smoothing.

`dafny verify dfyconfig.toml` checks the whole project.

## How it is laid out

Code that changes things step by step is a class whose methods reach the state a specification
function describes; the properties are lemmas about those functions over arbitrary inputs and runs.

- `Simulation` says what each phase of a tick computes; `GameEngineModel.GameEngine` computes it in
  loops. `Movement` and `Contacts` say what that means: where players go, who dies and who comes back. `Participants`, `Progress`, `PowerUpRace`, `Confinement` and `Replication` are about ticks and runs,
  `NewRun` and `Succession` about a new run and a new host.
- `Prediction`, `Absorption`, `ClientLoopModel` and `VisualSmoothing` are the client's side of synchronisation.
- `Election` is one node's coordinator. `ElectionTiming` is the first migration as a timed protocol,
  `ElectionLimits` finds the exact delay it tolerates, `ElectionOfNodes` shows that the nodes of
  `NodeState` take exactly those steps.
- `NodeState` and `GameNodeModel.GameNode` are a node's membership state: election, promotion,
  following, eviction, re-entry. `Migration` proves what every life of a node keeps, `Hearing` what a
  host knows of a player's inputs and when it drops it for silence, `Rejoin` that a crashed player gets
  its slot and character back and from when on it is heard. `Roster` and `Lobby` hold the slots,
  `HostInputs` the inputs.
- `FailureDetector`, `AgentActions`, `Sight` and `ShadowCopyModel` stand alone.

Clocks are parameters, floats are reals, Python's insertion-ordered dictionaries are sequences with
distinct ids, and the iteration order of a set is a parameter.

## What the proofs found

- "At most one host" holds exactly when arming spread, frame gap and claim latency add up to at most
  one stagger step of 0.3 s (`SafeExactlyWhenStaggered`, for a positive frame gap, with
  acknowledgements and announcements possibly late or lost). Beyond it a survivor that already
  follows another claimer keeps its own pending acknowledgements and still promotes at its deadline.
- A snapshot older than the history, possible after a migration resets the filter, makes the client
  lose ticks; the exact condition is whether the history reaches back to it
  (`SnapshotKeepsInStepExactly`, `MigrationCanLoseATick`), and step is found again exactly at the
  snapshot that reaches the old number, finds only new entries, or has the history dropped
  (`StepIsFoundAgainExactly`). An `InitialStateSync` keeps the
  client in step exactly when its history is empty (`SyncKeepsInStepExactly`).
- Reconciling with an older snapshot first is not always the same as reconciling with the newer one
  alone, because the first replay can break a block or move a gate for good
  (`OlderReplayCanBreakABlock`). When the newer snapshot leaves nothing live to replay they agree
  exactly when a guard that can be read off before the call holds
  (`NewerSnapshotAbsorbsOlder`, `EnvironmentSurvivesExactly`).
- A host promoted while somebody waits to respawn does not know that player's join index: it comes
  back under index 0 (`JoinIndicesSurviveExactly`, `WaitingPlayerLosesItsIndex`).
- Evicting a player who waits to respawn leaves the timer running, and it comes back without a roster
  entry (`EvictionLeavesAllListedExactly`, `LivingStayListedExactly`, `EvictedWaiterComesBackUnlisted`).
- A listed player that restarts at a new address is ignored until its input numbers pass the old ones:
  the host goes on using the old input (`MovedPlayerIsHeardExactly`, `RestartedPlayerIsIgnored`). If
  they do not pass within ten seconds it is dropped for silence and has to return once more
  (`IgnoredPlayerIsDropped`).
- The host records inputs of players it does not list, and a return does not clear them. One input that
  arrives after the eviction makes the returned player go unheard up to that number
  (`CrashAndReturn`, `StragglerSilencesTheReturn`).
- A peer given up at the claim deadline has its character back in the world exactly when the last
  snapshot shows it, because the snapshot is restored after the eviction
  (`SilentCharacterReturnsExactly`, `SilentCharacterIsBack`).
- A player evicted while dead keeps its slot reserved only if it was already waiting to return
  (`ReservationIsKeptExactly`, `DeadPlayerLosesItsSlot`).
- The lobby's capacity test also refuses a returning player that is still listed, whom joining would
  accept (`NotFullMeansAccepted`, `ListedReturnerIsRefused`).
- Only the first migration is followed: a node follows the first announcement of its life, unless it
  is host by then, and keeps that address for ever (`FirstAnnouncementDecides`,
  `SecondMigrationIsNotFollowed`).
- `host.py` defines `_check_for_rejoining_players` twice; the second definition is the one modelled.

## Model

| member | source | states |
|---|---|---|
| GameEngineModel.GameEngine.Tick | src/distributed_smb/domain/game_engine.py:76-106 | the step-by-step tick, with all its loops over players, blocks, power-ups, enemies, gates and timers, reaches exactly the state of the composed phases; after victory only the sequence number moves |
| GameEngineModel.GameEngine.HandleBlockCollisions | src/distributed_smb/domain/game_engine.py:125-132 | each player meets the blocks in order, sees those already broken, breaks one only from below, and is pushed out |
| GameEngineModel.GameEngine.HandlePowerUpCollisions | src/distributed_smb/domain/game_engine.py:192-214 | exactly the free power-ups that somebody touches are taken, each by the toucher with the least join index (first on ties), and exactly the winners of stars get the effect |
| GameEngineModel.GameEngine.FindWinner | src/distributed_smb/domain/game_engine.py:196-206 | -1 exactly when nobody touches the box; otherwise the toucher with the least join index, every earlier toucher having a larger one |
| PowerUpRace.CollectedByTheLeast | src/distributed_smb/domain/game_engine.py:192-214 | the same for all power-ups of a tick, told from the players as they were when the phase began |
| PowerUpRace.PowerUpsGoToTheLeast | src/distributed_smb/domain/game_engine.py:192-214 | the power-up phase of a host takes exactly the free power-ups that somebody touches, each for the toucher with the least join index |
| PowerUpRace.WinnerIsLeast | src/distributed_smb/domain/game_engine.py:196-206 | the running minimum finds the least join index, first on ties |
| GameEngineModel.GameEngine.HandleEnemyCollisions | src/distributed_smb/domain/game_engine.py:325-340 | one enemy after the other meets the players alive when its pass begins, and in the end no enemy that is left touches a player that is left |
| GameEngineModel.GameEngine.MeetEnemy | src/distributed_smb/domain/game_engine.py:328-340 | a pass does what `Contacts.Meets` says: the enemy is gone exactly if an overlapping player prevails, exactly the overlapping players listed before the first that does die, and that one lives and bounces |
| Contacts.ContactIsMeeting | src/distributed_smb/domain/game_engine.py:308-340 | to prevail is to hold an unexpired star or to fall with the feet at most 4 px below the head of the enemy when the tick began; the dead are reported with the id of the enemy, keep their join index and wait three seconds, and nobody else is touched |
| Contacts.ContactsArePasses | src/distributed_smb/domain/game_engine.py:325-340 | all contacts of a tick are one such pass for every enemy, in order, none left out |
| Contacts.NoContactIsLeft | src/distributed_smb/domain/game_engine.py:325-340 | after the contacts no remaining enemy overlaps a living player |
| GameEngineModel.GameEngine.HandleVoidDeaths | src/distributed_smb/domain/game_engine.py:342-349 | exactly the players whose feet are below the lower border die, of the void |
| Contacts.FallsExactly | src/distributed_smb/domain/game_engine.py:342-349 | the same for any list of players, with reports, saved join indices and timers |
| GameEngineModel.GameEngine.ProcessRespawns | src/distributed_smb/domain/game_engine.py:358-367 | exactly the players with a due timer are back, fresh, at the spawn point of their saved join index, and their timers and saved indices are gone |
| Contacts.ReturnsExactly | src/distributed_smb/domain/game_engine.py:351-367 | the same for any list of timers |
| GameEngineModel.GameEngine.ResetForNewRun | src/distributed_smb/domain/game_engine.py:251-263 | the level is reloaded, living players go to their spawn points, timers and saved indices are gone, one event is emitted |
| Contacts.ResetStartsOver | src/distributed_smb/domain/game_engine.py:251-263 | a reset puts every living player at rest at its spawn point and the level back as loaded, and forgets progress, victory and timers |
| Entities.ResolveCollision | src/distributed_smb/domain/collisions.py:10-54 | a handler that acts leaves no overlap; one that does not act changes nothing |
| Movement.CollidesExactly | src/distributed_smb/domain/collisions.py:1-8 | two rectangles of positive size collide exactly when a point is inside both |
| Movement.PushedBackTheShortestWay | src/distributed_smb/domain/collisions.py:10-54 | a player that overlaps a box moves, if at all, against its own motion until it touches the box, by the shortest of the four ways out, and it does move when the only shortest way leads against its motion |
| Movement.FreeTick | src/distributed_smb/domain/game_engine.py:83-147 | a predicted tick takes a player exactly where its input says, left before right, jumping only from the ground, gravity before position, when nothing is in the way there |
| Movement.BreaksFromBelow | src/distributed_smb/domain/game_engine.py:125-132 | a player breaks a block only from below, and the first intact block it overlaps exactly then |
| Movement.SomebodyWasBelow | src/distributed_smb/domain/game_engine.py:265-277 | whatever breaks in a tick was under some player whose head was below its lower edge, within 4 px |
| Participants.TickConservesParticipants | src/distributed_smb/domain/game_engine.py:317-367 | alive and respawn-waiting ids partition a constant set, join indices are kept through death and respawn, a player dies at most once per tick and only if alive |
| Participants.RunConservesParticipants | src/distributed_smb/domain/game_engine.py:76-106 | the same over any run of ticks, with at most one death per player and tick |
| Participants.MembersAreFunctional | src/distributed_smb/domain/game_engine.py:317-323 | a participant has one join index and is either alive or waiting, never both |
| Participants.ResetForgetsTheWaiting | src/distributed_smb/domain/game_engine.py:251-263 | the engine's own reset keeps the living and drops exactly those waiting to respawn |
| NewRun.ReplayLobbyPhase | src/distributed_smb/application/lobby/coordinator.py:90-97 | a new run resets the level and rebuilds the characters from the roster |
| NewRun.RebuildWorldFromRoster | src/distributed_smb/application/lobby/coordinator.py:302-321 | the characters become those of the roster in order, and every other participant counts as just heard |
| NewRun.NewRunSeatsTheRoster | src/distributed_smb/application/lobby/coordinator.py:90-97 | after reset and rebuild the participants are exactly the roster's under their join indices, fresh at their spawn points, and nobody waits |
| Succession.JoinIndicesSurviveExactly | src/distributed_smb/domain/game_engine.py:317-367 | in every run after a promotion the living of the snapshot keep their join indices and everybody who was waiting takes part under index 0; a participant keeps its own exactly when it was alive or had index 0 |
| Succession.WaitingPlayerLosesItsIndex | src/distributed_smb/domain/game_engine.py:362-367 | a concrete host whose second player is dead: the node promoted from its snapshot brings that player back under index 0 and not 1 |
| Succession.LivingStayListedExactly | src/distributed_smb/domain/game_engine.py:358-367 | every living character stays in the roster through all runs exactly when those waiting to respawn are in it as well, on a host that knows their join indices and on one promoted from a snapshot that does not |
| Succession.EvictionLeavesAllListedExactly | src/distributed_smb/application/gameplay/events.py:39-51 | an eviction keeps everybody living or waiting listed exactly when the evicted player was not waiting to respawn |
| Succession.EvictedWaiterComesBackUnlisted | src/distributed_smb/application/gameplay/events.py:39-51 | a concrete host with everybody listed that evicts a waiting player, whose timer then brings back a character that is in no roster |
| Progress.TickAdvances | src/distributed_smb/domain/game_engine.py:83-106 | counters never fall and equal the environment after a live tick, nothing is consumed twice, each gate is open exactly when its requirements are met and so never closes |
| Progress.RunAdvances | src/distributed_smb/domain/game_engine.py:149-249 | the same over any run without a level reset |
| Progress.GatesOpenExactly | src/distributed_smb/domain/game_engine.py:149-249 | after a live tick a gate is open exactly when the coins collected, the blocks broken and the enemies missing in the world reach what it asks for |
| Confinement.RunConfines | src/distributed_smb/domain/game_engine.py:134-147 | in every run that has had a live tick all living players are inside the world's sides and top, and enemies never leave their patrol range |
| Confinement.TickConfines | src/distributed_smb/domain/game_engine.py:279-303 | one tick does that whatever the players' speed, the agents' commands and the length of the step |
| Confinement.EnemiesWalk | src/distributed_smb/domain/game_engine.py:279-303 | every enemy left after a live tick has walked as far as its command says, or on as before without one, up to the end of its range where it turns |
| Progress.RunSplits | src/distributed_smb/domain/game_engine.py:76-106 | a run is the run of its first part followed by the run of the rest, so the results hold between any two points |
| Progress.VictoryFreezes | src/distributed_smb/domain/game_engine.py:83-86 | victory is permanent and freezes everything but the sequence number |
| Progress.VictoryExactly | src/distributed_smb/domain/game_engine.py:235-249 | victory is declared exactly when a player touches an open final gate, and names such a player |
| Replication.DrainGameEvents | src/distributed_smb/application/gameplay/events.py:77-118 | polling until empty applies every message, in order; exactly the characters are left that no death and no departure of somebody else has taken out, as they were or back at their spawn points after a reset |
| Replication.PlayersAfterQueue | src/distributed_smb/application/gameplay/events.py:99-118 | the same for any queue, told without the messages one by one |
| Replication.HostRunReproduced | src/distributed_smb/domain/game_engine.py:192-263 | every step of an authoritative run, ticks and resets, keeps a replica that receives the mapped messages in step |
| Replication.EventsReproduceTheEnvironment | src/distributed_smb/application/gameplay/mapper.py:17-29 | replaying the messages of any authoritative run gives the host's blocks, power-ups with owners and gate states, every environmental message changed something, and the characters left are exactly the first ones minus those that died |
| Prediction.InputHistoryBuffer.Push | src/distributed_smb/application/reconciliation/prediction_engine.py:38-52 | the buffer holds the newest entries up to its capacity |
| Prediction.InputHistoryBuffer.Acknowledge | src/distributed_smb/application/reconciliation/prediction_engine.py:54-59 | exactly the leading entries up to the acknowledged number are dropped |
| Prediction.PredictionEngine.Reconcile | src/distributed_smb/application/reconciliation/prediction_engine.py:85-140 | the world becomes the replay of the kept entries from the snapshot's characters and enemies with the local blocks, power-ups and gates |
| Prediction.PredictionEngine.ReplayPending | src/distributed_smb/application/reconciliation/prediction_engine.py:209-211 | the loop over pending entries is the fold of the tick |
| Prediction.PredictionKeepsAligned | src/distributed_smb/application/reconciliation/prediction_engine.py:81-83 | predicting keeps the history equal to the last consecutive inputs the capacity allows |
| Prediction.ReconcileReplaysTheLog | src/distributed_smb/application/reconciliation/prediction_engine.py:85-140 | for a snapshot at h, the replay covers exactly inputs h+1 to c and the client keeps its number, unless the history is dropped, which happens exactly when one of those inputs was lost |
| Prediction.LostExactlyWhenOrphaned | src/distributed_smb/application/reconciliation/prediction_engine.py:98-108 | the clear branch fires exactly when an unacknowledged input has left the buffer |
| Prediction.KeptIsTheLog | src/distributed_smb/application/reconciliation/prediction_engine.py:54-62 | the entries kept are the inputs after the snapshot, none skipped, and stay aligned |
| Prediction.ReplayIsCompleteExactly | src/distributed_smb/application/gameplay/client.py:231-234 | for a snapshot of any age, no tick is lost exactly when the history reaches back to it |
| ClientLoopModel.AgreeingSnapshotIsInvisible | src/distributed_smb/application/reconciliation/prediction_engine.py:85-140 | a client that predicted some ticks since the number of a snapshot that agrees with what it had there, in an unchanged environment, is left exactly where it is, wall-clock expiry aside |
| ClientLoopModel.ReplayRepeatsThePrediction | src/distributed_smb/application/reconciliation/prediction_engine.py:209-211 | replaying the entries that any predicted ticks recorded, from where these began, ends where they ended: every tick is replayed with its own input |
| ClientLoopModel.SnapshotPredictsAgain | src/distributed_smb/application/reconciliation/prediction_engine.py:85-140 | an accepted snapshot leaves the client where one would be that starts at it with the local environment and predicts the kept inputs again, each in turn |
| ClientLoopModel.PredictionMovesThePlayer | src/distributed_smb/application/gameplay/client.py:304-318 | a predicted tick moves the local player as the predicted input says, where nothing is in the way |
| Absorption.NewerSnapshotAbsorbsOlder | src/distributed_smb/application/reconciliation/prediction_engine.py:85-140 | an older and then a newer snapshot leave the history of the newer alone; with nothing live to replay after the newer one the worlds agree exactly when the first replay leaves the environment alone; with live ticks to replay they agree whenever the first replay bumps no block, and only if the newer replay breaks every block the first one broke |
| Absorption.EnvironmentSurvivesExactly | src/distributed_smb/application/reconciliation/prediction_engine.py:124-140 | a client's replay leaves blocks and gates alone exactly when nothing is pending, the game is won, or every gate agrees with the counters and no pending tick bumps an unbroken block |
| Absorption.OlderReplayCanBreakABlock | src/distributed_smb/application/reconciliation/prediction_engine.py:132-140 | a concrete pair of snapshots where handling the older one first leaves a block broken |
| Prediction.ClientTicksAlike | src/distributed_smb/domain/game_engine.py:170-190 | a client's tick depends on the clock only through the star effect's expiry field |
| ClientLoopModel.ClientLoop.RunPredictedTicks | src/distributed_smb/application/gameplay/client.py:304-318 | a frame runs one tick plus the pending correction, clears it, and records each input before its tick |
| ClientLoopModel.ClientLoop.DrainSnapshotPackets | src/distributed_smb/application/gameplay/client.py:408-442 | snapshots with a higher number than the last accepted one are reconciled in order, and an announcement takes effect where it arrives among them |
| ClientLoopModel.ClientLoop.OnReconnectionAck | src/distributed_smb/application/gameplay/client.py:211-237 | the first new host resets the filter, realigns the environment and restarts the calibration; later ones change nothing |
| ClientLoopModel.ClientLoop.DrainGameEvents | src/distributed_smb/application/gameplay/events.py:77-135 | the host's events change the world and announcements are followed, in the order they are polled |
| ClientLoopModel.ClientLoop.ProcessFrame | src/distributed_smb/application/gameplay/client.py:51-70 | a frame is its lobby messages, its ticks, its packets and its game events, in this order and with the effect of each on engine, history and filter; the lead stays bounded through all of them, and a client in step stays so if its history reaches back to every snapshot that arrives and is empty when a world for a rejoining player does |
| ClientLoopModel.ClientLoop.AdjustPredictionLead | src/distributed_smb/application/gameplay/client.py:320-353 | calibration, then a correction of at most one tick outside the tolerance band |
| ClientLoopModel.ClientLoop.ApplyInitialStateSync | src/distributed_smb/application/gameplay/client.py:286-298 | the world and the filter are replaced, the history is not |
| ClientLoopModel.SyncKeepsInStepExactly | src/distributed_smb/application/gameplay/client.py:292-294 | a client in step is in step afterwards exactly when it had nothing predicted |
| ClientLoopModel.SyncAfterAnInputIsOutOfStep | src/distributed_smb/application/gameplay/client.py:292-294 | one predicted input is enough to lose step |
| ClientLoopModel.SyncIsTheNewestSnapshot | src/distributed_smb/application/gameplay/client.py:286-298 | the world sent replaces the local one, and snapshots are accepted exactly from the next number on |
| ClientLoopModel.RunKeepsInStep | src/distributed_smb/application/gameplay/client.py:304-318 | over any run of ticks, snapshots, announcements, host events and worlds for a rejoining player that the history suits, it is exactly the consecutive inputs after the last accepted snapshot that the capacity allows |
| ClientLoopModel.FilterServes | src/distributed_smb/application/gameplay/client.py:432-436 | without a migration the filter alone guarantees that, whatever is lost, late or repeated |
| ClientLoopModel.SnapshotKeepsInStepExactly | src/distributed_smb/application/gameplay/client.py:231-234 | a client in step stays in step with a snapshot of any age exactly when it is filtered, reached by the history, or finds it empty or dropped |
| ClientLoopModel.MigrationCanLoseATick | src/distributed_smb/application/gameplay/client.py:231-234 | history 101 to 105, a new host resuming at 99: one tick is lost and the client is out of step |
| ClientLoopModel.StepIsFoundAgainExactly | src/distributed_smb/application/gameplay/client.py:231-234 | after lost ticks and any number of further predictions the next snapshot restores step exactly when it reaches the number the client had before, the history holds new entries only, or it is so old that the history is dropped |
| ClientLoopModel.RealignedExactly | src/distributed_smb/application/reconciliation/prediction_engine.py:96-103 | any client is in step after a snapshot exactly when the entries it keeps are numbered on from it |
| ClientLoopModel.LeadStaysBounded | src/distributed_smb/application/gameplay/client.py:280-353 | from a fresh start, whatever is acknowledged and however often calibration restarts, the baseline stays in [0, 3.6] and the lead below 8, far from the 60-entry history |
| ClientLoopModel.CalibrationApproaches | src/distributed_smb/application/gameplay/client.py:320-353 | during calibration a constant lead inside the band is approached geometrically: after n frames 0.99 to the n of the way is left |
| ClientLoopModel.BacklogDrains | src/distributed_smb/application/gameplay/client.py:340-353 | with a frozen baseline and one acknowledgement per frame the excess over the band falls by one tick per frame to zero, and then the lead stands still |
| ClientLoopModel.BoundedLeadNeverLosesInputs | src/distributed_smb/shared/config.py:114-136 | with the lead bounded every accepted snapshot is followed by a complete replay |
| VisualSmoothing.LocalVisual.Smooth | src/distributed_smb/application/gameplay/client.py:355-378 | the drawn position plus the outstanding offset is the reconciled position |
| VisualSmoothing.JoltIsBounded | src/distributed_smb/application/gameplay/client.py:380-383 | per axis a frame absorbs at most 8 px and 30% of the error and never overshoots zero |
| VisualSmoothing.OffsetVanishes | src/distributed_smb/application/gameplay/client.py:355-383 | without new corrections the error falls below any positive bound within a computable number of frames |
| FailureDetector.HostMonitor.TickElectionState | src/distributed_smb/application/gameplay/client.py:100-154 | suspicion opens a verify window, a fresh timestamp closes it, its end starts the election, probes are re-sent at their interval |
| FailureDetector.HostMonitor.ResetElectionState | src/distributed_smb/application/gameplay/client.py:269-278 | following a new host forgets the old silence and watches afresh |
| FailureDetector.ElectionNeedsSilence | src/distributed_smb/application/gameplay/client.py:139-166 | in every well-timed run, however many hosts have been followed in it, an election starts only more than 15 s after every accepted snapshot and after a full window without a matching reply |
| FailureDetector.SilenceIsNoticed | src/distributed_smb/application/gameplay/client.py:100-154 | a host silent for good is suspected at the first frame after the timeout, and the election has started exactly when a frame has come after a full verify window |
| FailureDetector.SilentHostIsReplaced | src/distributed_smb/application/gameplay/client.py:100-154 | with frames at most a gap apart the election has started by the first frame 15 seconds and a gap after the last sign of life |
| FailureDetector.SignOfLifeBuysTime | src/distributed_smb/application/gameplay/client.py:156-166 | after a matching reply no election starts for another 15 seconds |
| FailureDetector.ProbesAreBounded | src/distributed_smb/application/gameplay/client.py:124-154 | a verify window sends at most 20 probes |
| FailureDetector.ProbesKeepComing | src/distributed_smb/application/gameplay/client.py:124-154 | while the host is suspected the last probe is at every frame less than half a second old, and there is none before |
| FailureDetector.WindowAlwaysHolds | src/distributed_smb/application/election/timeout_watcher.py:12-20 | what an open verify window means, at every point of every well-timed run |
| Election.ElectionCoordinator.Tick | src/distributed_smb/application/election/coordinator.py:75-86 | raises exactly when pending without a timer; elects itself exactly when the timer has expired |
| Election.ElectionCoordinator.OnNewHostClaim | src/distributed_smb/application/election/coordinator.py:88-103 | follows exactly a claimer with a lower join index, whatever its own state |
| ElectionTiming.OnlyTheLowestIsElected | src/distributed_smb/application/election/coordinator.py:61-103 | in every run within the bounds only the lowest join index claims, is followed or promotes, and promotes only once every other acknowledged or had two seconds to |
| ElectionTiming.ElectionSettles | src/distributed_smb/application/election/mixin.py:47-104 | once the delays have passed the lowest has claimed and everybody follows it or is reconnected to it; two seconds and a frame after its claim it is host |
| ElectionTiming.RunKeepsInvariant | src/distributed_smb/application/gameplay/client.py:139-151 | the invariant behind both, through every interleaving of frames, claims, acknowledgements and announcements |
| ElectionLimits.SafeExactlyWhenStaggered | src/distributed_smb/application/election/coordinator.py:96-100 | with acknowledgements and announcements possibly lost, all runs end with at most one host if and only if arming spread, frame gap and claim latency together are at most one stagger step |
| ElectionLimits.TwoHosts | src/distributed_smb/application/election/mixin.py:110-129 | for all larger bounds with a positive frame gap, a run in which a follower promotes at its own deadline beside the host it follows |
| ElectionOfNodes.OneSurvivorBecomesHost | src/distributed_smb/application/election/mixin.py:47-157 | the nodes themselves, taking the steps of a run, become host exactly as their timed counterparts do: at most the lowest |
| ElectionOfNodes.StepMatches | src/distributed_smb/application/election/mixin.py:47-129 | each handler of a node keeps it in correspondence with the timed protocol |
| ElectionOfNodes.DeliveriesWereSent | src/distributed_smb/application/election/mixin.py:47-104 | whatever a node hears in a run is a message its sender has sent by then, with the address and join index in it, except repeated acknowledgements to a host, which change nothing, and announcements by a host that lists nobody else |
| ElectionOfNodes.HandshakeSucceeds | src/distributed_smb/application/election/mixin.py:47-104 | two survivors that hear what the other sent last: the claim is followed, the acknowledgement is the one awaited, the claimer is host and the follower is led to it |
| ElectionOfNodes.AcknowledgementReachesTheClaimer | src/distributed_smb/application/election/mixin.py:70-104 | whatever other peers a claimer awaits, the acknowledgement of a follower takes exactly that follower off the list |
| GameNodeModel.GameNode.OnSelfElected | src/distributed_smb/application/election/mixin.py:47-68 | a sole survivor promotes at once; otherwise the claim is sent and the known peers are awaited |
| GameNodeModel.GameNode.OnElectionAck | src/distributed_smb/application/election/mixin.py:70-82 | an awaited acknowledgement is ticked off; the last one promotes |
| GameNodeModel.GameNode.TickClaimDeadline | src/distributed_smb/application/election/mixin.py:110-129 | at the deadline every silent peer is evicted in any order and the node promotes |
| GameNodeModel.GameNode.PromoteToHost | src/distributed_smb/application/election/mixin.py:135-192 | once only: authoritative, restored from the last snapshot, crashed host evicted, sole host of the roster, others announced to and given a grace period |
| GameNodeModel.GameNode.OnReconnectionAck | src/distributed_smb/application/gameplay/client.py:211-278 | the first new host is followed: environment realigned, filter reset, old host evicted, new one flagged, election state cleared |
| GameNodeModel.GameNode.EvictPlayer | src/distributed_smb/application/gameplay/events.py:39-51 | the player leaves world, roster and input caches; its character is saved exactly when it was listed and alive |
| GameNodeModel.GameNode.MergeRoster | src/distributed_smb/application/gameplay/events.py:137-146 | unknown join indices of others are added, nothing else changes, never a duplicate |
| GameNodeModel.GameNode.CheckForRejoiningPlayers | src/distributed_smb/application/gameplay/host.py:147-212 | the broadcast is applied entry by entry, and the world that results is sent out exactly when somebody entered |
| Migration.PromotedOnceAndAnswered | src/distributed_smb/application/election/mixin.py:47-157 | in every life of a node: at most one announcement, host coincides with authoritative engine and with being alone flagged in its roster; it promotes only after its own claim, all of whose peers acknowledged or are gone; host and reconnected are for ever |
| Migration.FirstAnnouncementDecides | src/distributed_smb/application/gameplay/client.py:211-216 | in every life of a node that starts as a client it follows the first announcement exactly unless it is host by then, keeps that address, and follows no later one |
| Migration.SecondMigrationIsNotFollowed | src/distributed_smb/application/gameplay/client.py:211-216 | a concrete client that follows the third player and ignores the fourth one that takes over later |
| Migration.HappeningKeeps | src/distributed_smb/application/gameplay/events.py:99-146 | every single event keeps that invariant, in every state |
| Migration.MergeLearnsExactly | src/distributed_smb/application/gameplay/events.py:137-146 | exactly the entries of others under unknown join indices are added |
| Migration.PromotionHandsOver | src/distributed_smb/application/election/mixin.py:146-157 | a promoted node lists everybody but the crashed host, flagged itself, and shows no character of that host |
| Migration.FollowingHandsOver | src/distributed_smb/application/gameplay/client.py:253-267 | a node that follows a listed new host lists everybody but the old one, with the flag on the new one |
| Migration.SilentPeersLeave | src/distributed_smb/application/election/mixin.py:116-127 | with distinct addresses exactly the silent peers leave the roster, whatever the order |
| Migration.SilentCharacterReturnsExactly | src/distributed_smb/application/election/mixin.py:127-151 | a silent peer's character is in the new world exactly when the restored snapshot shows it |
| Migration.SilentCharacterIsBack | src/distributed_smb/application/election/mixin.py:127-151 | a concrete claimant whose silent peer is unlisted and back in the world |
| Migration.SurvivorsAgreeOnTheEnvironment | src/distributed_smb/application/gameplay/client.py:230-251 | survivors with the same last snapshot end with the new host's blocks, power-ups and gates, and accept its snapshots from the start |
| Migration.GracePeriodHolds | src/distributed_smb/application/election/mixin.py:259-265 | for ten seconds after a promotion no survivor is dropped for silence |
| GameNodeModel.GameNode.CheckPlayerDisconnections | src/distributed_smb/application/gameplay/events.py:60-75 | broken connections and players silent for more than ten seconds are evicted and reported, nobody else |
| Roster.SortedIsAscending | src/distributed_smb/shared/roster.py:73-75 | listing gives exactly the participants, in order of join index |
| Roster.PlayerIdsAreDistinct | src/distributed_smb/shared/config.py:20-22 | different join indices have different canonical ids |
| Roster.GlobalRoster.AddPlayer | src/distributed_smb/shared/roster.py:41-49 | refuses exactly a join index already taken |
| Roster.GlobalRoster.PromoteHost | src/distributed_smb/shared/roster.py:68-71 | the flag is on that player only |
| Lobby.LobbyManager.JoinSession | src/distributed_smb/network/lobby/service.py:78-137 | the step-by-step join gives the slot and session of the specification and keeps every session in order |
| Lobby.LobbyManager.HandleJoin | src/distributed_smb/network/lobby/service.py:276-323 | the endpoint accepts exactly when the session exists and is not full |
| Lobby.LobbyManager.HandleLeave | src/distributed_smb/network/lobby/service.py:396-413 | a participant that leaves is dropped, and the session is gone exactly when that was its host |
| Lobby.RoomClosesExactly | src/distributed_smb/network/lobby/service.py:147-158 | the room closes exactly when an entry with that join index is the host's; exactly that participant goes |
| Lobby.LobbyManager.GetRoster | src/distributed_smb/network/lobby/service.py:185-198 | the roster lists the session's entries and never hits a duplicate |
| Lobby.SessionStaysInOrder | src/distributed_smb/network/lobby/service.py:58-232 | through every sequence of joins, rejoins, departures and re-registrations: distinct canonical slots below four, at most one host, listed and reserved apart, at most four taken |
| Lobby.JoinAcceptedExactly | src/distributed_smb/network/lobby/service.py:78-137 | a newcomer is accepted exactly when a slot is neither listed nor reserved, a returning player exactly when its slot is reserved or listed under its id |
| Lobby.JoinedExactly | src/distributed_smb/network/lobby/service.py:78-137 | a newcomer gets the lowest slot neither listed nor reserved, a returning player its own, under its canonical id and new address, never as host anew, and no other entry or slot changes |
| Lobby.NotFullMeansAccepted | src/distributed_smb/network/lobby/service.py:160-177 | not full implies accepted; the converse fails exactly for a returning player that is still listed |
| Lobby.ListedReturnerIsRefused | src/distributed_smb/network/lobby/service.py:165-170 | a concrete session where that happens |
| Lobby.ReservationSurvives | src/distributed_smb/network/lobby/service.py:92-137 | a reserved slot stays reserved through every sequence of joins and departures by others |
| Lobby.SomeSlotIsFree | src/distributed_smb/network/lobby/service.py:104-124 | below the capacity the search always finds a slot |
| Lobby.RecreatedIsOk | src/distributed_smb/shared/messages/session.py:138-161 | a validated request registers a session in order |
| Rejoin.RequestIsAccepted | src/distributed_smb/application/election/mixin.py:209-225 | the promoted host's request always passes validation and accounts for exactly the slots listed or waiting |
| Rejoin.ReservationIsKeptExactly | src/distributed_smb/application/gameplay/events.py:41-46 | eviction keeps the slot reserved exactly when the player was alive or already waiting to return, and saves the character it had |
| Rejoin.DeadPlayerLosesItsSlot | src/distributed_smb/application/gameplay/events.py:41-46 | a concrete host that evicts a dead player and loses its slot |
| Rejoin.BroadcastExactly | src/distributed_smb/application/gameplay/host.py:147-205 | what a roster broadcast does to roster, saved characters and world, however many players arrive in it, each as if alone |
| Rejoin.SyncIsSentExactly | src/distributed_smb/application/gameplay/host.py:206-212 | when somebody arrives in a broadcast exactly one message goes out: the resulting world, with the character of every arrival that brings one; otherwise nothing is sent and nothing changes |
| Rejoin.ReturnRestoresTheCharacter | src/distributed_smb/application/gameplay/host.py:173-205 | whoever waits gets its slot from any session of this host that has it reserved, whoever else has joined or returned, and then exactly its saved character; nobody but arrivals is touched |
| Rejoin.AbsenceKeepsTheCharacter | src/distributed_smb/application/gameplay/events.py:39-75 | through every life of the host in which nobody enters under the slot, inputs arriving included, the crashed player stays out of the roster and its character stays saved |
| Rejoin.CrashAndReturn | src/distributed_smb/application/gameplay/host.py:147-205 | crash while alive and return, with others joining, leaving and returning in the lobby and the host ticking, evicting others and hearing broadcasts and inputs meanwhile: same join index, the character as before the crash, exactly the same characters when nothing else happened; the one message sent then shows the returning client its character as it was; and out of any stream an input is accepted exactly when one is numbered above everything of that player that arrived since its eviction, and otherwise the host goes on with the highest of these |
| Rejoin.ReturnAfterStraggler | src/distributed_smb/application/gameplay/host.py:63-69 | one input that arrives after the eviction is enough: the player returns, none of its inputs numbered up to that one is accepted and the straggler is used |
| Rejoin.StragglerSilencesTheReturn | src/distributed_smb/application/gameplay/host.py:63-69 | the same at a concrete host, with input number 5 arriving late |
| Hearing.KnowsWhatArrived | src/distributed_smb/application/gameplay/host.py:63-69 | in every life of a host it knows of each player, listed or not, exactly what has arrived since that player was last evicted |
| Hearing.StaysWhileHeard | src/distributed_smb/application/gameplay/events.py:70-75 | through every life in which nobody evicts the player otherwise and each check finds it heard within ten seconds, it stays in the roster under its entry, and its heard time is that of its entry or of its last accepted input |
| Hearing.DroppedExactlyForSilence | src/distributed_smb/application/gameplay/events.py:70-75 | after any such life the next check drops the player and forgets its inputs exactly when no input of it was accepted for more than ten seconds |
| Hearing.CheckReportsExactly | src/distributed_smb/application/gameplay/events.py:60-75 | a check reports exactly the players whose connection broke and those silent for more than ten seconds |
| Rejoin.MovedPlayerIsHeardExactly | src/distributed_smb/application/gameplay/host.py:185-199 | out of any stream of inputs of a listed player that comes back at a new address one is accepted exactly when the stream holds one above its last number, and without one the host goes on with the old input; after an eviction any input from number 0 on will do |
| Rejoin.RestartedPlayerIsIgnored | src/distributed_smb/application/gameplay/host.py:185-199 | a concrete host that heard number 5: none of the inputs 1 to 5 of the restarted player is accepted and the old one is used |
| Rejoin.IgnoredPlayerIsDropped | src/distributed_smb/application/gameplay/host.py:185-199 | a listed player that came back and sends nothing above its old number is dropped by the first check more than ten seconds after its return and by no earlier one, and keeps the old number until then |
| Rejoin.BroadcastIsIdempotent | src/distributed_smb/application/gameplay/host.py:147-212 | repeating a roster broadcast changes nothing more |
| HostInputs.HostInputCache.DrainRemoteInputPackets | src/distributed_smb/application/gameplay/host.py:36-71 | stale and repeated inputs are ignored, own probes answered, accepted ones counted and timed |
| HostInputs.HostInputCache.BuildHostInputs | src/distributed_smb/application/gameplay/host.py:73-81 | the local input, and for every other participant its cached input or none |
| HostInputs.CacheHoldsNewest | src/distributed_smb/application/gameplay/host.py:63-69 | after any stream the cache holds the highest-numbered input of each player |
| HostInputs.HostPlaysTheNewest | src/distributed_smb/application/gameplay/host.py:63-81 | after any stream the host plays for each other participant the highest-numbered input it sent, and nothing for one that sent none |
| HostInputs.HeardFromExactly | src/distributed_smb/application/gameplay/host.py:63-69 | out of any stream an input of a player is accepted exactly when one is numbered above the last one known, and otherwise number and input stay |
| HostInputs.HeardAfterExactly | src/distributed_smb/application/gameplay/host.py:63-69 | told from the packets that have arrived: an input out of a stream is accepted exactly when one is numbered above all of them, and otherwise the highest-numbered of them stays in use |
| HostInputs.HeardExactly | src/distributed_smb/application/gameplay/host.py:69-69 | exactly the players with an accepted packet count as heard now |
| HostInputs.StreamOrderIsIrrelevant | src/distributed_smb/application/gameplay/host.py:36-81 | reordering and duplication change neither cache nor input map |
| AgentActions.LatestQueue.PutLatest | src/distributed_smb/application/agent_integration.py:51-71 | a full queue loses its oldest item; the queue is the most recent undrained items in order and the counter accounts for every loss |
| AgentActions.AgentGameIntegration.DrainSpadeActions | src/distributed_smb/application/agent_integration.py:437-460 | all waiting requests are offered in order, later ones win ties, unknown enemies and unusable observations are refused |
| AgentActions.AgentGameIntegration.Tick | src/distributed_smb/application/agent_integration.py:312-424 | a tick takes in the waiting requests, gives every controlled enemy that exists exactly one command, ticks the engine with these commands and reports one result each; switched off it drops all requests and lets the enemies patrol |
| AgentActions.AgentGameIntegration.ControlEnemy | src/distributed_smb/application/agent_integration.py:289-295 | a fixed action takes over exactly an existing enemy, away from the agents |
| AgentActions.AgentGameIntegration.ReleaseEnemy | src/distributed_smb/application/agent_integration.py:304-307 | controller, control and latest request of the enemy are forgotten |
| AgentActions.AgentsCommandFresh | src/distributed_smb/application/agent_integration.py:356-391 | the engine's command for an enemy left to the agents is that of the newest accepted request within the age limit, and STOP without one |
| AgentActions.AgentsMoveTheEnemy | src/distributed_smb/application/agent_integration.py:356-391 | a live tick moves every controlled enemy that is left by its speed, up to the end of its range, as this tick's request for it says, else its fixed action, else its agent's newest fresh request; otherwise it stands |
| AgentActions.ResultsTell | src/distributed_smb/application/agent_integration.py:356-424 | invalid target means no such enemy or a request for another one, unsupported a jump, applied anything else |
| AgentActions.ExecutedActionIsFresh | src/distributed_smb/application/agent_integration.py:462-472 | the request chosen is the newest accepted one if at most the maximal age old, never from the future, and STOP otherwise |
| AgentActions.OffersKeepMemory | src/distributed_smb/application/agent_integration.py:437-460 | what is remembered is the newest accepted request over all drains with a rising sequence |
| AgentActions.NewestOfIsNewest | src/distributed_smb/application/agent_integration.py:437-460 | newest means: highest observation, the later arrival on ties |
| AgentActions.OnlyThisEnemyForgotten | src/distributed_smb/application/agent_integration.py:304-307 | releasing an enemy forgets what was accepted for it and for no other |
| Sight.SegmentRectangleIntersection | src/distributed_smb/application/agent_integration.py:222-250 | the loop over the axes computes the clip |
| Sight.HasClearLine | src/distributed_smb/application/agent_integration.py:198-219 | clear exactly when no obstacle but the ignored one blocks |
| Sight.ClipIsExact | src/distributed_smb/application/agent_integration.py:222-250 | for rectangles of non-negative size the span is exactly the parameters in [0, 1] inside the rectangle |
| Sight.NothingExactlyOutside | src/distributed_smb/application/agent_integration.py:222-250 | nothing is returned exactly when no point of the segment is inside |
| Sight.BlockingExactly | src/distributed_smb/application/agent_integration.py:198-219 | what blocking with the two margins means geometrically |
| Sight.SightIsSymmetric | src/distributed_smb/application/agent_integration.py:198-250 | swapping the endpoints never changes the answer, for any obstacles |
| ShadowCopyModel.ShadowCopy.Update | src/distributed_smb/domain/shadow_copy.py:29-61 | a snapshot that is not newer is ignored; a newer one starts a segment from the last target |
| ShadowCopyModel.ShadowCopy.GetVisualState | src/distributed_smb/domain/shadow_copy.py:80-105 | interpolation, then extrapolation, then freeze |
| ShadowCopyModel.NewestArrivalWins | src/distributed_smb/domain/shadow_copy.py:29-61 | the stored number only rises, and the copy shows the first arrival with the highest number |
| ShadowCopyModel.SegmentLeadsFromTheLastTarget | src/distributed_smb/domain/shadow_copy.py:43-78 | a newer snapshot is approached on the straight line from the last target, and reached after the time between the two snapshots or the timeout |
| ShadowCopyModel.DrawnPositionIsContinuous | src/distributed_smb/domain/shadow_copy.py:63-105 | between updates the drawn position moves no faster than any speed limit of segment and target, also across the seam |
| ShadowCopyModel.DrawnPositionNeverJumps | src/distributed_smb/domain/shadow_copy.py:63-105 | such a limit always exists: the larger of the segment's speed and the target's own |
| ShadowCopyModel.DrawnPositionIsBounded | src/distributed_smb/domain/shadow_copy.py:80-105 | on the segment before the timeout, then within speed times the extrapolation limit of the target |
| ShadowCopyModel.PictureGoesOn | src/distributed_smb/domain/shadow_copy.py:80-105 | after the timeout the picture starts at the target and goes on at exactly its velocity until the longest extrapolation is used up |
| ShadowCopyModel.FrozenPictureStands | src/distributed_smb/domain/shadow_copy.py:80-105 | after the freeze the picture is constant |

## Left out

- Entities, snapshots and worlds are values held in the fields of the engine and node objects; sharing
  of one Python object between two places, and the deep copies that prevent it, are not captured.
- Each phase of a tick reads the clock once; the source may read it once per entity in that phase.
- Floats are reals: rounding is not modelled.
- Pixel-only facts: facing, sprites, crouched hit-box drawing, render frames, menus and audio.
- Goals stored with a level (coins, blocks and enemies to win) that no rule of the tick reads.
- Sockets, WebSocket threads, containers, discovery, the recovery prober and its reconnection
  fallback: they appear as deliveries, losses and evictions.
- The serializer and the field checks of messages, except those of the request that re-registers a
  session; the port check of that request is left out as its port is a constant.
- A client's own prediction of blocks and gates while it also replays the host's events; the
  replication results are about a replica driven by the events alone.
- In the client loop an announcement does not evict the old host's character; the node model does.
- A peer that leaves is evicted through the node model; the replica of the replication model only
  loses the characters.
- The migration model stops at a node's first reconnection as far as timing goes; later host losses
  appear in `Migration` but not in `ElectionTiming`.
- Survivors are assumed to agree on the group, and nobody else crashes, while the timed election runs.
- A roster received from elsewhere is assumed canonical and to name no second host.
- Absorption.NewerSnapshotAbsorbsOlder: when live ticks are replayed after the newer snapshot it gives a sufficient
  and a necessary condition that do not meet, because a block broken early can change every later
  step of that replay.
- Enemy controllers that are functions (fixed actions are modelled), the perception messages
  themselves, positions in tick results, the vision cone's distance test, and everything behind the
  agent framework.
- Level parsing: a level is arbitrary, with distinct block positions and ids where replication needs it.
- Logging, frame statistics, packet counters and correction diagnostics.
