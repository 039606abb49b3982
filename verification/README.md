# Verified model of the water-quality controller

The firmware of a field unit reads water probes, drives four relays, talks to a
LoRaWAN network and to a cloud, and updates itself. This project models the parts
of it that must not go wrong and proves, for all inputs and all runs, what they
are for. `dafny verify dfyconfig.toml` checks everything.

## How the model is built

Where the program changes an object step by step, the model is a class whose
methods change the same fields, and each method is proved to do what a function of
the old state says; the theorems are about those functions and about runs of them.

- **Relays, hold, rules** (`Relay`, `RelayRuns`, `IrrigationHold`, `HoldHistory`,
  `HoldReadings`, `HoldPlant`, `Rules`, `RuleRuns`, `RuleMeaning`, `Actuation`).
  Four coils with a bitmask, pins and auto-off timers; a hysteresis hold; a rules
  engine. `HoldReadings` and `RuleMeaning` say what the hold and the rules are for
  from the settings and the readings alone. `Actuation` puts everything into one
  transition system with manual commands, downlinks, the interlock and timer
  threads that may run late. Its end-to-end theorem says that the held contact is
  closed exactly when the settings and the readings ask for it, whatever else
  happened in between.
- **Updates** (`Ota`, `OtaSafety`, `OtaOffers`). Every file-system operation of an
  update is a step; a crash may fall between any two, and recovery may crash too.
  `OtaOffers` follows the offers: which releases a unit can come to run.
- **LoRaWAN 1.0.3** (`LoRaCrypto`, `LoRaNetwork`, `LoRaParams`, `LoRaCommands`,
  `LoRaRequests`, `LoRaMac`, `LoRaLink`, `LoRaRuns`, `LoRaReplay`, `LoRaJoins`,
  `Cayenne`, `CayenneContract`, `Paths`). AES is any permutation of blocks with an
  inverse. The network side (a party that answers joins, reads uplinks, and builds
  downlinks and MAC commands) is written independently, its blocks and fields byte
  by byte (`LoRaNetwork`, `LoRaRequests`), and the two are proved to agree; so is
  the platform's reading of a payload (`CayenneContract`).
  Effects (rows written, frames handed to the radio) are listed in order, so a
  crash is a prefix of that list followed by a restart. The log of what was sent
  and heard is never rewound; `LoRaReplay` says which downlinks, and `LoRaJoins`
  which JoinAccepts, can be accepted again.
- **Store and forward** (`Readings`, `ReadingRuns`, `Migration`, `MigrationRuns`).
  The table is a map from row ids; the server's reply is any list whatever. SQLite
  statements run one by one, with its implicit transactions.
- **Commands from the cloud** (`DeviceCommands`, `DeviceRuns`, `CommandWorker`,
  `PhSession`).
- **Modbus** (`Modbus`). The bitwise CRC-16 loop, its linearity, and what it
  detects; exchanges with retries.
- `BitMath`, `Folding` and `Wrappers` hold arithmetic, facts about folds, and a few
  generic pieces.

## Where the code falls short of its promise

Each of these is the code as it is, with the exact condition proved.

- A hold taking a channel over lets go of it first only if the coil was off, or
  the take-over write succeeded and, when another channel was held, its release
  did too (`HoldPlant.TakeOverReleases`; a concrete case in
  `HoldPlant.TakeOverCanMiss`). Otherwise the coil stays closed while nothing
  trips (`HoldPlant.MissedTakeOverStays`).
- The auto-off timer forgets itself before it writes the pin. A coil that is on
  stays on past any time exactly when it has no timer or that one write fails
  (`RelayRuns.CeilingNeedsThePin`); the ceiling holds when pins obey
  (`RelayRuns.Ceiling`).
- The cooldown counts from the latest OFF the engine remembers. When a rule
  switches a channel off in the very evaluation that dropped it for a lost probe,
  that OFF is stamped with the evaluation's start, a moment before the drop, and
  the drop is forgotten: an ON can then come less than the cooldown after it
  (`RuleRuns.EarlyOnHappens`). For every drop of every run that is possible if and
  only if a rule does so and another can switch the channel on
  (`RuleRuns.EarlyAfterDrop`); for every OFF and every reachable state the exact
  condition is `RuleRuns.EarlyOnExact`, and which OFFs are forgotten
  `RuleRuns.ForgottenExact`.
- The end minute of a schedule window counts only at its first instant, because the
  time of day is compared with its seconds (`RuleMeaning.ScheduleMeans`).
- Installing over a release that recovery needs loses it; an update is safe for
  every crash exactly when it does not (`OtaSafety.SafeTargetExact`). The check
  that refuses the installed version is enough in every run in which a recovery
  completes at start-up and after each update cut off past its flip
  (`OtaSafety.CheckedRunsAreGood`, given that records are written). The agent can
  leave that ground in three ways: an exception after the flip, a recovery at
  start-up that raises, which is suppressed, and a record of success that cannot
  be written, which is only logged. Each, then a downgrade, ends on a half-deleted
  release (`OtaSafety.HangingUpdateThenDowngrade`,
  `OtaSafety.SuppressedRecoveryThenDowngrade`,
  `OtaSafety.UnrecordedSuccessThenDowngrade`).
- 65536 JoinRequests in a row need not carry different DevNonces: a crash between
  persisting a nonce and sending it skips one, and the 65536th request then
  repeats the first (`LoRaRuns.SkippedNonceRepeats`). Two requests are equal
  exactly when the draws between them are a multiple of 65536
  (`LoRaRuns.DevNoncesExact`).
- An accepted downlink's counter is persisted only once the uplink call has
  returned. If the power goes before, the receiver is as it was before the frame
  (`LoRaReplay.ForgottenByPowerCut`) and accepts it again at the same counter;
  every device has such a run (`LoRaReplay.FrameAcceptedTwice`). Exactly: a frame once accepted is accepted
  again if and only if a restart undid its acceptance and nothing at or above its
  counter has been kept since, or the 32 bits of the counter are about to run out
  (`LoRaReplay.ReplayExact`).
- The AppNonce of an accepted JoinAccept is persisted only once `join` has
  returned. If the power goes before, the same JoinAccept is accepted again
  (`LoRaJoins.JoinAcceptedTwice`). In every reachable state the refused ones are
  exactly those accepted before with no such restart and at most seven accepted
  since (`LoRaJoins.JoinRefusedExactly`).
- While the server is down an unposted result is dropped exactly when 64 newer
  ones need its place (`CommandWorker.DroppedExactly`); in general, exactly when
  more than 64 places are needed from it on (`CommandWorker.KeptExactly`).
- Reconstructing a downlink counter is right exactly while the expected counter
  fits the 32 bits it is masked to (`LoRaLink.ReconstructionExact`). In the last
  65536 of them the first counters are accepted once more, because they look
  like the ones past the end (`LoRaLink.AcceptedExactly`).
- An over-long uplink returns before the queued answers are cleared, so they
  drain exactly when payload and answers fit together (`LoRaLink.UplinkArrives`).
- Device commands are at most once only while the server keeps each command's
  `expiresAt`; a redelivery with a later one, after the first has passed, reaches
  the hardware again (`DeviceRuns.LaterExpiryReachesTwice`,
  `DeviceRuns.DeliveryExact`).
- An altitude or coordinate is delivered right exactly when its count fits 24
  bits, otherwise it wraps (`Cayenne.FixArrives`).
- `check_crc` accepts what `append_crc` made exactly when the frame had two bytes
  or more (`Modbus.AppendedPasses`).

## Model

| member | source | states |
|---|---|---|
| Modbus.Crc16 | src/sensors/modbus.py:61-71 | the double loop computes the byte fold the CRC theorems are about |
| Modbus.AppendCrc | src/sensors/modbus.py:74-77 | what it appends passes the check exactly for frames of two bytes or more |
| Modbus.CheckCrc | src/sensors/modbus.py:80-85 | for four bytes or more, accepts exactly the frames whose CRC over everything is zero |
| Modbus.CrcIsBitwise | src/sensors/modbus.py:61-71 | the byte-wise CRC is a one-bit-at-a-time register over the frame's bits |
| Modbus.ShiftHalves | src/sensors/modbus.py:65-70 | one shift in numbers: halved, and after an odd number three digits changed |
| Modbus.KnownCrc | src/sensors/modbus.py:61-71 | the standard's example: 02 07 gives 0x1241 |
| Modbus.CrcDiffers | src/sensors/modbus.py:61-71 | CRC-16 is linear: two frames differ in CRC exactly when their difference leaves a trace |
| Modbus.PassesIffZero | src/sensors/modbus.py:80-85 | `check_crc` holds if and only if the CRC of the whole frame is zero |
| Modbus.AppendedPasses | src/sensors/modbus.py:74-85 | exact condition under which an appended CRC is accepted |
| Modbus.BurstChangesCrc | src/sensors/modbus.py:61-71 | every burst of at most 16 bits changes the CRC |
| Modbus.OddFlipsChangeCrc | src/sensors/modbus.py:61-71 | every odd number of bit flips changes the CRC |
| Modbus.CorruptionRejected | src/sensors/modbus.py:80-85 | a valid frame hit by such an error, trailer included, is refused |
| Modbus.AdjacentBytesRejected | src/sensors/modbus.py:80-85 | a valid frame altered in one byte or two adjacent bytes, in any way, is refused |
| Modbus.Transact | src/sensors/modbus.py:205-236 | the retry loop settles on the first conclusive response, else on the last attempt's error: a timeout exactly when that response was short and not shaped like an exception |
| Modbus.ExchangeMeans | src/sensors/modbus.py:205-236 | the first whole answer is returned, the first whole exception frame raised with its codes, and otherwise the last attempt tells timeout from corruption |
| Modbus.OnlyTheFrameSent | src/sensors/modbus.py:205-236 | whatever such corruption hit the responses, only the frame sent is ever returned |
| Modbus.ReadRegs | src/sensors/modbus.py:246-252 | the register values of the settled response, the exchange's own error, or a byte count other than asked for |
| Modbus.HonestReplyRead | src/sensors/modbus.py:246-252 | an honest device's register reply is read back value by value |
| Cayenne.Encode | src/radio/cayenne.py:44-148 | the bytes written for any subset of reading columns, in the fixed order |
| Cayenne.Decode | src/radio/cayenne.py:151-189 | the index walk computes the decoding function, stopping at unknown or short fields |
| Cayenne.RoundTrip | src/radio/cayenne.py:44-189 | decoding what was encoded gives exactly the fields written |
| Cayenne.ScalarArrives | src/radio/cayenne.py:44-189 | a column is decoded exactly when the reading had it, to half a quantum in range |
| Cayenne.ScalarAccuracy | src/radio/cayenne.py:44-148 | out-of-range scalars are pinned to the nearer end of the field |
| Cayenne.FixArrives | src/radio/cayenne.py:44-189 | a position is decoded exactly when both coordinates were there; right exactly when its count fits 24 bits |
| Cayenne.Wire24Exact | src/radio/cayenne.py:207-219 | the three-byte field keeps a number exactly within 24 signed bits, else up to whole turns |
| CayenneContract.ScalarOnTheAir | src/radio/cayenne.py:11-136 | each column on its contract channel and type, as the nearest count of its contract unit, the even one of two |
| CayenneContract.FixOnTheAir | src/radio/cayenne.py:138-219 | a fix on channel 6 in ten-thousandths of a degree and hundredths of a metre, or nothing |
| Relay.MaskBit | src/control/relay.py:66-91 | bit of the 4-bit mask is the pin's level |
| Relay.MaskUpdate | src/control/relay.py:66-91 | setting or clearing one bit of the mask is changing that one pin |
| Relay.RelayController.Set | src/control/relay.py:66-91 | pins, mask and timer table after any request, refused or failed writes included |
| Relay.RelayController.ArmAutoOff | src/control/relay.py:93-109 | the granted time is capped, and the coil's timer replaced |
| Relay.RelayController.AutoOff | src/control/relay.py:129-139 | only the timer in the table acts; with a failing write it is gone and the coil stays |
| Relay.RelayController.AllOff | src/control/relay.py:154-162 | all coils off and no timer left |
| Relay.RelayController.CancelTimer | src/control/relay.py:124-127 | the channel's timer, and no other, leaves the table |
| Relay.RelayController.ArmTimer | src/control/relay.py:116-122 | the new timer replaces the old one under a fresh identity |
| RelayRuns.RunKeepsOk | src/control/relay.py:66-162 | in every reachable state an armed timer implies the coil is on |
| RelayRuns.SupersededIsInert | src/control/relay.py:129-139 | a superseded timer thread, however late, changes nothing |
| RelayRuns.Ceiling | src/control/relay.py:66-139 | no bounded channel is on longer than `max_on_s` after its latest request |
| RelayRuns.RunKeepsTimely | src/control/relay.py:116-122 | in every run in which the clock does not pass a due timer, none is overdue |
| RelayRuns.CeilingNeedsThePin | src/control/relay.py:129-139 | left alone, every timer run when due, a coil is on past any time if and only if it has no timer or that timer's write fails |
| IrrigationHold.FromSettings | src/control/irrigation_hold.py:95-113 | the limits kept are exactly the positive ones; counts and times are clamped |
| IrrigationHold.CycleMeans | src/control/irrigation_hold.py:48-113 | every limit of the settings compares its own column the right way round, 0 switches it off, and either name of a probe suspends it |
| IrrigationHold.Engine.DriveCoil | src/control/irrigation_hold.py:365-392 | the physical fields follow the write that succeeded, not the wish |
| IrrigationHold.Engine.ConfigureHold | src/control/irrigation_hold.py:195-250 | release of the old channel, take-over of the new, reset of the logic |
| IrrigationHold.Engine.EvaluateCycle | src/control/irrigation_hold.py:276-363 | one sampling cycle on logic and coil, the last known suspensions standing when the monitor threw; under settings it trips exactly on a value they want held and is unknown exactly on one they ask about and cannot read |
| IrrigationHold.Engine.Observe | src/control/irrigation_hold.py:302-318 | one pass over the conditions finds whether any trips and whether any cannot be read, in the settings' own terms |
| IrrigationHold.Engine.JudgeCycle | src/control/irrigation_hold.py:319-359 | trip counting, fault handling in both modes, and the clear-run clock |
| HoldHistory.HoldingIffHistory | src/control/irrigation_hold.py:276-359 | holding if and only if the history trips with no releasing fault or full clear run since |
| HoldHistory.FieldsRemember | src/control/irrigation_hold.py:276-359 | trip count and clear start are the lengths of the current runs of the history |
| HoldReadings.HeldIffHistoryHolds | src/control/irrigation_hold.py:95-113 | said from settings and readings alone: trip samples, release minutes and fault mode mean what the engine's history says |
| HoldReadings.HoldingIffHeld | src/control/irrigation_hold.py:276-359 | the engine holds if and only if settings and readings ask for it |
| HoldPlant.HeldIffHistory | src/control/irrigation_hold.py:276-363 | the same, whatever relay writes fail |
| HoldPlant.OneCycleConverges | src/control/irrigation_hold.py:365-392 | one cycle of successful writes brings the coil to what the logic says |
| HoldPlant.CatchesUp | src/control/irrigation_hold.py:276-392 | after any cycles with any failed writes, one cycle of successful writes puts the coil where the history says |
| HoldPlant.TakeOverReleases | src/control/irrigation_hold.py:195-250 | exact condition for a channel taken over to start released |
| HoldPlant.MissedTakeOverStays | src/control/irrigation_hold.py:276-392 | a missed take-over is never corrected while nothing trips |
| HoldPlant.TakeOverCanMiss | src/control/irrigation_hold.py:207-219 | a concrete failing release that leaves the new channel's coil on |
| Rules.RulesEngine.SetSuspendedSensors | src/control/rules.py:165-183 | newly suspended columns mark the channels their rules drive |
| Rules.RulesEngine.RevertSuspended | src/control/rules.py:507-559 | marked channels the hold does not own are shut off and their timers dropped |
| Rules.RulesEngine.ExpireTimers | src/control/rules.py:490-505 | exactly the due, unowned timers lead to an OFF; owned ones are forgotten |
| Rules.RulesEngine.Evaluate | src/control/rules.py:390-488 | a whole evaluation: let-go first, then the rules in order, then the relay writes; what that comes to is `RuleMeaning.EvaluationMeans` |
| Rules.RulesEngine.Apply | src/control/rules.py:561-580 | actions reach the relays in order, ONs with their bounded time |
| Rules.RulesEngine.ProcessDownlink | src/control/rules.py:582-623 | malformed or owned-channel commands change nothing |
| RuleRuns.GuardedOnlyLetsGo | src/control/rules.py:390-488 | outside the schedule or under override exactly the safety OFFs are issued |
| RuleRuns.LetsGoFirst | src/control/rules.py:390-559 | an expired or newly suspended channel's OFF comes before any other action on it |
| RuleRuns.OffAlwaysActs | src/control/rules.py:390-488 | a firing OFF rule is never held back by the cooldown |
| RuleRuns.ConsideredExtends | src/control/rules.py:390-488 | rules only append actions, each on its own relay and at the evaluation's time |
| RuleRuns.CooldownKept | src/control/rules.py:358-365 | over all runs a rule ON follows an engine OFF on that relay within the cooldown only if the engine remembers an earlier stamp |
| RuleRuns.EarlyOnExact | src/control/rules.py:358-488 | for every OFF in every reachable state: an ON can still come early if and only if an earlier stamp is remembered, the cooldown runs, and some rule can switch the relay on |
| RuleRuns.ForgottenExact | src/control/rules.py:485-559 | which OFFs an evaluation leaves forgotten: those that were and whose relay it left alone, and the drops a rule's OFF undercuts |
| RuleRuns.EarlyAfterDrop | src/control/rules.py:485-559 | an ON can come early after a fail-safe drop if and only if a rule switches the channel off in the same evaluation, stamped before it, and a rule can switch it on |
| RuleRuns.EarlyOnHappens | src/control/rules.py:485-559 | a run, for every cooldown, with an ON one too early for the drop |
| RuleMeaning.ScheduleMeans | src/control/rules.py:346-356 | rules run exactly when, going round the clock from the start minute, the time comes no later than the end minute |
| RuleMeaning.EvaluationMeans | src/control/rules.py:390-505 | every action of an evaluation in order, each rule judged by itself on comparison, cooldown and budget, and every last-off time, timer and duration afterwards |
| RuleMeaning.OneRule | src/control/rules.py:56-62 | for every operator, value and limit: a rule alone, with nothing in its way, acts if and only if its operator says so |
| RuleMeaning.LastActionDecides | src/control/rules.py:561-580 | the last action on a channel decides its coil and bounds its timer; a channel without one stays as it was |
| RuleMeaning.SuspensionMeans | src/control/rules.py:132-183 | exactly the columns of the named sensors are suspended, and exactly the channels of rules on new ones are to be let go |
| Actuation.AlwaysOwned | src/control/irrigation_hold.py:195-392 | over every interleaving the driven coil is on and its channel has no timer |
| Actuation.OwnedFromBoot | src/control/irrigation_hold.py:195-392 | the same from start-up, with any relays and rules |
| Actuation.OthersKeepOff | src/main.py:1042-1070 | no command, rule, downlink, interlock write or timer touches the hold's channel |
| Actuation.OnlyTheHoldLetsGo | src/control/irrigation_hold.py:264-272 | only the hold's own release or reconfiguration turns its coil off |
| Actuation.TakeOverStartsReleased | src/control/irrigation_hold.py:195-250 | with working relays a taken-over channel starts released |
| Actuation.ContactFollowsHistory | src/control/irrigation_hold.py:276-392 | end to end, from settings and readings: the contact is closed if and only if they ask for the irrigation to be held |
| Actuation.WithoutChannel | src/control/irrigation_hold.py:115-123 | settings that are off, name no channel or name the interlock's move no coil |
| Actuation.CommandObeyed | src/main.py:1046-1069 | a relay command is refused exactly on no channel, the hold's, or a negative duration; otherwise the coil is as asked and an ON is bounded by the earlier of duration and ceiling |
| Actuation.InterlockObeyed | src/integrations/smart_breaker/controller.py:129-150 | a write of the interlock lands on its own relay and no other |
| Actuation.DownlinkObeyed | src/control/rules.py:582-623 | which bytes of a downlink are the channel, the state and the seconds, and that it is obeyed exactly off the hold's channel |
| Ota.Agent.FlipCurrent | src/ota/agent.py:517-523 | `current` is replaced by way of a temporary link |
| Ota.Agent.Apply | src/ota/agent.py:540-584 | the operations of an apply, in order, and the release recorded as previous |
| Ota.Agent.Rollback | src/ota/agent.py:586-601 | the operations of a rollback, in order |
| Ota.Agent.SelfTestLoop | src/ota/agent.py:650-665 | passes exactly when a look that is active and beating comes no later than the first past the deadline |
| Ota.Agent.Prune | src/ota/agent.py:669-681 | deletes all but the newest kept and the protected releases |
| Ota.Agent.RecoverIncompleteApply | src/ota/agent.py:685-710 | rolls back exactly when the record is unfinished and names another release |
| Ota.Agent.CheckAndApply | src/ota/agent.py:714-801 | no offer, an empty or the installed version is idle, an offer not downloaded, not verified or in need of dependencies is refused, both without a trace; every other one runs the whole cycle |
| OtaSafety.CycleGood | src/ota/agent.py:540-601 | at every operation of a cycle, `current` and the rollback target are whole releases |
| OtaSafety.CycleComesHome | src/ota/agent.py:540-601 | cut anywhere before success is recorded, recovery leads to the release that ran before |
| OtaSafety.RecoverAlong | src/ota/agent.py:685-710 | recovery itself keeps that destination at every operation and reaches it |
| OtaSafety.AlwaysGood | src/ota/agent.py:540-710 | over any run of cycles to safe targets, crashes and recoveries the release tree stays good |
| OtaSafety.CheckedRunsAreGood | src/ota/agent.py:540-813 | over every run of the agent in which recovery completes where due, its own check makes every target safe and the tree stays good |
| OtaSafety.EpisodeHangs | src/ota/agent.py:540-710 | only a cycle cut off past its flip, or a recovery that did not complete, leaves a rollback pending |
| OtaSafety.InterruptedRecoveries | src/ota/agent.py:685-710 | any number of crashed recoveries and one that completes end at the same release |
| OtaSafety.CrashedUpdateIsUndone | src/ota/agent.py:540-710 | a crashed update is undone however often recovery is cut off |
| OtaSafety.CheckIsEnough | src/ota/agent.py:714-760 | refusing the installed version makes an update safe when none was left hanging |
| OtaSafety.CompletedLeavesNothing | src/ota/agent.py:540-801 | a completed cycle or recovery leaves nothing to roll back |
| OtaSafety.SafeTargetExact | src/ota/agent.py:540-560 | an update is safe at every crash point if and only if it overwrites no needed release |
| OtaSafety.HangingUpdateThenDowngrade | src/ota/agent.py:685-801 | an update whose restart raised, then a downgrade to its previous release, ends on that release half deleted |
| OtaSafety.SuppressedRecoveryThenDowngrade | src/ota/agent.py:813-818 | so does a start-up recovery that raises before its flip, then such a downgrade |
| OtaSafety.UnrecordedSuccessThenDowngrade | src/ota/agent.py:528-532 | and an update whose success could not be recorded, then such a downgrade |
| OtaOffers.OnlyVouchedFor | src/ota/agent.py:685-801 | over any run of offers, crashes and recoveries `current` only comes to name a release offered, downloaded, verified and free of dependencies, or a way back recorded at the start |
| OtaOffers.PassedEnds | src/ota/agent.py:776-786 | a passed update: the new release current, success recorded, and gone exactly the surplus releases that are neither it nor the one before |
| OtaOffers.FailedEnds | src/ota/agent.py:788-801 | a failed one: the release before current again, or none to go back to; nothing deleted |
| OtaOffers.RecoveryEnds | src/ota/agent.py:685-710 | the whole file system after a recovery that is not cut off |
| OtaOffers.RunsWhatIsCurrent | src/ota/agent.py:540-601 | after a complete update the services run the release `current` names |
| LoRaCrypto.EncryptPayload | src/radio/lorawan.py:956-986 | the block loop masks every byte with its own key stream byte |
| LoRaCrypto.EncryptionIsItsOwnInverse | src/radio/lorawan.py:956-986 | encrypting twice gives the payload back, for every key, address and counter |
| LoRaCrypto.RecoverJoinAccept | src/radio/lorawan.py:498-507 | the padded block loop is block-wise encryption cut to length |
| LoRaCrypto.BlocksRecovered | src/radio/lorawan.py:498-507 | it undoes what the network did with the inverse cipher |
| LoRaNetwork.KeyBlockPlaces | src/radio/lorawan.py:988-1002 | the places of type, AppNonce, NetID, DevNonce and zeros in the block a session key encrypts |
| LoRaNetwork.KeyAgrees | src/radio/lorawan.py:988-1002 | the device derives the key of the network's block |
| LoRaNetwork.FrameSealAgrees | src/radio/lorawan.py:915-953 | the device's frame MIC is the network's, block byte by byte |
| LoRaNetwork.CipherAgrees | src/radio/lorawan.py:956-986 | the device's key stream is the network's, block byte by byte |
| LoRaNetwork.ClearAgrees | src/radio/lorawan.py:498-507 | what the device recovers from any JoinAccept is each 16-byte block, zero-padded, encrypted once more |
| LoRaParams.SubBandUsable | src/radio/lorawan.py:167-176 | every sub-band, clamped, has a 125 kHz channel |
| LoRaParams.EnabledChannels | src/radio/lorawan.py:281-291 | exactly the 125 kHz channels that are on, or the eight of the sub-band when none is |
| LoRaParams.Rx1DataRate | src/radio/lorawan.py:142-145 | always a 500 kHz downlink rate, 8 to 13 |
| LoRaParams.Rx1FollowsTable | src/radio/lorawan.py:142-150 | RX1 follows the regional table of data rates and offsets, and downlink rates have their spreading factors |
| LoRaParams.JoinedSound | src/radio/lorawan.py:544-571 | any JoinAccept leaves a usable mask, RX2 rate 8 to 13 and delay 1 to 15 |
| LoRaParams.ReadCfList | src/radio/lorawan.py:558-570 | the CFList loops read every channel's own bit |
| LoRaParams.NewMask | src/radio/lorawan.py:856-868 | the mask loops of a LinkADRReq, block-wise or all at once |
| LoRaParams.LinkAdr | src/radio/lorawan.py:848-904 | parameters stay sound, and change only with status 7 |
| LoRaParams.RxParamSetup | src/radio/lorawan.py:806-831 | parameters stay sound, and change only with status 7 |
| LoRaParams.MaskToBits | src/radio/lorawan.py:293-309 | the mask loop computes the number with the mask's bits |
| LoRaParams.MaskSurvives | src/radio/lorawan.py:293-380 | a mask printed in hexadecimal and read back is the same mask |
| LoRaParams.SaveRestore | src/radio/lorawan.py:356-382 | restoring saved parameters keeps the radio's behaviour, even where the offset is clamped |
| LoRaParams.RestoredSafe | src/radio/lorawan.py:356-382 | whatever numbers were saved, each in its range is kept and the rest leave a device that can send and listen |
| LoRaCommands.ParsedPrefix | src/radio/lorawan.py:780-795 | what is handled is a prefix of the bytes, and no complete known command follows it |
| LoRaCommands.ParseAfter | src/radio/lorawan.py:780-795 | commands followed by anything are handled first, exactly and in order |
| LoRaCommands.ParseIsLongest | src/radio/lorawan.py:780-795 | on any bytes exactly the longest well-formed prefix is handled |
| LoRaCommands.Queued | src/radio/lorawan.py:774-778 | answers are queued whole or not at all and never exceed 15 bytes |
| LoRaCommands.ReservedBlockIsDropped | src/radio/lorawan.py:856-860 | ChMaskCntl 4 changes nothing and is not answered; every other LinkADRReq is |
| LoRaRequests.RequestDone | src/radio/lorawan.py:797-904 | every MAC command a network builds from its fields does what it asks: data rate, exactly the channels, windows, delay, margin, link check; or answers with the bits of what it refuses and changes nothing |
| LoRaRequests.RequestsDone | src/radio/lorawan.py:780-904 | a run of requests is carried out one by one, each on what the one before left |
| LoRaRequests.AnyRequest | src/radio/lorawan.py:94-120 | every command the parser can deliver is such a request |
| LoRaMac.Remembered | src/radio/lorawan.py:529-539 | the AppNonce list stays duplicate-free with at most eight entries |
| LoRaMac.RestartedOk | src/main.py:488-504 | a restart restores session, counters and AppNonces of the state that was saved |
| LoRaMac.LoRaWANMAC.QueueAnswer | src/radio/lorawan.py:774-778 | the pending answers after one more |
| LoRaMac.LoRaWANMAC.HandleMacCommand | src/radio/lorawan.py:797-904 | one command on parameters, link check and pending answers, as the network that built it meant it |
| LoRaMac.LoRaWANMAC.HandleMacCommands | src/radio/lorawan.py:780-795 | the index loop handles exactly the parsed commands in order, on any bytes, and a network's requests as it meant them |
| LoRaMac.LoRaWANMAC.ForgetSession | src/radio/lorawan.py:333-339 | session, plan and liveness counts back to defaults, AppNonces kept |
| LoRaMac.LoRaWANMAC.StartJoin | src/radio/lorawan.py:448-472 | the nonce is drawn and persisted before the request is handed to the radio |
| LoRaMac.LoRaWANMAC.ProcessJoinAccept | src/radio/lorawan.py:487-582 | length, type, MIC and replay checks, then keys, address and parameters; which frames and which keys say `LoRaLink.JoinedExactly` and `LoRaLink.JoinAgreement` |
| LoRaMac.LoRaWANMAC.Join | src/radio/lorawan.py:436-481 | a whole join attempt with whatever came in, as `LoRaLink.JoinAgreement` describes it |
| LoRaMac.LoRaWANMAC.Probe | src/radio/lorawan.py:611-627 | the liveness count, LinkCheckReq and giving up |
| LoRaMac.LoRaWANMAC.StartUplink | src/radio/lorawan.py:609-692 | frame layout, and counter spent and persisted before the radio has the frame |
| LoRaMac.LoRaWANMAC.ProcessDownlink | src/radio/lorawan.py:717-768 | verification, counter, commands in both places, decrypted payload |
| LoRaMac.LoRaWANMAC.SendUplink | src/radio/lorawan.py:588-698 | a whole uplink with whatever came in |
| LoRaLink.JoinAgreement | src/radio/lorawan.py:448-582 | the network reads both identifiers and the nonce, persisted before; the device accepts exactly fresh AppNonces and then holds the session keys the network derives by itself, the granted windows and channels, and the last eight AppNonces |
| LoRaLink.JoinedExactly | src/radio/lorawan.py:487-539 | any frame at all is taken for a JoinAccept exactly when long enough, of that type, rightly sealed and fresh; else nothing changes |
| LoRaLink.ReplayWindow | src/radio/lorawan.py:529-539 | an accepted JoinAccept is refused through at least the next seven |
| LoRaLink.FrameRead | src/radio/lorawan.py:640-668 | the network splits, verifies and decrypts every frame to what was given |
| LoRaLink.UplinkArrives | src/radio/lorawan.py:609-674 | exact condition for sending, payload limit by spreading factor included, what the network reads, when answers drain, and what giving up leaves |
| LoRaLink.ReadingArrives | src/radio/cayenne.py:44-189 | end to end: exactly the columns of the reading, each in-range one to half a quantum |
| LoRaLink.PositionArrives | src/radio/cayenne.py:138-148 | end to end: the position exactly when complete, each axis in range to half a quantum |
| LoRaLink.ReconstructionExact | src/radio/lorawan.py:709-715 | the least counter from the expected one with these 16 bits, exactly below 2^32 |
| LoRaLink.NextIsLeast | src/radio/lorawan.py:709-715 | that counter is least, and the only one within 65536 |
| LoRaLink.HeardExactly | src/radio/lorawan.py:717-744 | any frame at all is taken for a downlink exactly when of its type and address and rightly sealed at the next counter; else nothing changes |
| LoRaLink.AcceptedExactly | src/radio/lorawan.py:717-744 | a frame authentic at a counter is accepted if and only if that counter is in the window, for every 32-bit expected counter |
| LoRaLink.AcceptedIffNext | src/radio/lorawan.py:717-744 | so a network frame is: not behind and less than 65536 ahead, or, near the end of the 32 bits, one of the first counters |
| LoRaLink.FrameDelivered | src/radio/lorawan.py:744-768 | an accepted frame advances the counter, restarts liveness, runs its commands, yields its payload |
| LoRaLink.RequestsDelivered | src/radio/lorawan.py:744-904 | requests in the header or on port 0 of a network frame are carried out in order as the network meant them |
| LoRaLink.Advances | src/radio/lorawan.py:744-747 | an accepted frame is authentic at the counter tried, and the next expected one is just past it |
| LoRaLink.NeverTwice | src/radio/lorawan.py:717-744 | once the expected counter is past it, an accepted frame is accepted again exactly from the last 65536 expected counters of the 32 bits on, if its own is one of the first |
| LoRaRuns.NoCounterSentTwice | src/radio/lorawan.py:640-692 | over all calls and crash points no frame counter is sent twice under one session, and every state is good |
| LoRaRuns.LoggedCounterIsSent | src/radio/lorawan.py:640-674 | the counter logged with an uplink is the one its frame carries |
| LoRaRuns.DevNoncesExact | src/radio/lorawan.py:349-354 | requests share a DevNonce exactly when the draws between them are a multiple of 65536 |
| LoRaRuns.SkippedNonceRepeats | src/radio/lorawan.py:448-471 | a reachable run of 65536 requests with a repeated nonce |
| LoRaRuns.ForgottenOnThe96th | src/radio/lorawan.py:609-627 | without a verified downlink the session lasts 95 uplink calls and ends on the 96th |
| LoRaJoins.JoinRefusedExactly | src/radio/lorawan.py:529-539 | in every reachable state a JoinAccept is refused if and only if its AppNonce was accepted before, no restart undid that, and at most seven that stand were accepted since |
| LoRaJoins.JoinAcceptedTwice | src/main.py:1512-1514 | for every device a run from power-on accepts one JoinAccept twice |
| LoRaReplay.HeardTwiceOnlyIfLost | src/radio/lorawan.py:744-747 | over all calls and crash points, a session's counter is followed by one as low only if a restart came before its acceptance was persisted |
| LoRaReplay.NoFrameTwice | src/radio/lorawan.py:717-747 | nor is the same frame accepted twice otherwise |
| LoRaReplay.ReplayExact | src/radio/lorawan.py:717-747 | in every reachable state, exactly which accepted frames would be accepted again |
| LoRaReplay.ForgottenByPowerCut | src/app/workers.py:644-645 | from any state: a downlink heard, then power lost before the next save, and the receiver is what it was before, free to listen |
| LoRaReplay.GenuineSame | src/radio/lorawan.py:717-744 | the same receiver accepts the same frames at the same counters |
| LoRaReplay.FrameAcceptedTwice | src/app/workers.py:644-645 | for every device a run from power-on accepts one frame twice at one counter of one session |
| DeviceCommands.DeviceCommandDispatcher.Apply | src/cloud/device_commands.py:193-234 | the whole call: eviction, cached answer, refusals in order, hardware, storing |
| DeviceCommands.DeviceCommandDispatcher.EvictExpired | src/cloud/device_commands.py:242-245 | exactly the entries not yet expired remain, in order |
| DeviceCommands.DeviceCommandDispatcher.LoadHandled | src/cloud/device_commands.py:256-290 | the loader is a fold of dictionary assignments over the usable rows |
| DeviceCommands.SaveLoad | src/cloud/device_commands.py:256-313 | reloading the saved cache gives the same ordered dictionary |
| DeviceCommands.LoadedExactly | src/cloud/device_commands.py:256-290 | from any rows the cache remembers exactly what the last usable row of each id says |
| DeviceRuns.DeliveryExact | src/cloud/device_commands.py:193-254 | until its entry expires an id gets its first outcome; after that the hardware is called if and only if nothing is wrong with the command, else the first thing wrong is answered, and the outcome kept until its expiry or a day |
| DeviceRuns.AtMostOnce | src/cloud/device_commands.py:193-313 | over deliveries, expiries and restarts each id reaches the hardware at most once, expiry steady |
| DeviceRuns.FromBoot | src/cloud/device_commands.py:193-313 | the same from an empty cache |
| DeviceRuns.LaterExpiryReachesTwice | src/cloud/device_commands.py:236-245 | a family of redeliveries with a later expiry that reach the hardware twice |
| CommandWorker.Worker.DeliverDeviceResult | src/app/workers.py:785-811 | a result is unposted afterwards exactly when its post failed; room is made from the oldest |
| CommandWorker.Worker.RetryUnposted | src/app/workers.py:779-783 | a round of retries leaves exactly those that failed again, in order |
| CommandWorker.KeptExactly | src/app/workers.py:785-811 | an unposted result is kept until its own next post if and only if never more than 64 places are needed from it on |
| CommandWorker.KeptUntilPosted | src/app/workers.py:779-811 | so it is kept while those behind it and the results new to the list are fewer than 64, however often the others fail again |
| CommandWorker.DroppedExactly | src/app/workers.py:785-811 | while every post fails that is exact |
| PhSession.PhCalibration.Handle | src/cloud/device_commands.py:315-400 | session state after one analog calibration step, and exactly when it is applied |
| PhSession.PhCalibration.ReadAnalogPoint | src/cloud/device_commands.py:368-378 | the stable median of five readings, or nothing |
| PhSession.StableIsClose | src/cloud/device_commands.py:368-378 | a stored voltage is a reading and within the spread of all the others |
| PhSession.StableExactly | src/cloud/device_commands.py:368-378 | a point is stored exactly when five readings lie within 0.02 V, and then the one with three at most and three at least it |
| PhSession.SortedAscends | src/cloud/device_commands.py:368-378 | the median is taken from an ascending permutation of the readings |
| PhSession.FinishUsesLastPoints | src/cloud/device_commands.py:335-400 | a finish uses, per buffer, exactly the last stable point since the calibration began |
| Readings.WQM1Database.InsertReading | src/storage/database.py:282-324 | a new pending row under a new id, nothing else changed |
| Readings.WQM1Database.GetUnsynced | src/storage/database.py:326-338 | the oldest pending rows up to the limit, oldest first |
| Readings.WQM1Database.MarkSynced | src/storage/database.py:340-349 | exactly the named rows that exist become synced |
| Readings.WQM1Database.MarkFailedPermanent | src/storage/database.py:351-364 | exactly the named rows that exist become permanently failed |
| Readings.WQM1Database.BumpSyncAttempts | src/storage/database.py:366-375 | exactly the named rows count one more attempt |
| Readings.WQM1Database.Rotate | src/storage/database.py:393-446 | which rows one rotation removes, class by class |
| Readings.RotatedDownToTheCap | src/storage/database.py:393-446 | what is left is the cap, or the pending rows; pending ones go only when allowed and last |
| Readings.WQM1Database.ReadResults | src/cloud/client.py:335-346 | the loop collects exactly the batch rows the list calls stored or failed |
| Readings.WQM1Database.ResolveBatch | src/cloud/client.py:316-370 | every batch row ends as an arbitrary reply dictates, no other row changes, and the count returned is that of rows called stored |
| Readings.ReplyMeans | src/cloud/client.py:316-346 | row by row: an attempt counted, all stored by a coarse reply, else failed, stored or left by what the list says of it |
| Readings.CountsStored | src/cloud/client.py:347-370 | the count is of the entries that call a row of the batch stored |
| ReadingRuns.StaysFaithful | src/storage/database.py:282-446 | one event keeps every row as inserted and in the state of the server's last word |
| ReadingRuns.NoReadingIsLost | src/storage/database.py:282-446 | over all runs the legacy flag is in step and no reading vanishes unheard |
| Migration.Database.Execute | src/storage/database.py:158-263 | one statement under SQLite's implicit transactions; no column is added twice |
| Migration.Database.UpgradeTo | src/storage/database.py:158-181 | one version's block, ALTERs for the missing columns and then the transaction |
| Migration.Database.Migrate | src/storage/database.py:151-263 | a completed migration is the upgrade of the file there was |
| Migration.RaisedOk | src/storage/database.py:158-263 | each block leaves what the next version needs and upgrades to the same file |
| MigrationRuns.PlanCut | src/storage/database.py:151-263 | cut off after any statement, what is on disk upgrades to the same file |
| MigrationRuns.MigratesFromAnywhere | src/storage/database.py:151-263 | from version 1 to 7, with any number of crashes, version 7 with every column, id and cell |
| MigrationRuns.StatesSurvive | src/storage/database.py:158-181 | before version 2 the legacy flag decides the state; later states survive |
| MigrationRuns.CellsSurvive | src/storage/database.py:151-263 | every other cell survives, new attempts start at zero and other new cells are empty |

## Left out

- HTTP, MQTT, the web pages, GPIO, SPI, I2C and UART drivers, and systemd calls: each is a step that succeeds or fails, given as a parameter.
- AES, CMAC, Ed25519, tar extraction and sha256: AES is any lawful permutation, the digest any function; a verified bundle is a parameter, and the bundle of version v is taken to carry VERSION = v.
- Sensor statistics (medians over windows, drift, adaptive baselines): the suspended set, thresholds and budget verdicts of one evaluation are inputs of the hold and the rules.
- Floating point: readings are reals, rounding is half to even of a real, times are integers.
- Races inside one call: every public call and every timer thread is one atomic step.
- Actuation.AlwaysOwned: assumes relay writes that succeed, and an interlock that writes the hold's own interlock channel; failing writes are the subject of HoldPlant.
- IrrigationHold.Engine.Observe: the list of reasons, the since-time and the status payload are reporting only and not modelled.
- Rules.RulesEngine.Evaluate: the hourly on-time budget and adaptive thresholds come in as one verdict per rule, because the budget keys on the hour of day and only refuses ONs.
- Rules.RulesEngine.Apply: relay writes succeed; the program logs one that raises and goes on with the next action.
- Rules.RulesEngine.ProcessDownlink: relay writes succeed here too.
- RuleRuns.CooldownKept: the drops of one evaluation share one stamp, though the code reads the clock for each.
- Relay.RelayController.AllOff: a pin write that raises in the middle is not modelled.
- Ota.Agent.Apply: the record is taken to be written; the program logs a failed write of it and flips all the same.
- OtaSafety.CheckedRunsAreGood: the same; `OtaSafety.UnrecordedSuccessThenDowngrade` shows what an unwritten record of success can lead to.
- Ota.Agent.CheckAndApply: an exception after the flip is a crash; download, signature and free-space checks are one verdict.
- LoRaMac.LoRaWANMAC.Join: the channel draw and the timing of the receive windows are not modelled; what comes in is a parameter.
- LoRaMac.LoRaWANMAC.SendUplink: nor are they here.
- LoRaMac.LoRaWANMAC.ProcessDownlink: the call that fails on a payload of more than 255 blocks leaves the state as it is; its exception is a payload of nothing.
- LoRaParams.SaveRestore: values of a wrong type in a damaged `mac_params` are not modelled, only values any state of the program saved.
- LoRaRuns.NoCounterSentTwice: persisting is taken to succeed; the program logs a failed one and sends all the same.
- LoRaJoins.JoinRefusedExactly: persisting is taken to succeed there too.
- LoRaReplay.HeardTwiceOnlyIfLost: runs in which the expected counter stays within 32 bits; past them reconstruction itself is wrong.
- LoRaLink.AcceptedIffNext: assumes the digest tells apart counters that end in the same 16 bits for this one message; so do the other acceptance results.
- DeviceCommands.DeviceCommandDispatcher.Apply: the text encoding of the cache file and a failing write of it are not modelled, and the hardware's answer is a parameter; restarts fall between calls.
- DeviceCommands.DeviceCommandDispatcher.LoadHandled: a file that is no list, or an item that is no pair of id and body, is not modelled.
- PhSession.PhCalibration.Handle: the RS485 probe's session and the wording of messages are left out, being simpler than the analog one.
- Readings.WQM1Database.Rotate: a rotation is one step, though its two deletions are two transactions.
- Migration.Database.Migrate: the CREATE TABLE and CREATE INDEX statements that run before it are taken as done.
- Plain-language texts, status files, LED patterns, captive portal, board detection, smart breaker, Apple Home and MQTT publishing.
