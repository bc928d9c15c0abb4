# SafeChain verification

SafeChain carries emergency alerts over a LoRa mesh. A node raises an event, numbers it from a
persistent counter and repeats it until it is acknowledged. Repeaters flood events and ACKs under
hop limits and duplicate suppression. A gateway deduplicates, journals to flash, reports to a host,
acknowledges, and replays after a reboot. This project models those three devices, their wire
protocol and the network they form, and proves what they keep.

Each stateful component of the firmware is a class whose methods are proved equal to a step
function on its visible state; the theorems are about those functions, over whole runs.

| module | content |
|---|---|
| `Bytes`, `Clock` | fixed-width integers, C strings in `char[6]`, the wrapping millisecond timer |
| `Crc`, `Frames`, `Protocol`, `Integrity` | checksum, 45-byte layout, sealing, checking, relaying, corruption of frames and of flash |
| `Router`, `RouterProperties`, `Flood` | the repeater, its runs, and flooding among any number of repeaters |
| `Journal`, `JournalProperties` | RAM records mirrored to flash, crashes at every persistence point |
| `Registry`, `RegistryProperties` | node liveness over true time, and by name |
| `Gateway`, `GatewayProperties` | the event manager, reporting and ACKs per boot |
| `Node`, `NodeProperties`, `Cadence` | the retry state machine with its flash, crash recovery, timing |
| `System`, `SystemSafety`, `SystemIdentity` | all devices around a lossy channel, end-to-end safety |
| `SystemBeacons`, `SystemDurability`, `FullJournal` | heartbeats, what the gateway never loses, and the limit of that |
| `Reach` | events and ACKs carried over chains of repeaters |

Flash is a key-value store whose puts and removes are atomic and survive a power cut; both may fail.
Clock readings, random numbers, battery levels, positions and received frames are parameters, so
every statement is for all of them. The keyed hash is an arbitrary function of the key and the 30
stable bytes; all devices of one run share the key. The channel is the set of all frames sent:
receivers take any of them at any time, any number of times, or never.

`dafny verify dfyconfig.toml` checks everything.

## What does not hold as it stands

Some properties one would expect are false of the code. Each is proved with its exact condition.

* A confirmed event need not have been stored: a full journal still acknowledges
  (`GatewayProperties.AcknowledgedWithoutRecordIff`, and `FullJournal.ConfirmedUnrecorded` for a
  run of the network that gets there).
* An event that is stored, reported and acknowledged need not survive a reboot: it does exactly if
  its index is below 30, one of its two flash writes succeeds and its origin is not empty
  (`SystemDurability.StoredReloadedIff`). Then it also survives all later ones until it is
  committed (`SystemDurability.ReportedUntilRemoved`).
* Storing a frame keeps journal keys distinct, whatever is stored already, if and only if its
  origin has a terminating NUL; any other frame can be stored twice
  (`JournalProperties.DistinctIffTerminated`, `JournalProperties.UnterminatedAppendedTwice`). All
  builders terminate their ids.
* A reboot does not give back the pending frame if its fix truncates to (0, 0) in fixed point
  (`NodeProperties.BootRebuildsIff`, `NodeProperties.GpsFlagLost`).
* "Polls less than 2^32 ms apart" is not enough for any of the three timers: the exact gaps are
  2^32 ms less the backoff for a relay, 2^32 - 60000 ms for the node and 2^32 - 1139999 ms for the
  offline check (`RouterProperties.WindowIffPollingGap`, `Cadence.CadenceIffPollingGap`,
  `Registry.ExactIffPollingGap`).
* The ACK of a replayed record does not wait 500 ms: its start lies in the future, which the
  unsigned test takes for long past (`GatewayProperties.FirstPollAcknowledgesReplay`).
* Not every short burst is rejected: the checksum is stored low byte first, so a burst across the
  border of body and checksum can agree with it. All bursts of at most sixteen bits are rejected if
  and only if the frame is authenticated (`Integrity.BurstsRejectedIffAuthenticated`).
* Event ids repeat after a wrap-around of the counter, and when the counter put of a trigger fails
  (`NodeProperties.IdsRepeatIff`).
* A confirmed event is resumed after a reboot exactly if it was resumable and both marking and
  removing its record failed (`NodeProperties.ConfirmedResumedIff`, with a run in
  `NodeProperties.ConfirmedResumed`).
* A committed event is reloaded exactly if it would have been before and its removal failed
  (`JournalProperties.CommitReloadedIff`, with a run in `JournalProperties.CommittedReloaded`).

Where code and documentation differ the model follows the code: the journal is persistent although
`readme.md` still lists that as open, a flash slot takes 50 bytes and not the 46 of the comment in
`gateway_journal.h`, and there is no legacy packet path any more.

## Model

| member | source | states |
|---|---|---|
| `SystemSafety.ConfirmedWasReported` | Safechain_Node/emergency.cpp:273-289 | over every run of nodes, repeaters and one gateway on a channel that loses, duplicates and reorders frames, with failed flash writes and removals and power cuts at any flash write, an event with the key of each confirmed one had been stored by the gateway and was on an event line to the host in some boot, or had met a journal with all 100 records in use |
| `SystemDurability.ReportedUntilRemoved` | Safechain_Gateway/gateway_journal.cpp:100-253 | on the same runs an emergency that is stored below index 30 with one of its two flash writes succeeding is afterwards in RAM and restorable from flash at its index, and its line has been printed in the current boot, with the type, position, battery level, attempt, hops and RSSI of the frame that was stored, through any number of reboots with interrupted loads and replays, until the host commits its key and the removal succeeds |
| `SystemDurability.StoredSecuredIff` | Safechain_Gateway/gateway_journal.cpp:184-222 | a newly stored emergency is restorable from flash at once if and only if its index is below 30, one of the two writes succeeds and its origin is not empty |
| `SystemDurability.StoredReloadedIff` | Safechain_Gateway/gateway_journal.cpp:100-139 | a power cut and a boot right after storing, reporting and acknowledging an emergency give its record back under that condition and no other |
| `SystemDurability.StepKeeps` | Safechain_Gateway/event_manager.cpp:121-344 | each of the thirteen kinds of step, except a successful removal of the key, keeps a restorable and reported record so |
| `SystemDurability.BootSecures` | Safechain_Gateway/event_manager.cpp:144-188 | a boot from flash that would restore a record reloads it at its index, keeps it restorable while the replay writes, and prints its line |
| `SystemDurability.CutsKeep` | Safechain_Gateway/gateway_journal.cpp:100-139 | any number of boots cut short, while loading or replaying, leave the record restorable |
| `FullJournal.ConfirmedUnrecorded` | Safechain_Gateway/gateway_journal.cpp:220-221 | the full journal cannot be left out there: for every node id there is a run of one node and the gateway, without loss or power cut, in which a hundred events are stored and the next one is confirmed though none with its key was |
| `SystemSafety.NothingIsInvented` | Safechain_Gateway/event_manager.cpp:268-330 | on the same runs every frame on the air passes every receiver's check, and every journal record and every event line for the host, in this and earlier boots, tells what was passed to a trigger of the named node: the key pressed if it is 1 to 4 and NONE otherwise, the position within one unit of 10^-7 degrees, cut off toward zero, and the battery level |
| `SystemSafety.TriggeredFact` | Safechain_Node/emergency.cpp:106-145 | the frame a trigger builds carries the node's name, the next number of its counter, and what was passed to the trigger |
| `SystemSafety.FixedNear` | Safechain_Node/emergency.cpp:78-80 | the fixed-point position is the one passed in, in units of 10^-7 degrees, cut off toward zero and with its sign |
| `SystemBeacons.HeartbeatsAreTrue` | Safechain_Gateway/event_manager.cpp:236-263 | on the same runs every heartbeat line for the host tells a position, to the same accuracy, and a battery level that the named node passed to a heartbeat |
| `SystemBeacons.HeartbeatPrinted` | Safechain_Gateway/event_manager.cpp:236-288 | a heartbeat prints exactly one line, with its name, position and battery level and the RSSI it was heard with; no other frame prints such a line |
| `Reach.ConfirmedThroughRelays` | Safechain_Repeater/router.cpp:70-172 | for every node, repeaters of pairwise different names and any two paths of at most twenty of them, any key, position and battery level: there is a run in which the event goes along one path and its ACK along the other, the host reads the line of the event with its hops, and the node sees it confirmed |
| `Reach.PassAll` | Safechain_Repeater/router.cpp:98-139 | a frame with enough hops left goes along any path of idle repeaters that have not seen it: stable fields and tag as they were, one hop and one mark per repeater |
| `SystemSafety.RunKeepsInv` | Safechain_Gateway/event_manager.cpp:144-231 | the system invariant behind both: good frames on the air and in repeaters, nodes and gateway consistent in RAM and flash, confirmed keys accounted for by event lines or full journals |
| `SystemSafety.StepKeepsInv` | Safechain_Repeater/router.cpp:111-172 | each of the thirteen kinds of step keeps that invariant, repeater forwarding included |
| `SystemSafety.CutGood` | Safechain_Gateway/gateway_journal.cpp:100-139 | a gateway boot cut short anywhere, while loading or while replaying, leaves in flash only what was there before |
| `SystemSafety.BetweenWritesGood` | Safechain_Gateway/gateway_journal.cpp:184-234 | a power cut between the two flash writes of a new emergency leaves only raised and stored events in flash |
| `SystemIdentity.RecordsAreTheRaisedEvents` | Safechain_Node/storage.cpp:51-55 | with distinct node names, counter puts that succeed and fewer than 2^32 of them on each node, a node raises one event per id over all reboots, what the gateway holds under a key tells what was passed to that trigger, and what a node sees confirmed was stored and reported to the host with its type, position and battery level or met a full journal |
| `Gateway.EventManager.Init` | Safechain_Gateway/event_manager.cpp:121-129 | boot loads the journal, replays in order what is uncommitted and starts the offline timer |
| `Gateway.EventManager.ReplayUncommitted` | Safechain_Gateway/event_manager.cpp:144-188 | the loop performs, for each rank from 0, one replay turn on the journal as the earlier turns left it |
| `Gateway.EventManager.ReplayOne` | Safechain_Gateway/event_manager.cpp:150-186 | one turn: report, mark as queued if only received, fill an empty ACK slot |
| `Gateway.EventManager.ReportReplay` | Safechain_Gateway/event_manager.cpp:157-167 | one REPLAY_CSV_V1 line with the fields of the record, and the queued mark if it was only received |
| `Gateway.EventManager.AckForReplay` | Safechain_Gateway/event_manager.cpp:169-185 | an empty ACK slot takes a sealed synthetic event of the record, due at a future time with no delay |
| `Gateway.EventManager.ScheduleAck` | Safechain_Gateway/event_manager.cpp:226-231 | the ACK slot holds the frame with a delay of 100 to 299 ms, replacing any ACK still waiting |
| `Gateway.EventManager.HandleHeartbeat` | Safechain_Gateway/event_manager.cpp:236-263 | a heartbeat counts, refreshes the registry a second time and is reported; the journal and the ACK slot stay |
| `Gateway.EventManager.HandleEmergency` | Safechain_Gateway/event_manager.cpp:298-330 | stored exactly if its key is new and a record is free; reported and queued only then; acknowledged whenever asked for |
| `Gateway.EventManager.ProcessFrame` | Safechain_Gateway/event_manager.cpp:268-330 | the whole new state for every frame type |
| `Gateway.EventManager.Update` | Safechain_Gateway/event_manager.cpp:193-221 | sends the due ACK, then runs the offline check when due |
| `Gateway.EventManager.HostCommit` | Safechain_Gateway/event_manager.cpp:335-344 | commits the record with that key, if any, with a flash removal that may fail, and changes nothing else |
| `GatewayProperties.ExactlyOncePerBoot` | Safechain_Gateway/event_manager.cpp:144-188 | over every boot and run each key is the key of exactly one event line, and these are the keys in RAM; a waiting ACK answers an emergency whose key is recorded, or the journal is full |
| `GatewayProperties.ReplayExactlyOnce` | Safechain_Gateway/gateway_journal.cpp:144-162 | the rank-select replay reports every reloaded record exactly once, in slot order, although it changes statuses while it iterates |
| `GatewayProperties.RunKeepsInv` | Safechain_Gateway/event_manager.cpp:268-344 | over every run of a boot the invariant on keys, statuses, reports and ACKs holds, no record moves or changes its payload, and statuses never go back |
| `GatewayProperties.StepKeepsInv` | Safechain_Gateway/event_manager.cpp:193-344 | each received frame, poll or commit keeps that; a frame that is no emergency, so any heartbeat or test, leaves journal and ACK slot alone |
| `GatewayProperties.BootEstablishesInv` | Safechain_Gateway/event_manager.cpp:121-129 | every boot from sound flash establishes them |
| `GatewayProperties.AcknowledgedWithoutRecordIff` | Safechain_Gateway/gateway_journal.cpp:220-221 | an emergency is acknowledged in any case; afterwards its key is recorded if and only if it was before or a record was free |
| `GatewayProperties.AckWindow` | Safechain_Gateway/event_manager.cpp:193-231 | an emergency that asks for it, stored, known or turned away, is answered by no poll within 100 ms and by the first after 299 ms, once: with a sealed ACK under the gateway's name that carries the name, number, type and hop limit of the event |
| `GatewayProperties.CountersTell` | Safechain_Gateway/event_manager.cpp:193-330 | modulo 2^32 and over every boot and run, the counters tell how many frames came, how many lines of each kind were printed and how many ACKs were sent, and every emergency either printed its line or counts as a duplicate |
| `Gateway.PositionsInRange` | Safechain_Gateway/gateway_journal.cpp:144-162 | the replay list is, in order, exactly the records in use that are not committed |
| `GatewayProperties.FirstPollAcknowledgesReplay` | Safechain_Gateway/event_manager.cpp:181-183 | the ACK of the first replayed record goes out at the first poll after boot, whenever that is, not after 500 ms |
| `GatewayProperties.ReplayAckStart` | Safechain_Gateway/event_manager.cpp:169-185 | the turn that fills the ACK slot sets its start 500 ms and 300 ms for each rank after the boot, and no delay |
| `GatewayProperties.ReloadKeepsStatus` | Safechain_Gateway/gateway_journal.cpp:100-139 | a reloaded record was in use at its index with its payload and comes back queued, even if the write of that status had failed; unless the removal of a commit failed it comes back exactly as it was |
| `GatewayProperties.InterruptedBootSound` | Safechain_Gateway/gateway_journal.cpp:100-139 | flash stays sound through boots cut short at any slot or replay turn |
| `GatewayProperties.CrashBetweenWrites` | Safechain_Gateway/gateway_journal.cpp:184-222 | flash is sound between the append and the queued mark of one event |
| `Journal.GatewayJournal.NvsWriteSlot` | Safechain_Gateway/gateway_journal.cpp:45-61 | a checksummed slot is put for the first thirty indices; a failed put changes nothing |
| `Journal.GatewayJournal.NvsReadSlot` | Safechain_Gateway/gateway_journal.cpp:63-87 | a missing slot, one of another size or magic, and one whose checksum does not fit are unreadable |
| `Journal.GatewayJournal.NvsClearSlot` | Safechain_Gateway/gateway_journal.cpp:89-95 | removes one mirrored slot; a removal that fails changes nothing |
| `Journal.GatewayJournal.Init` | Safechain_Gateway/gateway_journal.cpp:100-139 | thirty slots loaded at their own index, records without origin and committed ones dropped and cleared, the count exact |
| `Journal.GatewayJournal.ReplayCount` | Safechain_Gateway/gateway_journal.cpp:144-151 | the number of used uncommitted records |
| `Journal.GatewayJournal.GetReplayRecord` | Safechain_Gateway/gateway_journal.cpp:153-162 | the record of the given rank among them |
| `Journal.GatewayJournal.FindIndex` | Safechain_Gateway/gateway_journal.cpp:167-175 | the first used record with the key, or -1 |
| `Journal.GatewayJournal.AppendIfNew` | Safechain_Gateway/gateway_journal.cpp:184-222 | first-fit store of a new key with its flash write; nothing changes for a known key or a full journal |
| `Journal.GatewayJournal.MarkHostQueued` | Safechain_Gateway/gateway_journal.cpp:227-234 | status and slot of that one record |
| `Journal.GatewayJournal.MarkHostCommitted` | Safechain_Gateway/gateway_journal.cpp:241-253 | committed in RAM, gone from flash if the removal succeeds, still in use |
| `JournalProperties.StepKeepsInv` | Safechain_Gateway/gateway_journal.cpp:45-253 | each append, queue, commit or reboot keeps the representation invariant |
| `JournalProperties.TerminatedAppendsNewKey` | Safechain_Gateway/gateway_journal.cpp:185-192 | a terminated origin is stored under the key it is looked up by |
| `Journal.ReadAfterWrite` | Safechain_Gateway/gateway_journal.cpp:45-87 | a written slot reads back as the record, other slots as before |
| `Journal.FoundIffWritten` | Safechain_Gateway/gateway_journal.cpp:45-87 | what can be read from a slot is exactly what a put has written there, with its magic and its checksum |
| `Integrity.DamagedSlotUnreadable` | Safechain_Gateway/gateway_journal.cpp:63-87 | whatever sixteen consecutive bits of a written slot are damaged, the slot is unreadable and boot leaves its record unused |
| `Integrity.SlotBytesInjective` | Safechain_Gateway/gateway_journal.cpp:45-61 | the bytes under the checksum agree if and only if all fields of the record do |
| `JournalProperties.RunKeepsInv` | Safechain_Gateway/gateway_journal.cpp:45-253 | over every run with failing writes and removals and reboots cut short: distinct keys, known statuses, and no slot holds what RAM does not or a later status; if the removals of commits succeed, no slot restores what RAM has committed |
| `JournalProperties.StepKeepsExact` | Safechain_Gateway/gateway_journal.cpp:45-253 | when writes succeed, slot i is exactly record i while that is used and uncommitted, and otherwise restores nothing |
| `JournalProperties.RunKeepsExact` | Safechain_Gateway/gateway_journal.cpp:45-253 | and that over every run |
| `JournalProperties.BootExact` | Safechain_Gateway/gateway_journal.cpp:100-139 | every boot makes it so, whatever flash holds |
| `JournalProperties.AppendKeepsDistinctIff` | Safechain_Gateway/gateway_journal.cpp:184-222 | storing a frame keeps keys distinct if and only if the five-character key it is stored under is not recorded yet |
| `JournalProperties.DistinctIffTerminated` | Safechain_Gateway/gateway_journal.cpp:184-222 | a frame is stored by every journal with distinct keys so that they stay distinct, if and only if its origin id is terminated |
| `JournalProperties.UnterminatedAppendedTwice` | Safechain_Gateway/gateway_journal.cpp:185-192 | every frame with a six-character origin id is recorded twice from an empty journal and the keys collide |
| `JournalProperties.AppendIsDurable` | Safechain_Gateway/gateway_journal.cpp:184-222 | a successful store below index 30 makes the record durable |
| `JournalProperties.DurableUntilRemoved` | Safechain_Gateway/gateway_journal.cpp:100-253 | a durable record stays at its index with its key and payload over every run of operations, failed writes and removals, and reboots until a removal of its key succeeds |
| `JournalProperties.CommitMakesGone` | Safechain_Gateway/gateway_journal.cpp:241-253 | after a commit no slot holds a record in use with the key if and only if the removal succeeded or none did before |
| `JournalProperties.CommitReloadedIff` | Safechain_Gateway/gateway_journal.cpp:100-139 | after a commit boot reloads a record with the key if and only if it would have before and the removal failed |
| `JournalProperties.CommittedReloaded` | Safechain_Gateway/gateway_journal.cpp:241-253 | that happens: any event with a terminated, non-empty origin, stored, queued and committed with a failed removal, is loaded again by the next boot |
| `JournalProperties.CommittedStaysGone` | Safechain_Gateway/gateway_journal.cpp:100-253 | a committed key is never reloaded unless it is received or queued again |
| `JournalProperties.CapacityUnderFirstFit` | Safechain_Gateway/gateway_journal.cpp:184-222 | after a boot with u records and n stores, whatever is committed between, a new key is accepted iff u + n < 100 and goes to a mirrored slot iff u + n < 30 |
| `Registry.NodeRegistry.Update` | Safechain_Gateway/event_manager.cpp:17-58 | refreshes the first record with that id, else takes the first free one, else nothing |
| `Registry.NodeRegistry.CheckOffline` | Safechain_Gateway/event_manager.cpp:60-76 | exactly the used nodes silent for 18 minutes of 32-bit time become offline |
| `RegistryProperties.RegistryByName` | Safechain_Gateway/event_manager.cpp:17-76 | whatever is heard and polled, with terminated ids: the slots hold the first twenty names heard, in that order and none twice, each with the time, RSSI and battery level of the last frame under that name and the numbers of its frames and heartbeats; later names are turned away |
| `RegistryProperties.GatewayKnowsNodes` | Safechain_Gateway/event_manager.cpp:236-275 | so does the registry of a gateway after every boot and every run of it, where a heartbeat counts twice |
| `RegistryProperties.OfflineByName` | Safechain_Gateway/event_manager.cpp:60-76 | a registered name is Offline only after 18 minutes without a frame of its own, and not Offline at a poll only within 19 minutes of its last one |
| `RegistryProperties.NamesAreHeard` | Safechain_Gateway/event_manager.cpp:19-58 | the names are pairwise different and are those of the frames heard |
| `Registry.OfflineExactly` | Safechain_Gateway/event_manager.cpp:60-76 | over true time a node is offline only after 18 minutes of silence, and online at a poll only before 18 minutes and 60 seconds |
| `Registry.ExactIffPollingGap` | Safechain_Gateway/event_manager.cpp:216-220 | that holds in all runs if and only if polls are at most 2^32 - 1139999 ms apart |
| `Node.Storage.NextEventCounter` | Safechain_Node/storage.cpp:51-55 | the counter plus one in 32 bits is returned, and stored if the put succeeds |
| `Node.Storage.SavePendingEvent` | Safechain_Node/storage.cpp:61-69 | the record with magic and checksum, or nothing if the put fails |
| `Node.Storage.LoadPendingEvent` | Safechain_Node/storage.cpp:71-88 | the saved record, and nothing for a missing blob, one of another size or magic, and one whose checksum does not fit |
| `Node.Storage.ClearPendingEvent` | Safechain_Node/storage.cpp:90-92 | no record is left if the removal succeeds; the counter stays |
| `Node.LoadAfterSave` | Safechain_Node/storage.cpp:61-88 | what was saved is what is loaded |
| `Node.LoadedIffSaved` | Safechain_Node/storage.cpp:61-88 | what can be loaded is exactly what a save has written, with its magic and its checksum |
| `Integrity.DamagedRecord` | Safechain_Node/storage.cpp:71-88 | whatever sixteen consecutive bits of a saved record are damaged, what can still be loaded is that record but for the time of its last update; nothing can if the damage is in front of the checksum or within it |
| `Integrity.DamagedRecordNeverMisleads` | Safechain_Node/emergency.cpp:291-319 | so a boot resumes nothing or the very event that was saved |
| `Integrity.BlobBytesInjective` | Safechain_Node/storage.cpp:61-69 | the bytes under the checksum agree if and only if all fields of the record do |
| `Node.EmergencyManager.constructor` | Safechain_Node/emergency.cpp:27-33 | an idle manager under the id cut to five characters |
| `Node.EmergencyManager.SaveJournal` | Safechain_Node/emergency.cpp:82-97 | the projection of the pending frame is saved, nothing without one |
| `Node.EmergencyManager.Trigger` | Safechain_Node/emergency.cpp:106-145 | counter put, then the frame, then its record put, then the transmit phase; either put may fail |
| `Node.EmergencyManager.TransmitNow` | Safechain_Node/emergency.cpp:150-179 | saved before it is sent, with the retry count as attempt, and the ACK timer starts |
| `Node.EmergencyManager.ScheduleRetry` | Safechain_Node/emergency.cpp:181-210 | the next attempt resealed and saved with its backoff, or giving up after three |
| `Node.EmergencyManager.MarkFailed` | Safechain_Node/emergency.cpp:212-222 | saved as pending, retried in 60 s |
| `Node.EmergencyManager.MarkConfirmed` | Safechain_Node/emergency.cpp:224-239 | record marked, then removed, either of which may fail; state cleared |
| `Node.EmergencyManager.Update` | Safechain_Node/emergency.cpp:241-268 | at most one due action, by phase; sends exactly in the transmit phase |
| `Node.EmergencyManager.HandleAck` | Safechain_Node/emergency.cpp:273-289 | confirms exactly on an ACK for this id and this event while waiting |
| `Node.EmergencyManager.ResumePending` | Safechain_Node/emergency.cpp:291-319 | what a boot makes of the flash |
| `NodeProperties.RunKeepsInv` | Safechain_Node/emergency.cpp:106-319 | over every run with failing writes and power cuts at any flash write: a frame is pending exactly in the three retrying phases, retry count and stored attempt stay at most 3, the pending frame is a sealed frame of this node |
| `NodeProperties.StepKeepsInv` | Safechain_Node/emergency.cpp:106-319 | each trigger, poll, ACK or power cut keeps it |
| `NodeProperties.PendingSurvives` | Safechain_Node/emergency.cpp:150-319 | a saved event stays pending with its id, type and position over polls, failed writes, foreign ACKs and power cuts until acknowledged or superseded |
| `NodeProperties.TriggerSecures` | Safechain_Node/emergency.cpp:106-145 | a trigger whose record is saved secures its event |
| `NodeProperties.CrashRecovery` | Safechain_Node/emergency.cpp:82-319 | over every run, whatever writes fail: a power cut at any point and a boot resume an event exactly if one is kept (saved last and its end not saved since), and give back exactly that frame, tag and checksum included, if and only if its GPS flag is the one its fixed-point position gives |
| `NodeProperties.ExactRecovery` | Safechain_Node/emergency.cpp:82-319 | so if no fix truncates to (0, 0), every power cut of every run gives back exactly the frame that was saved last, and nothing once the end of its event was saved |
| `NodeProperties.BootKeeps` | Safechain_Node/emergency.cpp:291-319 | what is in flash when a node boots is kept from then on |
| `NodeProperties.ConfirmedResumedIff` | Safechain_Node/emergency.cpp:224-239 | a confirmed event is pending again after a reboot if and only if it was resumable before and both marking and removing its record failed |
| `NodeProperties.ConfirmedResumed` | Safechain_Node/emergency.cpp:224-239 | that happens to every node: raised, sent, acknowledged, both writes fail, and the next boot takes the event up again |
| `NodeProperties.RunKeepsRecoverable` | Safechain_Node/emergency.cpp:82-239 | when saves succeed, flash holds the projection of the pending frame between operations over every run, and nothing to resume when no event is pending |
| `NodeProperties.BootRebuildsIff` | Safechain_Node/emergency.cpp:300-313 | boot rebuilds the pending frame if and only if its GPS flag is the one its fixed-point position gives |
| `NodeProperties.TriggerGps` | Safechain_Node/emergency.cpp:116-134 | a trigger makes it so if and only if a fix does not truncate to (0, 0) |
| `NodeProperties.FlagsTell` | Safechain_Node/emergency.cpp:116-134 | after every run a pending event asks for an ACK, is authenticated, and has its low-battery flag set exactly at 15 percent and below |
| `NodeProperties.GpsFlagLost` | Safechain_Node/emergency.cpp:300 | a fix one centimetre away from (0, 0) loses its GPS flag in a reboot |
| `NodeProperties.EventsNeverMixedUp` | Safechain_Node/storage.cpp:51-92 | below 2^32 triggers, all counted in flash, a pending event is always the one raised with its id, and one whose end was saved, as acknowledged or by removal, never comes back, over every run |
| `NodeProperties.AdvanceKeepsIds` | Safechain_Node/storage.cpp:51-55 | each new id is then above all that were issued before |
| `NodeProperties.OldAckIgnored` | Safechain_Node/emergency.cpp:281-286 | an ACK for an earlier event changes nothing while a later one is pending, across reboots and even if a write of the later one failed; if its record was saved it is pending |
| `NodeProperties.ConfirmedIff` | Safechain_Node/emergency.cpp:273-289 | an ACK confirms exactly if the node has sent its event and waits, and the ACK carries this name and number; any other frame, or one at any other time, changes nothing |
| `NodeProperties.ShownForASecond` | Safechain_Node/emergency.cpp:224-268 | a confirmation is shown for a second of true time, and then the node is idle; nothing is sent meanwhile |
| `NodeProperties.SavedTells` | Safechain_Node/emergency.cpp:82-97 | a successful save puts the pending event as it stands into flash, with its state and the time of the save |
| `NodeProperties.FreshIds` | Safechain_Node/emergency.cpp:27-33 | a node with erased flash satisfies the invariants the last three start from |
| `NodeProperties.IdsRepeatIff` | Safechain_Node/storage.cpp:51-55 | two triggers get the same id if and only if the successful counter puts from the first up to the second are a multiple of 2^32: a whole wrap-around, or none because the put of the first failed |
| `NodeProperties.ResealedBuilt` | Safechain_Node/emergency.cpp:150-208 | resealing with another attempt and time gives the frame the builder would give |
| `Cadence.RetransmissionCadence` | Safechain_Node/emergency.cpp:150-268 | an event neither confirmed nor superseded is sent for ever: attempts 0, 1, 2, 3, 0, ..., the same event, the gaps between them 15.6 to 15.9 s, 16.8 to 17.4 s, 19 to 20 s and 75 s and up to three polling gaps more, and never behind the longest period |
| `Cadence.SlowPollsStarve` | Safechain_Node/emergency.cpp:54-56 | with any gap above 2^32 - 60000 ms there are polls under which a failed event is never sent again |
| `Cadence.FailsInTheEnd` | Safechain_Node/emergency.cpp:181-222 | every pending event fails under polls that come exactly when due |
| `Cadence.CadenceIffPollingGap` | Safechain_Node/emergency.cpp:106-268 | every trigger of every node is followed by that cadence, under all polls at most a given gap apart, if and only if the gap is at most 2^32 - 60000 ms |
| `Cadence.TriggerStarts` | Safechain_Node/emergency.cpp:106-145 | a trigger starts that cadence |
| `Cadence.BootStarts` | Safechain_Node/emergency.cpp:291-319 | so does a boot that resumes |
| `Router.SeenCache.IsDuplicate` | Safechain_Repeater/router.cpp:47-56 | true exactly for the keys of the last 150 marks |
| `Router.SeenCache.MarkSeen` | Safechain_Repeater/router.cpp:58-65 | the ring then stands for the list with that mark appended |
| `Router.RingIsRecent` | Safechain_Repeater/router.cpp:47-65 | scanning the ring is membership in the last min(n, 150) marks |
| `Router.RepeaterRouter.ShouldRelay` | Safechain_Repeater/router.cpp:70-106 | the answer and the new state, smart cancel included |
| `Router.RepeaterRouter.QueueRelay` | Safechain_Repeater/router.cpp:111-139 | forwarded copy, mark and timers; a frame without hops left has already overwritten the slot |
| `Router.RepeaterRouter.Update` | Safechain_Repeater/router.cpp:144-172 | expires after 30 s, else sends when due, else nothing |
| `Router.RepeaterRouter.Receive` | Safechain_Repeater/Safechain_Repeater.ino:180-214 | RSSI, offer, queue if wanted |
| `Clock.RandomCovers` | Safechain_Repeater/router.cpp:121-130 | every backoff of its range is drawn for some random number |
| `RouterProperties.RunKeepsInv` | Safechain_Repeater/router.cpp:47-139 | any 151 consecutive queued keys are pairwise distinct, and a pending relay carries the newest of them within its hop limit |
| `RouterProperties.StepKeepsInv` | Safechain_Repeater/router.cpp:70-172 | each received frame or poll keeps that, and only adds marks |
| `RouterProperties.AtMostOncePerWindow` | Safechain_Repeater/router.cpp:47-172 | a key goes on the air again only after 150 other keys have been queued |
| `RouterProperties.QueuedIff` | Safechain_Repeater/router.cpp:70-139 | after any run an event, ACK or heartbeat with hops left, sent under another name and not among the last 150 queued, and no other frame, becomes the pending relay: stable fields and tag as they were, one more hop, this name; a second copy of the pending frame from elsewhere cancels it |
| `RouterProperties.RelayedOnce` | Safechain_Repeater/router.cpp:70-172 | polled within 30 s and at least once after the longest backoff of its type, 299 ms for an ACK and 999 ms otherwise, it goes on the air exactly once |
| `RouterProperties.CountersTell` | Safechain_Repeater/router.cpp:70-172 | modulo 2^32 the counters tell how many frames were received and sent, how many were copies of frames queued lately, and how many relays were dropped after 30 s |
| `RouterProperties.Conservation` | Safechain_Repeater/router.cpp:70-172 | received = dropped + relayed + cancelled + overwritten + pending, modulo 2^32 |
| `RouterProperties.WindowIffPollingGap` | Safechain_Repeater/router.cpp:144-172 | every relay is sent between its backoff and 30 s after queueing if and only if polls are at most 2^32 ms less the backoff apart |
| `RouterProperties.QueuedBackoff` | Safechain_Repeater/router.cpp:121-130 | backoff of 100 to 299 ms for an ACK and 300 to 999 ms otherwise |
| `Flood.FloodTerminates` | Safechain_Repeater/router.cpp:70-172 | among n repeaters relaying stops after at most W steps, where W counts (n+2)^(hops left) for a copy on the air and n times that plus one for a pending relay, even if duplicate suppression never helps |
| `Flood.StepDecreases` | Safechain_Repeater/router.cpp:111-139 | each arrival, loss, transmission or expiry makes W smaller |
| `Flood.FloodWithinLimits` | Safechain_Gateway/safechain_protocol.cpp:199-215 | no run pushes a frame past its hop limit |
| `Protocol.ComputeHmac32` | Safechain_Gateway/safechain_protocol.cpp:34-73 | fills the 30 stable bytes in order and hashes exactly them |
| `Protocol.FinalizeFrame` | Safechain_Gateway/safechain_protocol.cpp:89-100 | flag, then tag, then checksum |
| `Protocol.ValidateFrame` | Safechain_Gateway/safechain_protocol.cpp:106-129 | version, checksum, and the tag if flagged |
| `Protocol.BuildEventFrame` | Safechain_Gateway/safechain_protocol.cpp:134-164 | the sealed event frame of its arguments, with the given hop limit or the default of 20 |
| `Protocol.BuildAckFrame` | Safechain_Gateway/safechain_protocol.cpp:169-193 | the sealed ACK of its arguments |
| `Protocol.PrepareRelay` | Safechain_Gateway/safechain_protocol.cpp:199-215 | one hop more, new sender, new checksum; refused exactly without hops left |
| `Protocol.AcceptedIffSealed` | Safechain_Gateway/safechain_protocol.cpp:89-129 | the frames that validate are exactly the version-1 frames that are fixed points of finalizing or, without the authentication flag, of computing the checksum |
| `Protocol.SealedTag` | Safechain_Gateway/safechain_protocol.cpp:34-73 | the tag of a sealed frame is the hash of its 30 stable bytes under the key of the device that sealed it |
| `Protocol.ForeignKeyIff` | Safechain_Gateway/safechain_protocol.cpp:106-129 | after any admissible chain of relays a device with another key accepts a sealed frame if and only if both keys hash its stable bytes to the same tag |
| `Protocol.EventFrameTells` | Safechain_Gateway/safechain_protocol.cpp:134-164 | a built event validates and says what was passed to the builder, flags included |
| `Protocol.HeartbeatTells` | Safechain_Node/Safechain_Node.ino:591-618 | so does a heartbeat, which asks for no ACK |
| `Protocol.MultiHopValidity` | Safechain_Gateway/safechain_protocol.cpp:199-215 | an accepted frame validates after every admissible chain of RSSI updates and relays, with stable fields and tag unchanged and the hops counted |
| `Frames.InnerInjective` | Safechain_Gateway/safechain_protocol.cpp:34-73 | the 30 bytes under the tag agree if and only if the twelve stable fields do |
| `Frames.ParseSerialize` | Safechain_Gateway/safechain_protocol.h:79-107 | parsing the 45 bytes gives the frame back |
| `Frames.SerializeParse` | Safechain_Gateway/safechain_protocol.h:79-107 | and every 45 bytes are the bytes of the frame they parse to |
| `Crc.FoldByte` | Safechain_Gateway/safechain_protocol.cpp:13-17 | the inner loop on the 16-bit word is one step of the register |
| `Crc.ShiftIsUint16` | Safechain_Gateway/safechain_protocol.cpp:15 | shifting the register is (crc & 0x8000) ? (crc << 1) ^ 0x1021 : crc << 1 on 16-bit words |
| `Crc.LoadIsUint16` | Safechain_Gateway/safechain_protocol.cpp:13 | xoring a byte into the top half of the register is crc ^ (byte << 8) |
| `Crc.CalcCrc16` | Safechain_Gateway/safechain_protocol.cpp:10-19 | the two loops compute the checksum of the whole message from 0xFFFF |
| `Crc.BytewiseIsSerial` | Safechain_Gateway/safechain_protocol.cpp:10-19 | that is the serial division of the message, most significant bit first, by x^16 + x^12 + x^5 + 1 |
| `Crc.BurstDetected` | Safechain_Gateway/safechain_protocol.cpp:10-19 | equal-length messages that differ only within sixteen consecutive bits have different checksums |
| `Crc.StrikeMovesChecksum` | Safechain_Gateway/safechain_protocol.cpp:10-19 | changing the last byte of any message by 0x89 changes exactly the low byte of its checksum, by 0xA1 |
| `Integrity.CorruptionRejected` | Safechain_Gateway/safechain_protocol.cpp:106-129 | any damage within sixteen consecutive bits of the 45 bytes of an authenticated frame, so any damaged byte or pair of bytes, is rejected |
| `Integrity.BurstsRejectedIffAuthenticated` | Safechain_Gateway/safechain_protocol.cpp:106-129 | for every frame that validates: all such damage is rejected if and only if the frame is authenticated |
| `Integrity.StrikeEscapes` | Safechain_Gateway/safechain_protocol.cpp:106-129 | without authentication, a sixteen-bit burst over the last body byte and the low checksum byte gives another frame that validates |
| `Integrity.OneSidedBurstRejected` | Safechain_Gateway/safechain_protocol.cpp:106-129 | with or without authentication, a burst inside the body or inside the stored checksum is rejected |
| `Clock.DueRefinesTrueTime` | Safechain_Node/emergency.cpp:54-56 | the unsigned elapsed test is never early, and exact below one wrap-around |
| `Bytes.CutKeepsName` | Safechain_Gateway/safechain_protocol.cpp:150-151 | copying an id into five characters and a NUL keeps its name if and only if it was terminated |

## Left out

- Bytes: the three copies of the protocol sources agree, so one is modelled.
- Integrity: padding bytes of stored structs are zero and stay so; damage to them is not modelled.
- Protocol: SHA-256 and HMAC themselves, key provisioning, and keys that differ between devices.
- Node: positions are real numbers and conversion to fixed point truncates exactly; binary rounding of `float` is not modelled.
- NodeProperties.EventsNeverMixedUp: assumes that counter puts succeed; when one fails the next trigger reuses its id, and the statement about which event an id names is lost.
- SystemIdentity.RecordsAreTheRaisedEvents: the same assumption on every node.
- Node: `setEventCounter`, which no code calls, and the write-only `stateSince`.
- Journal: the removals of discarded slots during boot are taken to succeed; a slot that stayed would be discarded again by the next boot.
- Router: the ring array and its index are grouped in a class of their own; they are fields of the router in the source.
- Gateway: a call reads the clock once; nodes alone have a second reading, after the blocking sounds.
- Gateway: at boot the source replays before it loads the network key, so the synthetic event in the ACK slot is sealed under the default key there and under the run's key here; its tag is never sent or checked.
- System: event lines of boots that are cut short are not counted as reported.
- Gateway: the corrupted-packet counter, which nothing in the modelled files counts up, and the text form of host lines.
- System: a device listens or acts, one step at a time; the radio's own collisions are losses.
- Over-the-air configuration frames: range checks and a single-id memory, with no effect on events.
- LoRa driver calls, radio health checks, watchdog, deep sleep, BLE terminal, LED, buzzer, GPS parsing and battery sensing: hardware and user interface.
- Serial command parsing; the host commit takes its key directly.
- Frames without the authentication flag: the channel carries what the modelled devices send.
