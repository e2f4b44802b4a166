# Verification of the coop protocols and the mod tools

Machine-checked models of the parts of this repository that hold protocol and state-machine logic, with
proofs of what they promise. `dafny verify dfyconfig.toml` checks all of it (Dafny 4.11).

One host relays to its clients. Every prop, NPC and player of a process is shadowed by an Element with an
id; other peers' Elements are mirrors under the id their owner allocated. The models cover:

- **Prop Elements** (`PropStore`, `PropInterleaving`, `PropTracking`, `PropRefinement`, `PropElementTracker`,
  `NetPump`, `PropSnapshot`): worker threads mark and unmark props while the game thread reaps dead ones,
  flushes deferred destructions, re-seeds after a mass purge and streams snapshots to late joiners.
  `PropInterleaving` is a state machine over the lock scopes of all threads. `PropTracking` has the same calls
  run alone, `PropRefinement` shows that they are those steps with nothing in between, and the classes run
  them in place.
- **Player identity** (`Handshake`, `HandshakeHost`, `HandshakeRuns`, `Nickname`, `PlayersRegistry`): AssignPeerSlot, Join and PlayerJoined over
  FIFO channels, with disconnects, reconnects of the same process, slot reuse and late edges; the names they
  carry; and the slot table behind them, which refines the one the protocol model uses.
- **NPC sync** (`NpcSync`): pairing the two halves of nested spawn calls, and agreement of a client's mirror
  table with the host's manager over any number of host threads, with ids re-issued.
- **Item state** (`ItemActivate`): deferral until a puppet exists, and replay to late joiners, against
  applying every message as it comes.
- **Tools** (`EditDistance`, `SdkDiff`, `CommandLine`, `Paths`): Levenshtein distance by rolling rows, rename
  matching, the command-line sanitizer, path cleaning and remapping.

The number of peers and the sizes of all tables are symbolic; 256, 64, 100, 20, 200, 16384, 32768 and 65536
are the program's own constants. What a call reads from the engine, the session or the clock (liveness,
keys, connection flags, spawn results, time) is a parameter, and so is whatever another subsystem decides.

## What the proofs found

Where the program meets a property only under a condition, the code is modelled as it is and the condition is
proved exact.

- A deferred Flush keeps prop custody exactly when no call in flight names a parked id. A reachable run
  shows an Unmark, stopped between its two locks, taking a re-issued id when this is not respected; a second
  one shows why a Mark's actor must not look dead while the Mark is in flight.
- A re-seed can add Elements and still report 0, in which case connected peers get no new snapshot.
- An empty enumeration stalls the snapshot queue until its slot leaves. The end of a drain leaves slots
  waiting with none served exactly when several are queued and the first is not connected; then ticks serve
  nobody until the next request.
- Identity converges for joined slots as long as no process is assigned a second slot. A process that comes
  back into another slot sends its Join before it handles AssignPeerSlot and announces its old id, which
  `player_handshake.h` and the comment on re-assignment in `players_registry.cpp` do not foresee: a run shows
  the host's mirror of it wrong, the next client of the old slot without a mirror, and that client unable to
  register the returned one. At each such Join the host ends right exactly when the slot is that of the id's
  band and no other slot has the id.
- The comment at `player_handshake.cpp` 357-363 calls the identity exchange order-independent. It is for
  joined slots. A slot that has disconnected while its mirror is still in the host's table is not announced:
  a joiner without a mirror of it is right about it exactly when the slot is ready, and a run shows one that
  is not.
- `SetLocalPeerId` returns without publishing exactly when it moves onto a slot with a mirror, or with an
  Element that has no puppet.
- An id taken before the slot is known and freed after the band switch is the next one minted, outside the
  band that is said to be exclusive.
- All peers show the same name unless the trimmed name is a run of dashes followed by a space.
- A null spawn return leaves the client with the mirror of an Element the host released. If the id is issued
  again first, the new spawn is dropped as a duplicate and the client keeps the old mirror under the new id
  until that id is destroyed. Without null returns no spawn is ever dropped. A Flush between enqueue and
  broadcast of a destroy loses a re-issued NPC's mirror. Runs from the start show both.
- "Latest wins" is right exactly for messages of the class with valid cone angles; a message of another
  class throws the stash away.
- `strip_k2node_ordinal` does not match its own documented example, and an old K2Node function goes
  unreported exactly when it is the last one of its prefix.
- The sanitizer's output re-tokenizes to the kept tokens exactly when the first token is kept or none is;
  it is idempotent without any condition.
- Remapping and reverse lookup are inverse exactly when the first mapping whose target fits also fits the
  source with the same remainder; nested targets break it.

## Model

| member | source | states |
|---|---|---|
| `PropStore.AllocKeepsPartition` | src/votv-coop/src/coop/element/registry.cpp:126-175 | an allocation takes a free id of the pool or, with the stack empty, changes nothing; free stacks and registry stay a partition of the pool |
| `PropStore.FreeKeepsPartition` | src/votv-coop/src/coop/element/registry.cpp:177-190 | freeing a registered id takes it out of the registry and puts it back on top of exactly its range's stack; the partition is kept |
| `PropStore.CollisionsFail` | src/votv-coop/src/coop/element/registry.cpp:126-190 | the branches for an occupied, unregistered, colliding or zero id change nothing but what the code says is lost |
| `PropStore.FreeAllFrees` | src/votv-coop/src/coop/element/element_deleter.cpp:23-38 | a flush frees exactly the parked ids and disturbs no other Element |
| `PropStore.FlushSettles` | src/votv-coop/src/coop/element/element_deleter.cpp:23-38 | after a flush with no call in flight the registry holds exactly the owned ids, unchanged |
| `PropStore.RowsAre` | src/votv-coop/src/coop/element/registry.cpp:255-266 | the snapshot has one row per registered id, in ascending id order, and no other |
| `PropInterleaving.MarkStartKeepsInv` | src/votv-coop/src/coop/prop_element_tracker.cpp:230-246 | the idempotency check step keeps the invariant |
| `PropInterleaving.MarkAllocKeepsInv` | src/votv-coop/src/coop/prop_element_tracker.cpp:263-264 | the allocation step keeps the invariant, including the history of each id |
| `PropInterleaving.MarkInstallKeepsInv` | src/votv-coop/include/coop/element/mirror_manager.h:188-223 | the manager-insert step keeps the invariant |
| `PropInterleaving.MarkCommitKeepsInv` | src/votv-coop/src/coop/prop_element_tracker.cpp:272-290 | the commit-or-drop step keeps the invariant, also when a concurrent Mark of the same actor won |
| `PropInterleaving.UnmarkStartKeepsInv` | src/votv-coop/src/coop/prop_element_tracker.cpp:172-200 | erasing the reverse entry keeps the invariant |
| `PropInterleaving.TakeKeepsInv` | src/votv-coop/src/coop/prop_element_tracker.cpp:201 | Take moves the Element to one hand only, whoever else claims it |
| `PropInterleaving.EnqueueKeepsInv` | src/votv-coop/src/coop/element/element_deleter.cpp:14-21 | Enqueue moves the Element from the hand to the deletion queue |
| `PropInterleaving.DeadRowIsNotBeingMarked` | src/votv-coop/src/coop/prop_element_tracker.cpp:395-398 | a snapshot row found dead is never that of a Mark in flight |
| `PropInterleaving.ReapPairKeepsInv` | src/votv-coop/src/coop/prop_element_tracker.cpp:395-422 | visiting one row keeps the invariant while other threads mark and unmark |
| `PropInterleaving.ReapEndsKeepInv` | src/votv-coop/src/coop/prop_element_tracker.cpp:382-394 | starting a reap on an atomic snapshot, and ending it, keep the invariant |
| `PropInterleaving.FlushKeepsInvIff` | src/votv-coop/src/coop/element/element_deleter.cpp:23-38 | a flush keeps the invariant if and only if no call in flight names a parked id; with no call in flight none does |
| `PropInterleaving.MirrorKeepsInv` | src/votv-coop/src/coop/prop_element_tracker.cpp:80-88 | mirrors of other peers coming and going, and actors dying, keep the invariant |
| `PropInterleaving.MirrorsComeAndGo` | src/votv-coop/src/coop/prop_element_tracker.cpp:80-88 | a mirror is registered and owned under its wire id from install to drop, and the free stacks are not touched |
| `PropInterleaving.StepKeepsInv` | src/votv-coop/src/coop/prop_element_tracker.cpp:172-430 | every lock-scoped step of every thread keeps the custody invariant |
| `PropInterleaving.EveryRunKeepsInv` | src/votv-coop/src/coop/prop_element_tracker.cpp:172-430 | the invariant holds in every reachable state of any number of threads |
| `PropInterleaving.ExactlyOnePlace` | src/votv-coop/src/coop/prop_element_tracker.cpp:186-201 | in every reachable state each id is in exactly one of free stacks, manager, deletion queue, or one thread's hand |
| `PropInterleaving.QuiescentBijection` | src/votv-coop/src/coop/prop_element_tracker.cpp:89-111 | with no call in flight the reverse map and the manager's local Elements are in bijection |
| `PropInterleaving.FlushNeverDoubleFrees` | src/votv-coop/src/coop/element/registry.cpp:177-184 | no flush meets the "double-free?" branch: each id is freed once per allocation |
| `PropInterleaving.MarkingIsReached` | src/votv-coop/src/coop/prop_element_tracker.cpp:230-271 | from the initial state a run leads to a Mark between its manager insert and its commit |
| `PropInterleaving.PausedIsReached` | src/votv-coop/src/coop/prop_element_tracker.cpp:186-201 | from the initial state a run leads to an Unmark stopped between its erase and its Take while the same id is parked |
| `PropInterleaving.WithoutBarrierAnEntryDangles` | src/votv-coop/src/coop/prop_element_tracker.cpp:195-201 | flushing in that state re-issues the id, and the stopped Unmark takes the new prop's Element: its entry names an id nobody owns |
| `PropInterleaving.DeadDuringMarkAnEntryDangles` | src/votv-coop/src/coop/prop_element_tracker.cpp:395-422 | from the state of MarkingIsReached, a reaper that sees the actor of the Mark in flight as dead leaves a dangling entry |
| `PropRefinement.MarkAloneIsMark` | src/votv-coop/src/coop/prop_element_tracker.cpp:230-291 | the steps of a Mark with nothing in between are the sequential Mark, so the drop branch is for races only |
| `PropRefinement.UnmarkAloneIsUnmark` | src/votv-coop/src/coop/prop_element_tracker.cpp:172-202 | the steps of an Unmark with nothing in between are the sequential Unmark |
| `PropRefinement.RowAloneIsEvictRow` | src/votv-coop/src/coop/prop_element_tracker.cpp:395-422 | the steps of the reaper on one row, whatever rows are left, are one eviction if it is dead, nothing otherwise |
| `PropRefinement.ReapAloneIsEvicted` | src/votv-coop/src/coop/prop_element_tracker.cpp:382-430 | the steps of a whole reap with nothing in between evict exactly its victims |
| `PropTracking.MarkBinds` | src/votv-coop/src/coop/prop_element_tracker.cpp:230-291 | a Mark binds the actor unless the role's free stack is empty, with the index captured then, and moves no other Element |
| `PropTracking.UnmarkParks` | src/votv-coop/src/coop/prop_element_tracker.cpp:172-202 | an Unmark parks the actor's Element and forgets the actor; a second one changes nothing |
| `PropTracking.VictimsAreDead` | src/votv-coop/src/coop/prop_element_tracker.cpp:389-398 | one call evicts min(cap, dead) dead local Elements, and all of them if it returns less than its cap |
| `PropTracking.ReapEvicts` | src/votv-coop/src/coop/prop_element_tracker.cpp:382-430 | live locals, mirrors and the entry of a recycled address survive a reap |
| `PropTracking.ReapDrains` | src/votv-coop/src/coop/prop_element_tracker.cpp:382-430 | right after a flush a scan takes its victims off the backlog; one below its cap leaves no dead local Element |
| `PropTracking.FlushKeepsBacklog` | src/votv-coop/src/coop/net_pump.cpp:259 | the flush before the scan changes no dead owned Element |
| `PropTracking.MarkAllExtends` | src/votv-coop/src/coop/prop_element_tracker.cpp:352-358 | the walk keeps every Element and binding, and its new Elements belong to found objects that are still live |
| `PropTracking.NeedsAreBound` | src/votv-coop/src/coop/prop_element_tracker.cpp:352-358 | the walk uses at most one id for each actor that is found, still live, keyed and not yet bound, and with so many to spare binds them all |
| `PropTracking.MarkAllBinds` | src/votv-coop/src/coop/prop_element_tracker.cpp:352-358 | with an id to spare for each such actor, every found, still live, keyed prop is bound after the walk |
| `PropTracking.ReSeedAddsNoDead` | src/votv-coop/src/coop/prop_element_tracker.cpp:352-358 | a re-seed adds no Element that fails the liveness check |
| `PropTracking.ReSeedIsComplete` | src/votv-coop/src/coop/prop_element_tracker.cpp:316-375 | a re-seed on a drained registry gives every live keyed prop an Element that passes the liveness check, also at a purged prop's address |
| `PropTracking.UndrainedReSeedMissesRecycledAddress` | src/votv-coop/src/coop/net_pump.cpp:284-288 | on a registry not drained, a prop at a recycled address is missed |
| `PropTracking.AddedIsZeroIff` | src/votv-coop/src/coop/prop_element_tracker.cpp:344-350 | the re-seed's count is zero if and only if every found address was known or the known set was full |
| `PropTracking.KnownAfterIs` | src/votv-coop/src/coop/prop_element_tracker.cpp:344-350 | the bulk insert takes every found address until the set is full, and nothing else |
| `PropTracking.NewElementIsNotCounted` | src/votv-coop/src/coop/prop_element_tracker.cpp:344-358 | with an address known but not bound, the re-seed makes its Element and counts 0, so there is no re-snapshot |
| `PropElementTrackers.PropElementTracker.MarkPropElement` | src/votv-coop/src/coop/prop_element_tracker.cpp:230-291 | in place, the sequential Mark |
| `PropElementTrackers.PropElementTracker.UnmarkKnownKeyedProp` | src/votv-coop/src/coop/prop_element_tracker.cpp:172-202 | in place, the sequential Unmark, and the actor leaves the known set |
| `PropElementTrackers.PropElementTracker.FlushDeleter` | src/votv-coop/src/coop/element/element_deleter.cpp:23-38 | the loop over the drained queue is the flush |
| `PropElementTrackers.PropElementTracker.SnapshotActors` | src/votv-coop/src/coop/element/registry.cpp:255-266 | the loop over the id table yields the rows |
| `PropElementTrackers.PropElementTracker.ReapDeadLocalPropElements` | src/votv-coop/src/coop/prop_element_tracker.cpp:382-430 | the capped loop evicts exactly the lowest dead local ids, and clears known and processed only where the entry was still theirs |
| `PropElementTrackers.PropElementTracker.SeedWalk` | src/votv-coop/src/coop/prop_element_tracker.cpp:316-359 | the three loops collect, bulk-insert up to the cap and mark, with the counts returned |
| `PumpSpec.SnapshotIsComplete` | src/votv-coop/src/coop/net_pump.cpp:308-343 | when the scan that ends a purge episode has re-seeded, every live keyed prop with a real key has a live local Element and an enumeration started then lists it, given an id for each that the reap left without one |
| `PumpSpec.ScanEffect` | src/votv-coop/src/coop/net_pump.cpp:293-330 | what one flush and scan do to the backlog and the episode flag, and when the re-seed fires |
| `PumpSpec.PurgeDrainBound` | src/votv-coop/src/coop/net_pump.cpp:279-343 | D >= 64 dead at once: exactly one re-seed, at scan floor(D/256) + 1 (+ 1 if D mod 256 >= 64), and nothing dead from scan floor(D/256) + 1 on; D < 64: none |
| `PumpSpec.FiringInNumbers` | src/votv-coop/src/coop/net_pump.cpp:279-343 | the re-seed after 64, 255, 256 or 319 dead comes with the second scan, after 320 with the third |
| `PumpSpec.ReapForgetsDead` | src/votv-coop/src/coop/prop_element_tracker.cpp:402-418 | a scan below its cap forgets exactly the known addresses whose Element is dead |
| `PumpSpec.EdgesForget` | src/votv-coop/src/coop/net_pump.cpp:361-388 | after a tick's edges no slot that has left is pending or current, whichever others left or arrived in that tick |
| `PumpSpec.EdgesEnqueue` | src/votv-coop/src/coop/net_pump.cpp:391-405 | a client slot that has just become ready is pending or current after the edges |
| `PumpSpec.EdgesAreOwn` | src/votv-coop/src/coop/net_pump.cpp:361-405 | over the edge loop a slot gains a place only at its own edge and a waiting one loses it only if it has left or is not connected when its turn comes; with no flag changed nothing changes |
| `PumpSpec.ReadySlotsServed` | src/votv-coop/src/coop/net_pump.cpp:334-341 | the re-snapshot leaves every ready client slot waiting or served, no other slot gains a place, the queue keeps its order and a drain in progress goes on |
| `PumpSpec.FiringReSnapshots` | src/votv-coop/src/coop/net_pump.cpp:308-343 | the scan that ends an episode on a host does that if and only if an address was new to a known set that was not full; any other scan leaves the drain alone |
| `NetPumps.NetPump.SlotEdges` | src/votv-coop/src/coop/net_pump.cpp:361-416 | the edge loop on the real objects: cancel, trigger, and the flags left as the session has them |
| `NetPumps.NetPump.ReapTick` | src/votv-coop/src/coop/net_pump.cpp:259-345 | the throttled tick on the real objects is the flush and, when due, the scan with its episode state, and leaves the Store settled |
| `NetPumps.NetPump.TriggerReadySlots` | src/votv-coop/src/coop/net_pump.cpp:334-341 | the loop re-snapshots every ready client slot in order |
| `SnapshotSpec.PendingStaysDistinct` | src/votv-coop/src/coop/prop_snapshot.cpp:148-161 | no call ever queues a slot twice |
| `SnapshotSpec.CancelForgets` | src/votv-coop/src/coop/prop_snapshot.cpp:279-300 | after a cancel the slot is neither pending nor current and the others keep their order |
| `SnapshotSpec.DrainProgress` | src/votv-coop/src/coop/prop_snapshot.cpp:186-193 | while the target stays connected, t ticks have visited exactly the first 100 t candidates |
| `SnapshotSpec.DrainIsOneShot` | src/votv-coop/src/coop/prop_snapshot.cpp:165-277 | a drain visits every candidate once, in order, judged when visited, sends to its target only, and ends after exactly ceil(n/100) ticks |
| `SnapshotSpec.OneShotInOneWorld` | src/votv-coop/src/coop/prop_snapshot.cpp:165-277 | in an unchanging world the drain sends what one send of everything would |
| `SnapshotSpec.NextAdvances` | src/votv-coop/src/coop/prop_snapshot.cpp:252-272 | at the end of a drain the head of the queue is served and the others move up one place |
| `SnapshotSpec.LeaveAdvances` | src/votv-coop/src/coop/prop_snapshot.cpp:279-300 | a departure serves a queued slot or leaves it no further away |
| `SnapshotSpec.TickAdvances` | src/votv-coop/src/coop/prop_snapshot.cpp:166-277 | each tick with a session serves a queued slot or brings it strictly closer, also when it finds the target gone |
| `SnapshotSpec.AskKeepsPlaces` | src/votv-coop/src/coop/prop_snapshot.cpp:148-161 | a request only joins the tail of the queue |
| `SnapshotSpec.ServedWithinRank` | src/votv-coop/src/coop/prop_snapshot.cpp:165-300 | whatever is requested and whoever else leaves meanwhile, a queued slot is served within the ticks of the drains ahead of it, if at every end of a drain before that the next in line is connected and the enumeration is not empty |
| `SnapshotSpec.LineIsServed` | src/votv-coop/src/coop/prop_snapshot.cpp:252-300 | at the end of a drain, by its last tick, a lost target or a cancel, the next in line is served and the rest keep waiting; nothing else changes the slot served except to none |
| `SnapshotSpec.NextCleans` | src/votv-coop/src/coop/prop_snapshot.cpp:252-259 | with no slot served next nothing is left of the finished drain |
| `SnapshotSpec.StuckIff` | src/votv-coop/src/coop/prop_snapshot.cpp:166-167 | a drain makes no progress in any world if and only if no candidate is left; an empty enumeration starts in that state |
| `SnapshotSpec.NextIdleIff` | src/votv-coop/src/coop/prop_snapshot.cpp:263-271 | the end of a drain leaves slots waiting with none served if and only if several were queued and the first is not connected |
| `SnapshotSpec.IdleServesNobody` | src/votv-coop/src/coop/prop_snapshot.cpp:165-167 | from then on no number of ticks and departures serves anybody |
| `SnapshotSpec.EnumerateIff` | src/votv-coop/src/coop/prop_snapshot.cpp:101-114 | the candidates are exactly the rows whose actor passes the liveness check, once each, in order of their ids |
| `SnapshotSpec.CandidatesAre` | src/votv-coop/src/coop/prop_snapshot.cpp:79-117 | in terms of the registry and the live actors: which candidates an enumeration has, and how many |
| `SnapshotSpec.OneShotIff` | src/votv-coop/src/coop/prop_snapshot.cpp:193-251 | a candidate is sent if and only if it is live and may cross the wire in the world of its tick |
| `SnapshotSpec.TriggerSendsAll` | src/votv-coop/src/coop/prop_snapshot.cpp:125-277 | a slot that asks while nothing is served, and stays connected, is sent every registered prop that stays live and syncable, to it alone, once, within ceil(live/100) ticks; nothing is sent that was not live and syncable |
| `SnapshotSpec.NextSendsAll` | src/votv-coop/src/coop/prop_snapshot.cpp:252-272 | the same for the slot taken from the queue at the end of a drain |
| `PropSnapshots.PropSnapshot.StartEnumerationFor` | src/votv-coop/src/coop/prop_snapshot.cpp:79-117 | the three vectors stay in step and hold the live rows in order |
| `PropSnapshots.PropSnapshot.TriggerForSlot` | src/votv-coop/src/coop/prop_snapshot.cpp:125-163 | starts, queues or ignores a slot |
| `PropSnapshots.PropSnapshot.CancelForSlot` | src/votv-coop/src/coop/prop_snapshot.cpp:279-300 | in place, the cancel and the dequeue |
| `PropSnapshots.PropSnapshot.SendUpTo` | src/votv-coop/src/coop/prop_snapshot.cpp:193-251 | the tick's loop sends the valid candidates up to the limit, in order |
| `PropSnapshots.PropSnapshot.DrainChunk` | src/votv-coop/src/coop/prop_snapshot.cpp:165-277 | in place, one tick of the drain |
| `PropSnapshots.PropSnapshot.OnDisconnect` | src/votv-coop/src/coop/prop_snapshot.cpp:302-318 | forgets everything and returns how many candidates were not visited |
| `Nickname.SanitizeNickname` | src/votv-coop/src/coop/player_handshake.cpp:86-116 | the loops compute the recursive sanitizer |
| `Nickname.SanitizeIsClean` | src/votv-coop/src/coop/player_handshake.cpp:86-116 | for every raw name: 1 to 20 safe characters, no double space, no leading dash, no trailing space or dash |
| `Nickname.FixedPointIff` | src/votv-coop/src/coop/player_handshake.cpp:86-116 | such a name is a fixed point if and only if it has no leading space |
| `Nickname.LeadingSpace` | src/votv-coop/src/coop/player_handshake.cpp:106-116 | the result starts with a space if and only if the trimmed text is a run of dashes and then a space |
| `Nickname.StripFirst` | src/votv-coop/src/coop/player_handshake.cpp:90-104 | taking out the characters no name keeps makes no difference, wherever they stand |
| `Nickname.OneSpaceOfTwo` | src/votv-coop/src/coop/player_handshake.cpp:90-104 | of two spaces in a row, and of one at the start, one makes no difference |
| `Nickname.LessRoomCuts` | src/votv-coop/src/coop/player_handshake.cpp:104 | the length limit cuts the same text shorter |
| `Nickname.TrimEndFacts` | src/votv-coop/src/coop/player_handshake.cpp:106-108 | the end trim cuts spaces and dashes only, and all of them |
| `Nickname.NamelessIsPlayer` | src/votv-coop/src/coop/player_handshake.cpp:116 | a name without a letter, digit, underscore or dot becomes "Player" |
| `Nickname.KeptToTheEnds` | src/votv-coop/src/coop/player_handshake.cpp:91-95 | the first and last letters and digits are kept, their neighbours are not |
| `Nickname.ShortPayloads` | src/votv-coop/src/coop/player_handshake.cpp:379-449 | which payloads are too short, and that a missing, empty or cut name leaves the remembered one |
| `Nickname.AllPeersAgreeIff` | src/votv-coop/src/coop/player_handshake.cpp:297-299 | owner, host and the other clients show the same name if and only if that is not the case |
| `Nickname.IdRoundTrip` | src/votv-coop/src/coop/player_handshake.cpp:168-170 | the little-endian id is read back |
| `Nickname.NickRoundTrip` | src/votv-coop/src/coop/player_handshake.cpp:171-174 | a name of 1 to 200 bytes is read back |
| `Nickname.PayloadsRoundTrip` | src/votv-coop/src/coop/player_handshake.cpp:160-175 | a sanitized name and its id survive Join and PlayerJoined unchanged |
| `HandshakeSpec.AnnouncementLandsIff` | src/votv-coop/src/coop/players_registry.cpp:184-254 | a client registers an announced id if and only if no other Element of it has the id, its own included |
| `HandshakeSpec.RangesDivide` | src/votv-coop/include/coop/element/registry.h:140-145 | the host's and the clients' ranges divide the ids between them at 32768 |
| `HandshakeHost.OwnSlotMoves` | src/votv-coop/src/coop/players_registry.cpp:86-114 | what taking a slot does to the client's table, its own id and nothing else |
| `HandshakeHost.AssignShowsHostIff` | src/votv-coop/src/coop/player_handshake.cpp:507-522 | the client's slot 0 shows the host's id if and only if it did or no other Element of it has the id; an id out of the host's range changes nothing there |
| `HandshakeHost.HostIsShown` | src/votv-coop/src/coop/player_handshake.cpp:459-528 | over every run, slots changed or not: a connected client that has handled its AssignPeerSlot shows the host's id in slot 0 |
| `HandshakeHost.BadMessagesIgnored` | src/votv-coop/src/coop/player_handshake.cpp:379-488 | a message about a slot that is no client's, the client's own slot, or with an id no client may have changes nothing |
| `HandshakeHost.DepartureIsSeen` | src/votv-coop/src/coop/net_pump.cpp:361-388 | once the edges of a departed slot are seen the host has no mirror and no name of it and nothing in flight to it; all else is as it was |
| `HandshakeHost.ArrivalIsSeen` | src/votv-coop/src/coop/net_pump.cpp:391-405 | the edge of an arrival takes no mirror away |
| `HandshakeHost.ReconnectReannounces` | src/votv-coop/src/coop/player_handshake.cpp:130-133 | a process that has lost its host forgets it, and sends a Join again on its next connection if and only if it has an own id |
| `HandshakeHost.RestartForgetsNames` | src/votv-coop/src/coop/player_handshake.cpp:130-133 | a restarted session forgets every name and keeps the Elements |
| `HandshakeHost.PoseFills` | src/votv-coop/src/coop/players_registry.cpp:125-135 | a first pose fills an empty slot and leaves a filled one, on a client |
| `HandshakeHost.HostPoseFills` | src/votv-coop/src/coop/players_registry.cpp:125-135 | the same on the host |
| `HandshakeHost.JoinTravels` | src/votv-coop/src/coop/player_handshake.cpp:135-183 | the Join a client sends, with its own id and sanitized name, is what the host handles next on that channel |
| `HandshakeSpec.AnnouncementLands` | src/votv-coop/src/coop/player_handshake.cpp:418-457 | for a client that kept its slot, a PlayerJoined about another slot sets exactly that slot's mirror and name |
| `HandshakeSpec.FinalPop` | src/votv-coop/src/coop/player_handshake.cpp:379-457 | handling the message at the head of the channel does not change where the client ends up |
| `HandshakeSpec.FinalAgrees` | src/votv-coop/src/coop/players_registry.cpp:256-284 | placeholders, Elements of other subsystems and the sent flag change no final mirror of a client slot and no final name |
| `HandshakeSpec.AnnounceReaches` | src/votv-coop/src/coop/player_handshake.cpp:350-355 | the announcement goes to every ready client slot but the joiner, once |
| `HandshakeSpec.RosterLands` | src/votv-coop/src/coop/player_handshake.cpp:364-374 | handling the roster sets exactly the mirrors the host holds of ready slots |
| `HandshakeSpec.AssignSeats` | src/votv-coop/src/coop/player_handshake.cpp:490-527 | for a client that kept its slot, AssignPeerSlot leaves it seated there with the own id it had |
| `HandshakeSpec.JoinTells` | src/votv-coop/src/coop/player_handshake.cpp:335-377 | what any Join with an id puts into each channel, and which entry and name of the host it can change |
| `HandshakeSpec.JoinNames` | src/votv-coop/src/coop/player_handshake.cpp:289-299 | a clean name without a leading space, sent or remembered, is the one the host ends with |
| `HandshakeSpec.IdlessJoin` | src/votv-coop/src/coop/player_handshake.cpp:259-311 | a Join without a usable id changes no mirror and is told to nobody |
| `HandshakeSpec.SlotZeroJoin` | src/votv-coop/src/coop/player_handshake.cpp:259-345 | a Join from slot 0 is told to nobody and may only carry an id of the host's range |
| `HandshakeSpec.JoinSeatsIff` | src/votv-coop/src/coop/player_handshake.cpp:259-289 | the host's mirror of the sender ends with a given id if and only if the Join carries it, it is a peer's and no other slot has it |
| `HandshakeSpec.EarlyJoinIsRightIff` | src/votv-coop/src/coop/player_handshake.cpp:135-183 | a Join sent before AssignPeerSlot is handled leaves the host's mirror of the sender as the sender's own id if and only if the slot assigned is that of the id's band and no other slot has the id |
| `HandshakeSpec.SuitedIff` | src/votv-coop/src/coop/players_registry.cpp:91-104 | for a client with an own Element, keeping its slot is being assigned the slot of its id's band |
| `HandshakeSpec.OthersLearn` | src/votv-coop/src/coop/player_handshake.cpp:346-356 | every other joined client learns of the joiner, and of nobody else |
| `HandshakeSpec.StepKeepsInv` | src/votv-coop/src/coop/player_handshake.cpp:135-528 | every step of the network keeps the invariant over host table, channels and processes, if a connect gives no process a second slot |
| `HandshakeSpec.IdentityConverges` | src/votv-coop/src/coop/player_handshake.cpp:335-377 | over every run of connects, edges, Joins, poses, disconnects and reconnects in which no process is assigned a second slot: the host holds every joined client's own id and the sanitized form of the name it sent, a joined client has them too once it has handled what is in flight, the host's name if and only if that has no leading space |
| `HandshakeSpec.JoinerIsTold` | src/votv-coop/src/coop/player_handshake.cpp:357-374 | for any slot the host holds a mirror of, joined or not, the joiner ends with that mirror and name if the slot is ready, and as it would without this Join otherwise |
| `HandshakeSpec.JoinerIsRightIff` | src/votv-coop/src/coop/player_handshake.cpp:364-368 | a joiner without a mirror of that slot ends with the host's if and only if the slot is ready |
| `HandshakeRuns.StaleMirrorIsNotAnnounced` | src/votv-coop/src/coop/player_handshake.cpp:364-368 | a run from the start in which a joined client never hears of a slot whose mirror the host still holds |
| `HandshakeRuns.ChangedSlotDoesNotConverge` | src/votv-coop/src/coop/player_handshake.cpp:135-183 | a run from the start in which a process that changes slots announces its old id: the host's mirror of it is wrong, the next client of the old slot gets none, and cannot register it |
| `HandshakeSpec.PromptEdgesConverge` | src/votv-coop/src/coop/net_pump.cpp:366-386 | if the host sees each edge at once, convergence holds for every slot it holds a mirror of |
| `Handshakes.HostHandshake.BroadcastPlayerJoinedFromHost` | src/votv-coop/src/coop/player_handshake.cpp:335-377 | the two loops put the announcement and the roster into the channels |
| `Handshakes.HostHandshake.HandleJoinMessage` | src/votv-coop/src/coop/player_handshake.cpp:207-313 | from the payload bytes to the new table, name and channels; a short payload or bad slot changes nothing |
| `Handshakes.ClientHandshake.SetLocalPeerId` | src/votv-coop/src/coop/players_registry.cpp:86-114 | in place, the old slot's Element dropped and the new one minted |
| `Handshakes.ClientHandshake.HandleAssignPeerSlot` | src/votv-coop/src/coop/player_handshake.cpp:459-528 | in place, the slot and own id first, then the mirror of the host |
| `Handshakes.ClientHandshake.HandlePlayerJoinedMessage` | src/votv-coop/src/coop/player_handshake.cpp:379-457 | from the payload bytes to the new mirror and name; anything but the host's valid message changes nothing |
| `Handshakes.ClientHandshake.MaybeSendJoin` | src/votv-coop/src/coop/player_handshake.cpp:135-183 | the Join is sent at most once, only with an own id, and parses back to that id and name |
| `RegistrySpec.DistinctSlotsDistinctIds` | src/votv-coop/src/coop/players_registry.cpp:230-240 | distinct slots hold distinct registered ids |
| `RegistrySpec.SameAllocator` | src/votv-coop/src/coop/element/registry.cpp:126-190 | minting and freeing are those of PropStore, whose pool is proved partitioned |
| `RegistrySpec.DropGivesBack` | src/votv-coop/src/coop/players_registry.cpp:323-342 | a dropped Element gives its id back to its range's stack, a mirror's id is only forgotten |
| `RegistrySpec.CreateUsesOne` | src/votv-coop/src/coop/players_registry.cpp:286-321 | making an Element uses up one id of the role's stack, also when that is occupied |
| `RegistrySpec.RegisterBinds` | src/votv-coop/src/coop/players_registry.cpp:125-135 | the slot and its Element have the puppet registered; a mirror keeps its id |
| `RegistrySpec.UnregisterForgets` | src/votv-coop/src/coop/players_registry.cpp:137-141 | the slot has no puppet and no Element |
| `RegistrySpec.SetLocalKeepsIff` | src/votv-coop/src/coop/players_registry.cpp:86-114 | SetLocalPeerId leaves the published id right if and only if it does not move onto a slot whose Element is a mirror or has no puppet |
| `RegistrySpec.EstablishKeeps` | src/votv-coop/src/coop/players_registry.cpp:184-254 | registering a mirror keeps the table consistent, keeps the puppet, and on failure leaves the slot empty |
| `RegistrySpec.EstablishFailsIff` | src/votv-coop/src/coop/players_registry.cpp:184-240 | it fails if and only if the id is 0, out of range or another Element's |
| `RegistrySpec.RegisterKeeps` | src/votv-coop/src/coop/players_registry.cpp:125-135 | registering a puppet keeps the published id and the id table consistent |
| `RegistrySpec.CallKeepsConsistent` | src/votv-coop/src/coop/players_registry.cpp:86-344 | every allowed call keeps the registry consistent |
| `RegistrySpec.EveryRunKeepsConsistent` | src/votv-coop/src/coop/players_registry.cpp:86-344 | in every run with non-null puppets in which SetLocalPeerId targets no mirror, the published id is the local Element's or invalid, also while other subsystems take and free ids |
| `RegistrySpec.EnsureKeepsBanded` | src/votv-coop/src/coop/players_registry.cpp:256-321 | ids minted and freed by the slots stay in the active band |
| `RegistrySpec.FreedEarlyIdIsIssuedNext` | src/votv-coop/src/coop/element/registry.cpp:104-115 | an id taken before the slot was known and freed after the band switch is the next one minted, outside the band |
| `RegistrySpec.SwitchIsBandedIff` | src/votv-coop/src/coop/element/registry.cpp:95-124 | the band switch leaves the process inside its band if and only if no own Element from outside it is alive |
| `RegistrySpec.BandsApart` | src/votv-coop/src/coop/element/registry.cpp:39-45 | no id is in two bands |
| `RegistrySpec.BandsCover` | src/votv-coop/src/coop/element/registry.cpp:39-45 | the bands together are exactly the peer range |
| `RegistrySpec.SwitchYieldsBand` | src/votv-coop/src/coop/element/registry.cpp:95-124 | a switch leaves exactly that band's ids to be minted, the lowest first |
| `RegistrySpec.NoSwitch` | src/votv-coop/src/coop/element/registry.cpp:95-103 | a slot that is no client's, or has its band already, leaves the ids alone |
| `PlayersRegistries.PlayersRegistry.DropPlayerElement` | src/votv-coop/src/coop/players_registry.cpp:323-342 | in place, the drop |
| `PlayersRegistries.PlayersRegistry.EnsurePlayerElement` | src/votv-coop/src/coop/players_registry.cpp:256-321 | in place, the lookup, bind or re-creation |
| `PlayersRegistries.PlayersRegistry.SetLocalPeerId` | src/votv-coop/src/coop/players_registry.cpp:86-114 | in place, with the id table kept and the published id right outside the excluded case |
| `PlayersRegistries.PlayersRegistry.RegisterPuppet` | src/votv-coop/src/coop/players_registry.cpp:125-135 | in place, consistent afterwards |
| `PlayersRegistries.PlayersRegistry.UnregisterPuppet` | src/votv-coop/src/coop/players_registry.cpp:137-141 | in place, consistent afterwards |
| `PlayersRegistries.PlayersRegistry.EstablishMirrorForSlot` | src/votv-coop/src/coop/players_registry.cpp:184-254 | in place, the mirror or the rollback |
| `RegistryRefinement.EstablishRefines` | src/votv-coop/src/coop/players_registry.cpp:184-254 | forgetting puppets, registration is the step the identity protocol uses, for every id |
| `RegistryRefinement.UnregisterRefines` | src/votv-coop/src/coop/players_registry.cpp:137-141 | the disconnect edge empties the protocol's entry |
| `RegistryRefinement.RegisterRefines` | src/votv-coop/src/coop/players_registry.cpp:125-135 | a first pose is the protocol's placeholder step; another puppet makes the placeholder again |
| `RegistryRefinement.SetLocalRefines` | src/votv-coop/src/coop/players_registry.cpp:86-114 | SetLocalPeerId is the protocol's step, minting what the slot's band yields |
| `RegistryRefinement.SameBands` | src/votv-coop/src/coop/element/registry.cpp:39-45 | these bands are the ones the identity protocol speaks of |
| `RegistryRefinement.SetLocalMintsInBand` | src/votv-coop/src/coop/players_registry.cpp:99-107 | the own id minted for a slot is of the slot's band if the ids left are, which they are after a switch unless an early Element of that slot is freed onto them; after a switch it is the band's lowest |
| `RegistryRefinement.ClientsMintApart` | src/votv-coop/src/coop/players_registry.cpp:99-107 | two clients that mint in the bands of different slots never mint the same own id |
| `RegistryRefinement.FreshClientsPublish` | src/votv-coop/src/coop/players_registry.cpp:86-114 | of four slots, a fresh client told slot 1 publishes 40960, one told slot 2 publishes 49152 |
| `NpcCalls.OneNested` | src/votv-coop/src/coop/npc_sync.cpp:197-217 | an NPC call in which another was made loses its half-pair and stays unbound |
| `NpcCalls.NestedSpawnExample` | src/votv-coop/src/coop/npc_sync.cpp:176-195 | a spawn made inside another: the inner one is bound, the outer one is not |
| `NpcCalls.OneAlone` | src/votv-coop/src/coop/npc_sync.cpp:218-273 | an NPC call in which none was made binds its actor, or releases its id on a null return |
| `NpcCalls.CallsCorrelate` | src/votv-coop/src/coop/npc_sync.cpp:197-434 | every well-bracketed tree of calls allocates, binds, releases and broadcasts exactly what it should, in order, whatever is nested in what |
| `NpcCalls.BoundIffNoneNested` | src/votv-coop/src/coop/npc_sync.cpp:150-154 | an NPC call with a non-null return is bound to its actor if and only if no NPC call was made inside it |
| `NpcCalls.LostIdIsLeft` | src/votv-coop/src/coop/npc_sync.cpp:237-257 | a spawn whose Element another thread has drained meanwhile is neither bound nor released |
| `NpcAgreement.StepKeepsInv` | src/votv-coop/src/coop/npc_sync.cpp:281-434 | every step of every host thread, the flush barrier and every delivery keep what the client will show tied to the host's manager |
| `NpcAgreement.IdsConserved` | src/votv-coop/src/coop/npc_sync.cpp:281-434 | over every barred run, null returns and disconnects included, each id is in exactly one of the free stack, the manager, the deletion queue and one hand |
| `NpcAgreement.OrphanStaysUnbound` | src/votv-coop/src/coop/npc_sync.cpp:176-195 | a spawn call that returned without a bind is not answered later |
| `NpcAgreement.MirrorsAgreeIff` | src/votv-coop/src/coop/npc_mirror.cpp:116-126 | at quiescence the client's drained table is the host's manager overridden by the leaked Elements: the mirror of an owned id is of the owned Element if and only if the id is not leaked, and the tables are equal if and only if none is |
| `NpcAgreement.SpawnDroppedIff` | src/votv-coop/src/coop/npc_mirror.cpp:116-126 | a spawn will be dropped by the duplicate guard if and only if its id is leaked as it is sent |
| `NpcAgreement.DroppedAreReissued` | src/votv-coop/src/coop/npc_mirror.cpp:116-126 | as many spawns of a connection are dropped as were broadcast with a leaked id |
| `NpcAgreement.NoNullReturnNoDrop` | src/votv-coop/src/coop/npc_sync.cpp:224-236 | a run with no null return leaks nothing and never drops a spawn |
| `NpcAgreement.ReissuedSpawnIsDropped` | src/votv-coop/src/coop/npc_mirror.cpp:116-126 | a run from the start: null return, flush, re-issue; the new spawn is dropped and the client keeps the failed spawn's mirror under its id |
| `NpcAgreement.FlushKeepsInvIff` | src/votv-coop/src/coop/npc_sync.cpp:299-307 | a flush keeps the invariant if and only if no destroy is between its enqueue and its broadcast |
| `NpcAgreement.DestroyUnsentReached` | src/votv-coop/src/coop/npc_sync.cpp:299-307 | a run from the start leads into that window |
| `NpcAgreement.SplitDestroyLosesTheMirror` | src/votv-coop/src/coop/npc_sync.cpp:299-307 | a run from the start with a flush in that window, in which the late destroy takes a re-issued id's mirror away |
| `NpcSyncs.DestroyUndoesSpawn` | src/votv-coop/src/coop/npc_sync.cpp:281-310 | a bound spawn and its actor's destroy leave nothing but the parked id |
| `NpcSyncs.LostElementIsNotParked` | src/votv-coop/src/coop/npc_sync.cpp:299-307 | a destroy whose Element another thread has drained only takes the entry away |
| `NpcSyncs.NpcSync.NpcSuppressInterceptor` | src/votv-coop/src/coop/npc_sync.cpp:312-434 | the host path in place |
| `NpcSyncs.NpcSync.NpcSpawnPost` | src/votv-coop/src/coop/npc_sync.cpp:197-273 | the observer in place |
| `NpcSyncs.NpcSync.SpawnCalls` | src/votv-coop/src/coop/npc_sync.cpp:150-154 | running a tree of nested calls in place has exactly its effect |
| `NpcSyncs.NpcSync.NpcDestroyPre` | src/votv-coop/src/coop/npc_sync.cpp:281-310 | the observer in place, with the destroy it broadcasts |
| `NpcMirrors.OnlyWireSpawnsPass` | src/votv-coop/src/coop/npc_sync.cpp:440-488 | over any order of marks, clears and spawns, the client lets through at most one NPC spawn per spawn taken from the wire |
| `NpcMirrors.WireSpawnsPass` | src/votv-coop/src/coop/npc_sync.cpp:460-467 | the bound is met: spawns taken from the wire one after the other all go through |
| `NpcMirrors.MarkedSpawnPasses` | src/votv-coop/src/coop/npc_sync.cpp:460-467 | after a mark, and any spawns of other classes, the next spawn of its class goes through and empties the slot; the one after it is skipped |
| `NpcMirrors.SkippedIff` | src/votv-coop/src/coop/npc_sync.cpp:444-488 | a spawn is skipped if and only if its class is on the list and not the marked one; a spawn of another class leaves the mark |
| `NpcMirrors.HostIdsAreTaken` | src/votv-coop/src/coop/npc_mirror.cpp:86-91 | spawns are taken for exactly the ids that a host's allocation yields |
| `NpcMirrors.TeardownIff` | src/votv-coop/src/coop/npc_mirror.cpp:388-410 | a teardown destroys exactly the live actors of mirrors, none of the host's own NPCs |
| `NpcMirrors.TeardownCounts` | src/votv-coop/src/coop/npc_mirror.cpp:388-410 | one destroy call for each such mirror |
| `NpcMirrors.NpcMirror.OnEntitySpawn` | src/votv-coop/src/coop/npc_mirror.cpp:62-307 | a mirror is installed and its id occupied, or every failure, an occupied id included, rolled back with its actor destroyed if it is live |
| `NpcMirrors.NpcMirror.OnEntityDestroy` | src/votv-coop/src/coop/npc_mirror.cpp:309-358 | the mirror is taken, its id freed and its live actor destroyed once |
| `NpcMirrors.NpcMirror.DrainClientMirrors` | src/votv-coop/src/coop/npc_mirror.cpp:360-424 | the loop performs the teardown and empties the table |
| `ItemSpec.LatestWinsIff` | src/votv-coop/src/coop/item_activate.cpp:614-655 | a message makes every earlier one irrelevant if and only if it is of the class and, when ON, both cone angles are valid |
| `ItemSpec.DeferredAlways` | src/votv-coop/src/coop/item_activate.cpp:618-655 | invariant of one slot over every order of messages, puppet arrival and ticks |
| `ItemSpec.DeferralRefinesDirect` | src/votv-coop/src/coop/item_activate.cpp:618-655 | after a tick the puppet looks as if every message had been applied as it came |
| `ItemSpec.MessageShowsAtOnce` | src/votv-coop/src/coop/item_activate.cpp:618-655 | a message that finds the puppet shows at once and leaves nothing for a tick |
| `ItemSpec.ConeIsKept` | src/votv-coop/src/coop/item_activate.cpp:578-599 | an OFF message makes the light dark and leaves its cone; an invalid angle is not taken |
| `ItemSpec.ForeignClassLosesTheStash` | src/votv-coop/src/coop/item_activate.cpp:522-527 | a message of another class before the puppet throws the stashed one away |
| `ItemSpec.SecondPuppetIsDark` | src/votv-coop/src/coop/item_activate.cpp:736-758 | a second puppet in one connection stays dark until the next message |
| `ItemSpec.CacheIsLast` | src/votv-coop/src/coop/item_activate.cpp:632-639 | the host's cache of a peer is its last message of the connection |
| `ItemSpec.ReplayRefinesHistory` | src/votv-coop/src/coop/item_activate.cpp:705-734 | a joiner given the replay and every message since, in any interleaving, ends with the look of the owner's whole history |
| `ItemActivates.ReplaysIff` | src/votv-coop/src/coop/item_activate.cpp:705-734 | a joiner is sent a message under a slot if and only if that is another client's slot and the message its cached one, ON |
| `ItemActivates.ReplaysInOrder` | src/votv-coop/src/coop/item_activate.cpp:705-734 | one message a slot, in slot order |
| `ItemActivates.StashedCounts` | src/votv-coop/src/coop/item_activate.cpp:760-776 | the number returned on a disconnect is that of the slots with a stash |
| `ItemActivates.ItemActivate.ApplyToPuppetOrDefer` | src/votv-coop/src/coop/item_activate.cpp:618-655 | applies or stashes for that slot only, and caches on the host |
| `ItemActivates.ItemActivate.TickConnect` | src/votv-coop/src/coop/item_activate.cpp:736-758 | the loop drains every stash whose puppet exists |
| `ItemActivates.ItemActivate.ReplayPeerStatesToSlot` | src/votv-coop/src/coop/item_activate.cpp:705-734 | the loop sends every other peer's cached ON state under that peer's slot |
| `ItemActivates.ItemActivate.OnDisconnectForSlot` | src/votv-coop/src/coop/item_activate.cpp:778-790 | forgets the slot's cache and stash only |
| `ItemActivates.ItemActivate.OnDisconnect` | src/votv-coop/src/coop/item_activate.cpp:760-776 | forgets all and counts the stashes dropped |
| `EditDistances.EditDistance` | tools/sdk_diff.py:113-128 | the shortcuts and the rolling rows compute the Levenshtein recurrence |
| `EditDistances.LastRow` | tools/sdk_diff.py:121-128 | the rolling rows end in the last entry of the full table |
| `EditDistances.TableIsLev` | tools/sdk_diff.py:121-128 | the full table's entries are the distances of the prefixes |
| `EditDistances.ZeroIffEqual` | tools/sdk_diff.py:115-116 | zero if and only if equal |
| `EditDistances.Symmetric` | tools/sdk_diff.py:113-128 | symmetric |
| `EditDistances.Triangle` | tools/sdk_diff.py:113-128 | triangle inequality |
| `EditDistances.DistanceIsShortestScript` | tools/sdk_diff.py:113-114 | the length of a shortest script of inserts, deletes and substitutions: one that short exists, none is shorter |
| `SdkDiff.StripIff` | tools/sdk_diff.py:131-137 | the name splits where, and only where, the regular expression matches |
| `SdkDiff.DocumentedExampleIsNotStripped` | tools/sdk_diff.py:131-137 | the example in the function's own documentation does not match |
| `SdkDiff.OldOrdinals` | tools/sdk_diff.py:174-178 | the loop keeps the last K2Node function of each prefix |
| `SdkDiff.DroppedIff` | tools/sdk_diff.py:194-199 | an old-only function goes unreported if and only if it is the last old K2Node function of its prefix, partner or not |
| `SdkDiff.AddedIff` | tools/sdk_diff.py:188-205 | a new-only function goes unreported if and only if some old K2Node function has its prefix |
| `SdkDiff.CommonUnreported` | tools/sdk_diff.py:188-205 | a function of both dumps is reported on neither side |
| `SdkDiff.ArityIs` | tools/sdk_diff.py:209-215 | the arity looked up for a name is that of the function with the name |
| `SdkDiff.WithinThresholdIff` | tools/sdk_diff.py:217-218 | two edits are always within the threshold, more only up to a quarter of the old name's length |
| `SdkDiff.Nearest` | tools/sdk_diff.py:210-220 | the inner loop finds a nearest unmatched candidate of equal arity within the threshold, or none exists |
| `SdkDiff.PairRenames` | tools/sdk_diff.py:206-226 | the pairing loop, for any iteration order of the added set |
| `SdkDiff.DiffFunctions` | tools/sdk_diff.py:188-235 | each old-only name is reported exactly once as renamed or removed, each new-only one exactly once as rename target or added |
| `SdkDiff.EachRemovedOnce` | tools/sdk_diff.py:208-231 | old names of pairs and removed names together are the old-only names, each once |
| `SdkDiff.EachAddedOnce` | tools/sdk_diff.py:211-235 | new names of pairs and added names together are the new-only names, each once |
| `SdkDiff.EachPairIsNearest` | tools/sdk_diff.py:208-226 | each pair is of equal arity, within the threshold, and nearest among the candidates unmatched at its step |
| `SdkDiff.PairsAreOneToOne` | tools/sdk_diff.py:211-225 | no new name is in two pairs |
| `SdkDiff.RemovedHadNoCandidate` | tools/sdk_diff.py:208-231 | a removed name had no candidate left by the pairs of the names before it |
| `CommandLine.TokenizeCommandLine` | reference/unreal-shimloader/src/hooks.rs:711-741 | the nested loops yield the token ranges |
| `CommandLine.TokensAreWords` | reference/unreal-shimloader/src/hooks.rs:711-741 | the token texts are the words of the text: maximal runs outside quotes, quoting kept |
| `CommandLine.KeepIff` | reference/unreal-shimloader/src/hooks.rs:668-682 | a token stays if and only if it is neither a shim switch nor the value of one |
| `CommandLine.SwitchIff` | reference/unreal-shimloader/src/hooks.rs:117 | the switches are exactly the four names, in any case and with or without one pair of quotes |
| `CommandLine.SameLettersIff` | reference/unreal-shimloader/src/hooks.rs:678 | comparison ignores case for the 26 letters and nothing else |
| `CommandLine.MarkKept` | reference/unreal-shimloader/src/hooks.rs:668-682 | the marking loop |
| `CommandLine.SanitizeCommandLine` | reference/unreal-shimloader/src/hooks.rs:665-700 | the loops compute the sanitizer |
| `CommandLine.SanitizedWords` | reference/unreal-shimloader/src/hooks.rs:684-699 | re-tokenizing gives the input tokens up to the first kept one, then the other kept ones, byte for byte |
| `CommandLine.RetokenizeIff` | reference/unreal-shimloader/src/hooks.rs:691-694 | re-tokenizing gives exactly the kept tokens if and only if the first token is kept, or none is |
| `CommandLine.SanitizeIsIdempotent` | reference/unreal-shimloader/src/hooks.rs:665-700 | sanitizing twice equals once, for every command line |
| `PathSpec.CleanPath` | reference/unreal-shimloader/src/paths/normalized.rs:5-30 | the stack loop computes the cleaned path |
| `PathSpec.CleanReaches` | reference/unreal-shimloader/src/paths/normalized.rs:5-30 | in every symlink-free tree, from every directory, the cleaned path reaches whatever node the path reaches |
| `PathSpec.MissingDirectoryIsSkipped` | reference/unreal-shimloader/src/paths/normalized.rs:13-16 | the converse fails: a missing directory followed by a parent is dropped |
| `PathSpec.CleanIsCanonical` | reference/unreal-shimloader/src/paths/normalized.rs:5-30 | prefix and root, then parents (none if rooted), then names, or "." |
| `PathSpec.RootedIsHead` | reference/unreal-shimloader/src/paths/normalized.rs:5-30 | a parsed path is rooted if and only if it has a root component, which ends its head |
| `PathSpec.CleanIsIdempotent` | reference/unreal-shimloader/src/paths/normalized.rs:5-30 | cleaning twice equals once, for every list of components |
| `PathSpec.JoinReaches` | reference/unreal-shimloader/src/paths/splice.rs:22-40 | from every directory a joined path reaches what its second part reaches from where its first leads, absolute and drive-relative second parts included |
| `PathSpec.SameIff` | reference/unreal-shimloader/src/paths/normalized.rs:89-93 | normalized paths are equal if and only if their cleaned components are, one by one, up to case folding |
| `PathSpec.UnmappedIff` | reference/unreal-shimloader/src/paths/registry.rs:154-175 | a lookup in either direction finds nothing if and only if no mapping fits |
| `PathSpec.MaskAdds` | reference/unreal-shimloader/src/paths/registry.rs:58-68 | one mask more covers exactly what is under it besides |
| `PathSpec.RemapIsFirst` | reference/unreal-shimloader/src/paths/registry.rs:154-161 | the first mapping whose source the path is under decides |
| `PathSpec.ReverseIsFirst` | reference/unreal-shimloader/src/paths/registry.rs:168-175 | the first mapping whose target the path is under decides |
| `PathSpec.MaskCoversSubtree` | reference/unreal-shimloader/src/paths/registry.rs:163-165 | a mask covers everything below what it covers |
| `PathSpec.SpliceMoves` | reference/unreal-shimloader/src/paths/splice.rs:22-40 | below rooted paths splicing moves the folded remainder, exact matches included |
| `PathSpec.RoundTripIff` | reference/unreal-shimloader/src/paths/registry.rs:154-175 | reverse_lookup undoes try_remap if and only if the first mapping whose target fits has a source the path is under with the same remainder |
| `PathSpec.RemapRoundTrip` | reference/unreal-shimloader/src/paths/registry.rs:154-175 | with rooted mappings, no target a prefix of another and idempotent folding, the path comes back for every path that remaps |
| `PathSpec.NestedTargetsDoNotRoundTrip` | reference/unreal-shimloader/src/paths/registry.rs:168-175 | with a target inside an earlier one the path comes back under the earlier source |
| `PathRegistries.PathRegistry.Register` | reference/unreal-shimloader/src/paths/registry.rs:43-56 | appends the mapping and reports whether a mask shadows it |
| `PathRegistries.PathRegistry.Remap` | reference/unreal-shimloader/src/paths/registry.rs:154-161 | the search loop |
| `PathRegistries.PathRegistry.Reverse` | reference/unreal-shimloader/src/paths/registry.rs:168-175 | the search loop |
| `PathRegistries.PathRegistry.Masked` | reference/unreal-shimloader/src/paths/registry.rs:163-165 | the search loop |

## Left out

- Engine access (reflection, parameter frames, offsets, hooks, transforms, sound) and the transport, relay and epoch code: their results are parameters.
- Weak memory order: lock scopes and atomics are sequentially consistent steps.
- PropElementTrackers.PropElementTracker.MarkPropElement: one call with nothing in flight; the re-check that drops a lost race is in the interleaving model.
- A role or band change while props are tracked, and mirrors whose ids lie in the own allocation pool.
- A prop's key and class strings: only whether the key is real and the class may cross the wire.
- `SeedKnownKeyedProps` (the boot seed run once), `HasProcessedInit` and `ClearProcessedInit`: easy members beside the walk they share; the capped inserts into the known and processed sets and the mask insert have no row for the same reason.
- NetPumps.NetPump.SlotEdges: of the edge loop the snapshot's part; puppets and names leave in steps of the identity model, and the flashlight, weather and held-prop calls are not followed.
- The rest of Tick: puppet spawning and the pose streams.
- HandshakeSpec.IdentityConverges: AssignPeerSlot is the first message of a connection. The program sets the ready flag on the network thread around the send of it, and a broadcast in between is not modelled. The theorem leaves out runs in which a process is assigned a second slot, because it is false there; a process that has a slot but no own Element is held to the same rule, as its other Elements keep ids of the old band.
- HandshakeSpec.AssignSeats: the own Element's id comes from the band of the slot assigned. RegistrySpec.FreedEarlyIdIsIssuedNext shows where the allocator breaks that; for the own Element it takes a first allocation that failed.
- HandshakeHost.HostIsShown: the host's id is the one stamped into the connection's AssignPeerSlot; the host's own Join, which sets slot 0 again, is not modelled.
- Mirrors that another subsystem of a client holds of other clients' Elements: the ids of its Elements are of the host's range or its own allocations.
- Forged ids: honest peers send ids they have allocated.
- RegistrySpec.EnsureKeepsBanded: the active band is kept by the slots' own Elements; props allocated from the same stack are not followed.
- Nickname.PayloadsRoundTrip: bytes above 127 decode to a character no name keeps, not by UTF-8; a sanitized name has none.
- NpcAgreement.MirrorsAgreeIff: one client, connected since the host tracked nothing, with successful sends and client spawns. A later joiner is sent no NPC snapshot.
- `npc_sync::OnDisconnect` racing a spawn in flight: disconnect is a step at quiescence.
- Installing the hooks, and the nested call's link between NpcCalls and NpcAgreement: the latter takes each outcome (bound, orphaned, null) as a step.
- Click sounds, the sender's duplicate suppression by signature and the class-name hash.
- `diff_classes`: class lists, shifted offsets and the renumbered-ordinals list; dump parsing.
- The find filter of the mod loader and the overlay directory scan: thin loops around file-system calls.
- Path strings: a path is its component list; how the platform parses and joins text, and Unicode lower-casing beyond its idempotence, are not modelled.
- UTF-16: the command line is a sequence of characters.
