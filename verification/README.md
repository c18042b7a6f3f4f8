# Greybus core: a verified model

This project models the hard core of the Greybus kernel drivers and proves properties of that model in Dafny:
the operation engine with its races between responses, send errors, timeouts and teardown; the connections of a
host device, their CPort ids and life cycle; the protocol registry; the manifest parser; and five smaller pieces
with delicate arithmetic or concurrency (the ES2 request-block pool, I2C gather and scatter, SDIO chunking, endo
geometry and the PCM ring). `dafny verify dfyconfig.toml` checks everything.

## How it is organised

**The operation engine** is a step machine. `Engine` holds one record per operation with the program counters of
every agent that works on it (creator, receivers, cancellers, work item, messages inside the host device), and one
event per spinlock section or other atomic action. A connection has any number of operations, and any agent may move
next; `Exec` runs a sequence of events and `Reachable` is a state that some sequence leads to. `Sections` is the same
code as the source has it, objects updated in place, each section proved to refine its step.
`EngineInvariant` proves what every step keeps of one operation, `EngineRuns` what every event keeps of a connection,
and `EngineLift` carries any further invariant of single steps to all runs. The theorems follow: `EngineSafety` (one
winner, write-once results, exact counts, orderly teardown), `EngineAlive` (no agent is stuck), `EngineProgress` (who
still owes an operation something, and how often they move at most), `EngineFair` and `EngineEnding` (infinite runs
under a fair schedule: operations drain, timeouts return, teardown ends), `EngineFault` (when teardown cancels a
response that does not exist), `EngineTeardown` (when the cancel loop can end), `EngineReport`, `EngineLate` and
`EngineClear` (who may touch a freed operation), `EngineSync` (what a synchronous caller gets), `EngineIds` (which
operation a response reaches), `EngineOrder` (the order of the list) and `EngineDemands` (runs into the faults, and
what a late refusal does). Three modules speak of the events of a run and not only of its states: `EngineStory`
carries what the events say of an operation through all runs, `EngineCause` names the one event that each result comes
from, and `EngineAnswer` says what became of the status that a request handler returned. `EngineEcho` shows that the
runs which the engine is for exist: every response, every error and every answer can arrive, from every enabled state.

**Connections and manifests.** `HostDevice` keeps the id pool equal to the ids of the live connections on every path.
`ManifestScan` is the descriptor scan, `ManifestDemand` says when a host can give everything that the descriptors ask
for, `ManifestBuild` is the pass that builds bundles and connections or takes all back, and `Manifest` puts them
together from bytes to connections; `ManifestWire` is the writer's side, the bytes of each descriptor field by field.
`Lifecycle` is one connection through binding, failing, retrying and destruction.
`ProtocolRegistry` is the sorted protocol list against a plain map.

**Smaller pieces.** `UrbPool`, `I2c`, `Sdio`, `Endo` and `Pcm`.

## What the model takes as given

- An operation is handed to the host device in one step: get_active, message_send and the unwinding after a refusal
  (operation.c:665-681). `EngineDemands.RefusalRestoresIffOpen` says what a refusal does that comes later: the
  unwinding is right exactly while the result is still -EINPROGRESS.
- An operation is sent at most once; only request_send and the receive path pass -EINPROGRESS to result_set; send
  errors and cancellations pass a non-zero error, as every caller in the repository does.
- An incoming request's size field is at least 8: operation.c:563 relies on it, operation.c:907-915 checks only the
  received length.
- The only cancellers of an operation are its synchronous caller and the teardown of its connection; there are no
  others in the repository. A waiter may also wake up for no reason, which covers the wait queue that all operations
  share.
- A host device has at least one CPort, which core.c:190 checks. That ids stay below num_cports needs two
  (`HostDevice.RangeIsSafe`).

The host device is that of es2.c: its callback reports on a message and then writes to it once more (es2.c:500-504),
and message_cancel returns only after the callback for a submitted message, which `UrbPool.KilledHasReported` shows for
that driver.

Faults of the code are part of the model and not assumed away, and each has its exact condition. The host device may
report on a request, or clear it, after its operation has been freed (`EngineLate.LateIffOvertaken`); it may clear a
response after the report has dropped the last reference (`EngineClear.ResponseClearedLate`); and teardown may cancel
the response of a request that has none yet, which dereferences a null pointer (`EngineFault.MissingIffEarly`).

Where code and comments disagree the code is followed: operation.c:111-113 says that an early result other than
-EINPROGRESS records -EILSEQ; operation.c:152-158 leaves -EBADR in place and returns false.

## Model

| member | source | states |
|---|---|---|
| EngineInvariant.MoveKeeps | operation.c:42-75 | Every step of every agent keeps the operation's invariant (reference and active counts are the holders, wins and queued work balance, response bytes are where they should be), and puts it on or takes it off the list exactly when active leaves or reaches zero |
| EngineRuns.ApplyKeeps | connection.c:299-321 | Every event keeps the connection's invariant: the list has no duplicates and holds exactly the active operations, and the teardown loop's hold and program counter agree |
| EngineRuns.ReachableInv | operation.c:632-684 | The invariant holds in every state that any interleaving reaches |
| EngineRuns.MoveFrame | operation.c:115-159 | No step of any agent changes a final result, an id outside its assignment, or adds to the list when the connection is not enabled |
| EngineRuns.FindOutgoingFinds | operation.c:176-194 | The lookup returns an outgoing operation with the id if one is listed and nothing otherwise |
| EngineRuns.FindOutgoingFirst | operation.c:176-194 | Of several operations with the id the first on the list is found |
| EngineSafety.OneWinner | operation.c:115-159 | In every reachable state at most one event has won the result, work has been queued at most once and run at most once, a callback has run only on a final result with the response copied, and whoever won has queued the work or still will |
| EngineSafety.OneDecisionPerRun | operation.c:141-158 | Over a whole run of a connection exactly one event decides an operation that ends with a final result |
| EngineSafety.ResultNeverChanges | operation.c:92-96 | A final result stays through every continuation |
| EngineSafety.ExactCounts | operation.c:583-616 | An operation is listed once if active and not at all otherwise, active is at most 1 outgoing and 2 incoming, the reference count is the number of holders, and it is freed once, when none is left |
| EngineSafety.SleeperIsCounted | operation.c:946-949 | A sleeping canceller sleeps on an active, listed operation and is counted as a waiter |
| EngineSafety.OneKiller | operation.c:936-944 | At most one canceller ever kills an outgoing operation's request, and then no response or send error has won |
| EngineSafety.DestroyingOnlyShrinks | operation.c:49-55 | Once DESTROYING, a connection stays so, no operation becomes active and its list only shrinks, whatever the environment does |
| EngineSafety.IterationShrinks | connection.c:299-321 | One iteration of the cancel loop, with anything in between, makes the list strictly shorter |
| EngineSafety.EndedStaysEmpty | connection.c:304-320 | When the loop has ended the list is empty and stays empty |
| EngineAlive.NobodyIsStuck | operation.c:632-718 | In every reachable state every agent of every operation can take its next step, exactly unless it is a canceller that waits for a handler, a message in the host device or the last active user; host device, message layer and handler may answer anything |
| EngineAlive.UnknownIsDropped | operation.c:862-866 | In every reachable state a response whose id is not in flight changes nothing |
| EngineOrder.ListIsOrdered | operation.c:54-55 | Over every run the list is in the order in which its operations became active |
| EngineOrder.NewestFirst | connection.c:306-307 | Over every run teardown takes hold of the operation that became active last |
| EngineProgress.ActiveHasHelper | operation.c:63-75 | An active operation with a final result, or any active incoming one, has an agent that owes it something, can move now and brings it nearer to being inactive |
| EngineProgress.SleeperHasHelper | operation.c:967-975 | In every reachable state a sleeping canceller has such a helper |
| EngineProgress.MoveSinks | operation.c:255-268 | No step of any agent adds to any part of what is left to do on an outgoing operation with a final result, in any connection state, or on an incoming one of a connection that is not enabled |
| EngineProgress.HelpingLowers | operation.c:255-268 | Each step of an agent that owes the operation something leaves less to do, whatever it reports or returns |
| EngineProgress.DrainBounded | operation.c:936-949 | Over every run what is left to do on such an operation after the run, plus the steps of agents that owed it something, is at most what was left before; for outgoing operations in every connection state, for incoming ones while the connection is being destroyed |
| EngineFair.FairRunDrains | operation.c:946-949 | In every fair infinite run, in every connection state, an outgoing operation with a final result becomes inactive and leaves the list for good, with no canceller asleep on it; so does every incoming operation of a dying connection |
| EngineFair.FairRunExists | operation.c:77-88 | From every reachable state a run that is fair to an operation exists |
| EngineEnding.TimeoutReturns | operation.c:709-714 | In every fair run, in every connection state, a synchronous caller that gives up comes back from cancelling |
| EngineEnding.FairTeardownEnds | connection.c:299-321 | In every fair run of a dying connection the cancel loop ends with an empty list, exactly unless it gets stuck in the cancel of a missing response |
| EngineEnding.LoopReadyIsPossible | connection.c:304-320 | What fairness calls a ready loop is one that has a possible event |
| EngineProgress.PicksBounded | connection.c:304-320 | Over every run the cancel loop goes round at most once for each operation on the list |
| EngineFault.MissingIffEarly | operation.c:957-970 | In every reachable state, a teardown canceller about to decide goes on to cancel a missing response exactly when the result is still -EBADR, that is, when the interrupt handler stands between get_active and result_set |
| EngineFault.FaultWasEarly | operation.c:209-214 | In every reachable state a canceller that has faulted or is about to had decided early, and the cancel faults exactly when there is no response |
| EngineFault.StuckForever | connection.c:304-320 | A cancel loop whose canceller has faulted, or can do nothing else, never leaves that operation, in any run |
| EngineTeardown.CanEndUnlessStuck | connection.c:399-416 | Every reachable state of an enabled or dying connection has a run in which the cancel loop ends with an empty list, exactly unless the loop is stuck in such a fault |
| EngineTeardown.FinishIteration | connection.c:306-318 | From any state inside an iteration that is not stuck a run to its end exists, which cancels no missing response |
| EngineSync.SyncReturns | operation.c:1001-1035 | Zero means that the caller's buffer is exactly the payload of a received, successful, exactly sized response with the operation's id; any other value leaves it untouched; after an accepted send the value is the operation's one final result, never -EBADR or -EINPROGRESS (which error it is: `EngineCause.SyncOutcome`) |
| EngineCause.ResultHasCause | operation.c:691-718 | Over every run the final result of an outgoing operation is due to one event of the run that decided it and to a cause that the events name: -ETIMEDOUT after a timeout, -ECANCELED after a signal, -ESHUTDOWN after the start of teardown, the error that the host device reported, or what the status byte and the size of a received response with its id say |
| EngineCause.OneDecider | operation.c:141-158 | The deciding event of a run is unique |
| EngineCause.SyncOutcome | operation.c:1022-1034 | What a synchronous caller is told: for a request that was not accepted, the error of its hand-over; otherwise the result, with that cause |
| EngineCause.NotConnected | operation.c:49-52 | A hand-over on a connection that is not enabled fails with -ENOTCONN |
| EngineAnswer.RequestAnswered | operation.c:730-773 | Over every run, once the handler of a received request has returned any status and the work is past sending, the host device has taken a response with the request's id and the wire byte of that status, or refused one, or it was refused for want of a connection, or teardown had decided first, which it does only to a request that it reached before the receive interrupt had queued it |
| EngineAnswer.OneWayUnanswered | operation.c:748-750 | A request with id zero gets no response in any run |
| EngineEcho.MessageReadBack | greybus_protocols.h:93-99 | A message written field by field is read back with its size, id, direction, result and payload |
| EngineEcho.EveryResponseCanArrive | operation.c:854-885 | From every reachable enabled state any response with the next id, if that is not in flight, can reach a new caller: with its payload, with -EMSGSIZE, or with the error of its status byte |
| EngineEcho.EveryRefusalCanReturn | operation.c:667-683 | From every such state every error of the hand-over can reach the caller |
| EngineEcho.EverySendErrorCanReturn | operation.c:796-806 | So can every error that the host device reports on a request |
| EngineEcho.GivingUpCanReturn | operation.c:707-717 | So can -ETIMEDOUT after a timeout and -ECANCELED after a signal |
| EngineEcho.EveryRequestCanBeAnswered | operation.c:819-843 | From every enabled state every request can be answered with every status of its handler |
| EngineSync.StatusZero | operation.c:364-397 | Only status 0 means success and no status maps to a reserved value |
| EngineSync.StatusTable | operation.c:364-426 | Both maps value by value, in the numbers of the errno header |
| EngineSync.StatusRoundTrip | operation.c:399-426 | Status bytes round-trip through errno values, all unknown ones becoming the unknown status |
| EngineReport.NeverTouchedAfterFree | operation.c:592-616 | In every reachable state an agent that can move finds a positive reference count, except the host device reporting on or clearing a request that was overtaken, and clearing a response |
| EngineLate.LateIffOvertaken | es2.c:486-507 | While the host device has to report on a request or to clear it, a freed operation was overtaken by a response or by the error that was reported; and from every reachable state in which it was, a run frees it before the host device moves on |
| EngineLate.RequestClearedLate | es2.c:500-504 | In every reachable state a request's clearing finds the operation freed exactly when its work is done and no receiver, creator or teardown thread holds it |
| EngineClear.ResponseClearedLate | es2.c:500-504 | In every reachable state a response's clearing finds the operation freed exactly when the handler's work is done and teardown does not hold it, and some run frees it first exactly when teardown does not hold it now |
| EngineIds.SameId | operation.c:654-657 | Over a stretch without a wrap of op_cycle two sends share an id exactly when they are a multiple of 65535 apart |
| EngineIds.WindowIds | operation.c:654-655 | Fewer than 65535 sends apart, two sends share an id exactly when they are the two on either side of a 32-bit wrap |
| EngineIds.DistinctUnlessWrap | operation.c:176-194 | In every reachable state with all sends in flight inside one window, ids are in 1..65535 and distinct exactly unless both sends around a wrap are in flight |
| EngineIds.ResponseReachesItsOwn | operation.c:854-866 | Then a lookup finds an operation exactly when it is in flight under that id |
| EngineDemands.RefusalRestoresIffOpen | operation.c:665-681 | In every reachable state in which the host device has the request, unwinding a refusal restores the reference and active counts exactly when the result is still -EINPROGRESS |
| EngineDemands.LateReport | operation.c:778-808 | A run in which an operation has been freed while the host device has still to report on its request |
| EngineDemands.EarlyTeardownFaults | operation.c:957-970 | A run in which teardown cancels a response that does not exist |
| EngineDemands.LateClearing | es2.c:500-504 | A run, in the ordinary order, in which the callback clears a response that its report has freed |
| Sections.Operation.constructor | operation.c:479-530 | A new operation is the one that the engine creates |
| Sections.Operation.ResultSet | operation.c:115-159 | The section refines the engine's result_set |
| Sections.Connection.GetActive | operation.c:42-61 | The section refines the engine's get_active, the list included; it fails exactly when the connection is not enabled, changing nothing |
| Sections.Connection.PutActive | operation.c:63-75 | The section refines the engine's put_active, the list and the wake-up included |
| Sections.Connection.FindOutgoing | operation.c:176-194 | The loop returns what the engine's lookup does with one reference taken, and changes nothing else |
| HostDevice.LowestFree | connection.c:203-205 | The smallest free id of the range, or nothing when all are taken |
| HostDevice.PoolRange | connection.c:203-205 | An id is handed out exactly if it is the least free one of a range that does not include its end; an end of zero is no end |
| HostDevice.LastIsNeverUsed | connection.c:286-292 | On a device with at least two CPorts the last is never handed out, and every other is once those below are taken |
| HostDevice.Host.IntfFind | connection.c:21-33 | Found exactly when the interface has a connection with the CPort |
| HostDevice.Host.HdFind | connection.c:34-49 | The one connection with a host CPort id, present exactly when the id is allocated, so received data has at most one destination |
| HostDevice.Host.CreateRange | connection.c:177-284 | For any range: succeeds exactly when the CPort is unused, an id is free and every service is granted, taking the smallest free id; any failure leaves pool and list as they were; the pool stays equal to the ids of the live connections, distinct, and below num_cports if the range is |
| HostDevice.Host.DestroyConnection | connection.c:421-447 | The connection leaves the list and its id goes back to the pool |
| HostDevice.Host.CreateBundle | bundle.c:148-196 | Succeeds exactly when the id is unused and the services are granted |
| HostDevice.Host.DestroyBundle | bundle.c:198-219 | The bundle and exactly its connections go, with their ids |
| HostDevice.Host.BundleFind | bundle.c:221-234 | Found exactly when the interface has a bundle with the id |
| HostDevice.SingleCportOverflows | connection.c:286-292 | With a single CPort the id range is unbounded and hands out an id that the device does not have |
| HostDevice.RangeIsSafe | connection.c:289-291 | The ids handed out are below num_cports, whatever ids are taken, exactly when there are at least two CPorts |
| ManifestScan.IdentifyDescriptor | manifest.c:73-145 | Accepts exactly the positions where a valid descriptor stands, whatever byte lies past the end |
| ManifestScan.Scan | manifest.c:396-446 | Accepts a buffer exactly when the header is right and the rest can be cut into valid descriptors, and lists that decomposition |
| ManifestScan.TilesUnique | manifest.c:434-446 | There is at most one decomposition |
| ManifestScan.TilesCover | manifest.c:437-446 | Every byte after the header lies in some listed descriptor |
| ManifestScan.TilesOrdered | manifest.c:442-445 | Listed descriptors are disjoint and in order |
| ManifestScan.TileableIffSpellable | manifest.c:396-446 | A decomposition exists exactly when the bytes are a concatenation of strings each of which is one valid descriptor |
| ManifestDemand.ReadyRound | manifest.c:277-319 | All declared things can be built exactly when the next bundle and its CPorts can and all that is left can afterwards |
| ManifestDemand.CportsSplit | manifest.c:212-249 | The CPort demands of several bundles split into those of one bundle and those left when its descriptors are released |
| ManifestDemand.SaneByNumber | manifest.c:222-241 | A CPort descriptor is sound exactly when its id is below 4096 and id zero goes with protocol zero |
| ManifestDemand.LowestIsFree | connection.c:286-292 | An id is handed out exactly when one is free, and uses up one |
| ManifestBuild.SetUpCport | manifest.c:222-246 | One CPort descriptor is set up exactly when it is sound, unused, granted and an id is free |
| ManifestBuild.ParseCports | manifest.c:201-262 | Positive exactly when the bundle has a CPort descriptor and all can be set up; then each non-zero one has its connection, nothing else was added and the bundle's descriptors are released |
| ManifestBuild.SetUpBundle | manifest.c:280-314 | One bundle is set up exactly when its id and class are sound and unused, it is granted and its CPorts can be set up |
| ManifestBuild.Cleanup | manifest.c:322-330 | Every bundle and connection of the interface goes, nothing of any other is touched |
| ManifestBuild.ParseBundles | manifest.c:269-331 | Positive exactly when there is a bundle descriptor and everything declared can be built; then all of it is there and nothing else; otherwise nothing of the interface is left and all others are untouched |
| ManifestBuild.ServedOnce | connection.c:195-201 | A served CPort descriptor is served by exactly one connection |
| Manifest.StringGet | manifest.c:158-194 | The first string descriptor with the id is used up and its text returned; missing exactly when there is none |
| Manifest.FindInterface | manifest.c:448-459 | Exactly one interface descriptor or a refusal |
| Manifest.Parse | manifest.c:396-476 | From bytes to connections: succeeds exactly for a well-formed manifest with one interface descriptor, its strings and a bundle descriptor whose demands can all be met; then vendor and product are the texts of the strings whose ids are its first and second byte; failure leaves no names, and the host as it was or with nothing of the interface |
| ManifestWire.UnwireWire | greybus_manifest.h:85-144 | Every valid descriptor consists of its header, its fields in order and a tail |
| ManifestWire.ReadsBack | manifest.c:212-227 | A written descriptor is valid, and is read with the type, ids, class, bundle, protocol or text that was written |
| ManifestWire.AcceptedIffWritten | manifest.c:396-446 | The buffers that the scan accepts are exactly the manifests that can be written |
| ManifestWire.ParseWritten | manifest.c:333-476 | Parsing a written manifest succeeds exactly when what was written has one interface, its names and a bundle and can be built; it then gives exactly the written bundles, connections and names |
| ProtocolRegistry.Registry.Find | protocol.c:19-42 | The early-exit search agrees with lookup of the exact version in a plain map |
| ProtocolRegistry.Registry.Place | protocol.c:57-96 | Finds the version, or the one place that keeps the list sorted |
| ProtocolRegistry.Registry.Register | protocol.c:44-100 | Keeps the order, adds exactly the new version to the map, refuses an existing one |
| ProtocolRegistry.Registry.Deregister | protocol.c:114-135 | Succeeds exactly for a registered version with a zero count, which with exact counts means that nobody holds it |
| ProtocolRegistry.Registry.Get | protocol.c:139-164 | The count stays the number of holders exactly when it was below 255 |
| ProtocolRegistry.Registry.Put | protocol.c:197-222 | Lowers exactly this version's count, never below zero, and keeps exact counts exact |
| ProtocolRegistry.FirstIsNewest | protocol.c:44-56 | The first entry for an id is its newest registered version |
| ProtocolRegistry.DeregisterUnderHolder | protocol.c:114-222 | On a registry, after h holders have come and all but one gone, deregistration succeeds under the live holder exactly when h is above 255 |
| Lifecycle.Connection.Init | connection.c:345-397 | Succeeds exactly when every step for this kind of CPort does, and otherwise returns the first error; asks for exactly the steps up to that, in order; a failure undoes the announcement |
| Lifecycle.Connection.BindProtocol | connection.c:457-489 | Keeps the counts balanced and returns the error of the initialisation; a failed one returns the protocol reference |
| Lifecycle.Connection.Exit | connection.c:399-416 | Only an enabled connection is torn down, once: operations cancelled, then the protocol, then the interface told |
| Lifecycle.Connection.DestroyConnection | connection.c:421-440 | Afterwards announcements, initialisations and protocol references are all undone |
| Lifecycle.Connection.Run | connection.c:345-489 | Over any serial run of bind attempts up to a destroy, connected minus disconnected is 1 exactly while enabled; a connection is enabled exactly when it was, or its interface can be reached and some attempt came up; connection_exit runs once exactly if an initialisation succeeded |
| UrbPool.NextFreeUrb | es2.c:188-216 | Takes the first block that is neither busy nor under cancellation |
| UrbPool.ApplyKeeps | es2.c:218-238 | Every step of senders, completions and cancellers keeps busy flags, holders and markers in agreement |
| UrbPool.OneHolder | es2.c:291-325 | In every run a block has at most one holder |
| UrbPool.PrivIsOwn | es2.c:291-325 | In every run hcpriv names only a block that its own message holds |
| UrbPool.BusyIffHeld | es2.c:188-238 | In every run a pool block is busy exactly when some message holds it |
| UrbPool.KillHitsOnlyOwn | es2.c:333-366 | In every run a block that a canceller has marked is held by no other message until it is unmarked |
| UrbPool.KilledHasReported | es2.c:333-366 | In every run a message that was submitted before its cancellation began has been reported and cleared when the kill has returned |
| UrbPool.AcquireTakesFirst | es2.c:188-216 | In every run a new message gets the first pool block that no message holds and no canceller protects, and a fresh one exactly when there is none |
| UrbPool.PoolCanBeEmptied | es2.c:218-238 | From every state of every run all senders and cancellers can come to their end, and then no block is busy or marked |
| I2c.RoundTrip | i2c.c:95-171 | The request decodes to the same addresses, flags, sizes and write data in order |
| I2c.WritesFound | i2c.c:158-168 | The receiver finds the data of every write from the decoded operations alone: at the sum of the sizes of the earlier operations with the read flag clear |
| I2c.Sizes | i2c.c:116-136 | The 32-bit sums never wrap and are the sizes of the data |
| I2c.OperationCreate | i2c.c:105-171 | Writes exactly the reference encoding, or refuses exactly when there are too many messages or a buffer is too small |
| I2c.FillData | i2c.c:158-168 | The write data is copied in order behind the operations |
| I2c.DecodeResponse | i2c.c:173-190 | Every message with the read flag gets the bytes of the response at the sum of the earlier read sizes, and together they are exactly the response; write messages are untouched |
| Sdio.BlockFits | sdio.c:107-117 | The largest block fits into one message exactly when the host device has room for 512 bytes, and is at least 512 |
| Sdio.BlockSize | sdio.c:112-115 | The block size is the largest power of two up to the smaller of the module's answer and the room for data, but at least 512 |
| Sdio.DataMaxExact | sdio.c:107-110 | data_max is the largest amount of data that fits beside the headers of request and response, exactly when the payload can hold a request at all; below that the subtraction wraps |
| Sdio.ProgressIffFits | sdio.c:321-323 | A chunk is non-empty exactly when a block fits into one message |
| Sdio.Transfer | sdio.c:299-344 | For any sizes and any number of rounds: chunks are consecutive, whole-block, within the limit, as large as it allows and without 16-bit truncation; success covers exactly all blocks; a stop or error leaves bytes_xfered at the completed prefix; if a block fits into a message the loop ends within as many rounds as there are blocks, otherwise nothing is ever transferred |
| Sdio.CutsDisjoint | sdio.c:334-336 | Chunks are disjoint, in order and inside the data |
| Endo.ModulesOversized | endo.c:131-140 | True exactly when two neighbouring ribs are missing |
| Endo.ReverseBits | endo.c:143-159 | The mask read from its other end |
| Endo.PowerOfTwoTrick | endo.c:166-174 | Clearing the lowest set bit leaves nothing exactly when at most one bit is set |
| Endo.ValidateBackRibs | endo.c:256-315 | Accepts exactly sound, canonical back layouts |
| Endo.ValidateId | endo.c:322-351 | Accepts exactly the valid ids; the size, the masks of both back sides and the front mask are those that the bits of the id give, in numbers; an accepted endo has back modules of one or two units on both sides |
| Endo.SizeByMask | endo.c:14-30 | The size follows the masks 0x1000, 0x400 and 0x100, in that order |
| Endo.BackByMask | endo.c:18-31 | The right ribs are the low bits of the id and the left ribs the bits above them |
| Endo.FrontModules | endo.c:195-228 | For each front code, mini or not, on which of the four front interfaces a module begins |
| Endo.OneCanonicalId | endo.c:290-310 | Of an id and its 180 degree rotation exactly one is accepted, unless they are the same id |
| Endo.BackHeights | endo.c:127-140 | A back side has only modules of one or two interfaces exactly when its mask has no gap |
| Endo.GapEitherWay | endo.c:281-288 | Reversing a mask keeps module heights |
| Endo.GetModuleId | endo.c:368-397 | The lowest interface of the rib-free block on the interface's own side, for any rib count and mask |
| Endo.ModuleMonotone | endo.c:353-367 | The module is unique, and module ids grow with interface ids |
| Endo.ModuleIdempotent | endo.c:353-357 | A module's first interface belongs to that module |
| Endo.CreateModules | endo.c:405-435 | Creates every module exactly once, in order, up to the first that cannot be created |
| Pcm.Player.Tick | audio-pcm.c:38-103 | One tick changes the state as the step function says and stays inside the ring |
| Pcm.Player.Prepare | audio-pcm.c:175-185 | Starts over at the beginning of the ring |
| Pcm.RunIsSound | audio-pcm.c:73-98 | Over any run the bytes sent are the ring read round and round without gap or overlap, and transfer_done plus the periods subtracted is the whole number of frames sent |
| Pcm.SamplesNumbered | audio-pcm.c:48-77 | Over any run the CPort is active exactly when a running tick has come since the last stop, and the messages since then are numbered in steps of 48 |
| Pcm.KeepsUpIffOnePerTick | audio-pcm.c:94-98 | In every run less than a period is left over after every event, exactly when no tick of the first laps completes two periods, which the ring, period and frame sizes decide |
| Pcm.ChunkInPeriodKeepsUp | audio-pcm.c:94-98 | A period that holds a whole chunk is enough for that |
| Pcm.TwoPeriodsInFirstChunk | audio-pcm.c:94-98 | A first chunk of two periods is too much: the run of one tick already leaves a period over |

## Left out

- Kernel services (locks, workqueues, completions, allocation, device registration, USB, timers) are atomic steps, parameters or granted; allocation of descriptor and list nodes, of operations and of the I2C request is taken to succeed.
- Memory order: spinlock sections are atomic steps. The unlocked state check at operation.c:901 is dropped, so responses may be looked up in any connection state, which only adds runs.
- The bundle loop takes the next remaining bundle descriptor; the saved next pointer of manifest.c:277 may have been released by manifest.c:249, so the literal loop is not defined for every input.
- `gb_connection_intf_find` reads the bundle of every connection; the early SVC connection, which has none, is taken as no match. svc_update_connection, which gives it one, is not modelled.
- In the manifest model the protocol binding at the end of connection creation is left to `Lifecycle`; its failure does not fail the creation.
- EngineEnding.FairTeardownEnds: fairness is a hypothesis on the schedule; that the kernel's schedulers, workqueues and interrupts meet it is not modelled.
- EngineFault.FaultWasEarly: what a kernel does after the null dereference is not modelled; the teardown thread stops there.
- ManifestScan.Scan: an allocation failure in identify_descriptor, which also rejects the buffer, is not modelled.
- Sdio.Transfer: the calls _gb_sdio_send and _gb_sdio_recv are their results; scatter-list copies are not modelled. The loop is cut off after a number of rounds that is arbitrary, since with blocks that do not fit into a message it need not end.
- UrbPool.KillHitsOnlyOwn: each message has one canceller, which `EngineSafety.OneKiller` shows for requests; use of the pool after disconnect is outside.
- Endo.GetModuleId: an interface number whose shift would exceed the machine word is treated like any other; the source's interfaces are far below that.
- Endo.ModulesOversized: a rib count of zero, for which count - 1 wraps, is excluded; so is a width above eight bits in `Endo.ReverseBits`, whose masks are bytes.
- Pcm.Player.Tick: the notification through the uninitialised period_elapsed (audio-pcm.c:44, 101) and the control messages that start and stop the CPort are left out.
- ProtocolRegistry.Registry.Register: a protocol enters with count zero, as every caller in the repository leaves it, and bundles are bound to it by `Lifecycle`, not here.
- The protocol drivers for battery, PWM, vibrator, GPIO, HID, UART, USB, lights, firmware, control, SVC, audio, loopback, SPI and raw, and the ES1 driver: thin request wrappers, or shapes already covered by I2C and ES2.
- sysfs and debugfs attributes, logging, module loading and the build.
