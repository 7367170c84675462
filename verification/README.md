# Verified model of stampzilla-go

Stampzilla is a home-automation server with nodes that talk to devices. This project
models the parts of it that keep state over time or parse bytes, and proves what those
parts promise, over every input, every interleaving and every whole run.

| files | what they model |
|---|---|
| `rule_machine`, `logic`, `logic_engine` | The rule engine: rules with and without a delay, their timers, their action runs and the worker that evaluates them |
| `action_run`, `cancelled_runs` | A run of actions: sleeps, scenes sent node by node, cancellation, notified destinations; scheduled tasks; what a cancelled run still does |
| `nibe_protocol`, `nibe_worker`, `nibe_damage` | The heat pump's serial protocol: re-synchronising scanner, encoder, and the loop that feeds reads to the scanner |
| `exoline`, `exoline_client` | Exoline framing with in-place unescaping, commands and replies |
| `node_sync`, `node_runs`, `node_settle`, `node_agreement`, `node_updates`, `node_engine` | A node keeping the server's copy of its devices current: updates through a batching worker, and state-change requests that write a device themselves |
| `persons`, `persons_failures`, `persons_order`, `persons_store` | The store of persons and its batch update, which must keep an administrator, also when they fail |
| `tibber`, `tibber_picks` | Choosing hours by electricity price |
| `requests`, `request_runs` | Pending certificate requests, deleted from a slice while it is ranged over |
| `devices`, `device_list`, `server_store` | Device states, their diff and merge, lists of devices, the server's own state |
| `bytes`, `sequences` | Exclusive-or on bytes; flattening, and ranging over a map |

Each component has its reference definitions as functions, methods and classes that do
what the source does step by step and are proved equal to those functions, and theorems
about the functions and about runs of them. A Go map is ranged over in an arbitrary order;
the methods choose an arbitrary next key, and where the order can matter it is a ghost
result.

## What the proofs say about the code

* **Debounce.** A rule with a delay starts its actions only if a timer began at least the
  delay earlier and no evaluation since was false, in every interleaving of all rules
  (`EngineDebounces`). This needs an expression over device states alone. For any
  expression a start is debounced exactly when the rule is still pending
  (`EngineStartDebouncedIff`), and `FollowerNotDebounced` is a run of two rules, the second
  reading the first through `rules[...]`, where it is not.
* **Falling edges.** A rule without a delay cancels the run of the preceding rise; one with
  a delay never does. At most one run is ever uncancelled exactly when there is no delay
  (`OneRunIff`). From the moment it is cancelled, a run sends nothing more, whatever happens,
  in every interleaving (`EngineSilences`); until then it goes on by one action at a time
  (`StepGoesOn`).
* **Nibe scanner.** It reads past the end of the buffer exactly when the last byte is 5C
  and everything before is skipped (`CrashExactly`). An encoded message decodes to itself
  exactly up to 253 data bytes, because the length byte is truncated (`RoundTrip`). A drain
  delivers the frames of a stream and keeps the unfinished tail exactly when the
  buffer ends at a safe position (`DrainStream`): at a frame boundary, behind a complete
  header, or in a shorter piece that holds no 06 and does not end in 5C. A session of reads
  stands right throughout exactly when all of them end safely (`ChunkingIff`). A damaged
  frame is consumed alone, but the frames behind it wait for the next read
  (`ResyncAfterDamage`): over a whole session every sound frame comes out once, in order, at
  most one read later per damaged frame before it (`DamageDelays`).
* **Exoline commands.** Two commands share a frame exactly when line, operation and cell
  agree modulo what their bytes hold (`SharedFrame`).
* **Node synchronisation.** Without state-change requests the server has every device as it
  is whenever nothing is on its way, in every interleaving (`QuietMeansAgreement`). A request
  writes its device itself, in four steps, and can be overtaken by an older copy in a batch
  (`RequestOvertaken`) or overtake a newer one (`RequestOvertakes`); both runs start from a
  fresh node. `SettledIff` says from which states the server can only end up right, and
  `StepIff` and `CarefulIff` which steps keep a node in such states.
* **Updates.** `UpdateState` computes its difference under one lock and merges it under
  another. `UpdateHoldsIff` says exactly when the listed device holds the update afterwards;
  `UpdateLost` and `UpdateReplaced` are interleavings in which it does not. The online flag
  takes the value asked for in the same way, with one difference: the object that was read
  gets it for certain (`OnlineHoldsIff`, `OnlineReplaced`).
* **Persons.** The last administrator is never lost, also by batches that stop half-way
  (`LastAdminKept`). `EveryOrderIff` says which batches succeed in every order of the map,
  `SomeOrderIff` which in some, and `OrderMattersIff` so for which it depends on luck;
  `HandOver` is a family of such batches. A failing update changes nothing (`FailedUpdate`),
  a failing batch has done exactly a beginning of its work (`FailedBatch`).
* **Certificate requests.** Removing while ranging is right exactly when no two
  neighbouring requests are of the connection and the last one is only if it is the only
  one (`RemovesExactly`); otherwise a request is missed, or the loop panics
  (`RemoveRequest` says when). Whole runs in which every removal meets such a list are right
  (`Serve`); those with one pending request per connection are among them
  (`PatientIsOrderly`). A handler is told true exactly when its request was approved
  (`ToldIffApproved`).
* **Prices.** A missing hour counts as free. For given hours the chosen window is priced
  throughout, whatever the prices, exactly when every window that fits is
  (`Tibber.AlwaysPricedIff`); `GapWins` is a price list for which it is not. The spaced picks
  are priced hours, whatever the prices, exactly when no chain of hours that could be picked
  one behind the other ends early (`PicksAlwaysPricedIff`).
* **Copies of devices** lose the alias and replace a nil state, so a copy compares equal to
  the original exactly when there was neither (`CopyIsEqual`).

## Assumptions

* A worker step of the rule engine (device update plus evaluation of all rules) and a timer
  expiry (second evaluation, flags, start of the actions) are atomic. A timer that was
  spawned is waiting, and a run that was started has stored its cancel function, before the
  next step. Rules start inactive and are not replaced during a run. An expression is a
  deterministic function of device states and active flags.
* A scene's messages are counted when the loop hands them to the sender; a failing send is
  only logged by the source.
* In the node model devices are not removed, and writing to the server succeeds. Everybody may
  act between any two steps. A step is what happens under one lock or one channel operation,
  together with getting the pointer from the list where that comes first (`ReadState`,
  `ReadOnline`, `CopyNext`) and, in a state-change request, with the unlocked comparison
  (`RequestState`). A listed object's kind, name and traits change by listing another object.
  The alias is the server's own and not compared.
* The person store is modelled sequentially: the lock that `AddOrUpdatePerson` takes is
  released at once and protects nothing. A stored person's UUID is its key. Password
  hashing is one uninterpreted function that may fail.
* State values have ordinary equality: no NaN, nil or uncomparable values. State maps may be
  nil: comparing and copying devices distinguishes nil from empty, and merging into a nil map
  panics. A nil state reads as an empty one, also in what a node sends.
* Every request's channel is its own, as `WaitForApproval` creates it; a send on it is
  received.
* Prices are reals and times exact nanoseconds; equal times are equal map keys.

## Model

| member | source | states |
|---|---|---|
| Bytes.XorLoop | nodes/stampzilla-nibe/nibe/protocol.go:157-160 | The accumulator loop yields the exclusive-or of all bytes |
| Bytes.XorClosed | nodes/stampzilla-nibe/nibe/protocol.go:157-161 | A byte string followed by its checksum cancels to zero |
| Bytes.XorConcat | nodes/stampzilla-nibe/nibe/protocol.go:69-72 | The checksum of a concatenation is the exclusive-or of the checksums |
| Bytes.FlipAll | nodes/stampzilla-exoline/exoline/exoline.go:210 | Exclusive-or with FF is the complement to 255 |
| NibeProtocol.DecodeMessage | nodes/stampzilla-nibe/nibe/protocol.go:54-144 | The scanning loop with its early returns finds what the first position that is not skipped decides: a message, an incomplete frame, a dropped frame or the panic |
| NibeProtocol.FirstDecides | nodes/stampzilla-nibe/nibe/protocol.go:55-141 | If all positions before one are skipped and it is not, it determines the outcome |
| NibeProtocol.RestIsSuffix | nodes/stampzilla-nibe/nibe/protocol.go:54-144 | Whatever the scan returns, the remaining buffer is a suffix of the given one |
| NibeProtocol.CrashExactly | nodes/stampzilla-nibe/nibe/protocol.go:56 | The scan indexes out of range if and only if the last byte is 5C and every position before it is skipped |
| NibeProtocol.JunkSkipped | nodes/stampzilla-nibe/nibe/protocol.go:55-143 | Bytes other than 5C, C0 and 06 in front are passed over |
| NibeProtocol.SkippedIff | nodes/stampzilla-nibe/nibe/protocol.go:55-141 | A position is passed over if and only if it is not a final 5C, not a 5C 00 with a whole header, not a C0 with four bytes behind it, and not 06 |
| NibeProtocol.EncodeMessage | nodes/stampzilla-nibe/nibe/protocol.go:146-164 | The frame is header, truncated length, little-endian address, data and checksum, and cancels to zero as a whole |
| NibeProtocol.AddressBytes | nodes/stampzilla-nibe/nibe/protocol.go:146-156 | The two bytes of the address make it up again, low byte first, and the data follow |
| NibeProtocol.EncodedHead | nodes/stampzilla-nibe/nibe/protocol.go:109-132 | A scanner reads an encoded message of any length by its length byte, modulo 256 |
| NibeProtocol.RoundTrip | nodes/stampzilla-nibe/nibe/protocol.go:109-164 | Decoding junk, an encoded message and a tail gives the message and exactly the tail, if and only if there are at most 253 data bytes |
| NibeWorker.Worker.Receive | nodes/stampzilla-nibe/nibe/worker.go:57-66 | One read appended and drained: the buffer left, the messages for address 20 handled in order, or the panic; the loop terminates |
| NibeWorker.Worker.Session | nodes/stampzilla-nibe/nibe/worker.go:40-67 | A whole sequence of reads leaves and handles what draining them one after the other yields |
| NibeWorker.OursExactly | nodes/stampzilla-nibe/nibe/worker.go:59-66 | Of the decoded messages exactly those for address 20 are handled |
| NibeWorker.FeedAfterPanic | nodes/stampzilla-nibe/nibe/worker.go:57-66 | A read that panics ends the session: no later read delivers anything |
| NibeWorker.WholeFrame | nodes/stampzilla-nibe/nibe/protocol.go:56-140 | A complete well-formed frame in front is delivered and exactly what follows remains |
| NibeWorker.DamagedFrame | nodes/stampzilla-nibe/nibe/protocol.go:102-106 | A request with a wrong checksum is consumed whole and nothing is delivered |
| NibeWorker.PartialFrame | nodes/stampzilla-nibe/nibe/protocol.go:56-115 | An unfinished frame is left alone if and only if it is cut at a safe position |
| NibeWorker.DrainStream | nodes/stampzilla-nibe/nibe/worker.go:59-66 | Draining a beginning of a stream delivers its complete frames in order and keeps the tail, if and only if it ends at a safe position |
| NibeWorker.DrainPanics | nodes/stampzilla-nibe/nibe/worker.go:59-66 | A read that cuts a frame in its header behind a 5C, with no 06 in the piece, delivers the complete frames and then panics |
| NibeWorker.ChunkingIff | nodes/stampzilla-nibe/nibe/worker.go:57-66 | A session has delivered the complete frames and kept the tail after every read if and only if every read ends at a safe position |
| NibeWorker.ChunkingIndependence | nodes/stampzilla-nibe/nibe/worker.go:57-66 | Reads that end at safe positions deliver what one big read delivers |
| NibeWorker.WholeStream | nodes/stampzilla-nibe/nibe/worker.go:57-66 | A whole stream in such reads delivers every frame once, in order, and leaves nothing |
| NibeWorker.ResyncAfterDamage | nodes/stampzilla-nibe/nibe/worker.go:49-66 | A damaged request ends the drain behind itself; what follows it is delivered with the next read if and only if that ends at a safe position |
| NibeDamage.DrainFrom | nodes/stampzilla-nibe/nibe/worker.go:59-66 | From any point of a stream of sound and damaged frames, one drain delivers the sound ones that are complete, through the first damaged one, and keeps the rest |
| NibeDamage.FeedConsumes | nodes/stampzilla-nibe/nibe/worker.go:40-67 | A session of safe reads over such a stream delivers each sound frame it has consumed once and in order and keeps the bytes behind them |
| NibeDamage.DamageDelays | nodes/stampzilla-nibe/nibe/worker.go:40-67 | Frames that have arrived after k reads are all consumed once there was one more read for each damaged one among them |
| Exoline.ShouldEscape | nodes/stampzilla-exoline/exoline/exoline.go:191-207 | The loop over the four special bytes finds exactly them |
| Exoline.CompileMsg | nodes/stampzilla-exoline/exoline/exoline.go:177-221 | The frame is the start byte, the escaped bytes, the escaped checksum and the end byte |
| Exoline.EscapedIff | nodes/stampzilla-exoline/exoline/exoline.go:177-221 | A byte is escaped, by 1B and its complement, if and only if it is 3C, 3D, 1B or 3E |
| Exoline.FrameDelimiters | nodes/stampzilla-exoline/exoline/exoline.go:177-221 | In a frame the end byte occurs only last and neither start byte after the first position |
| Exoline.FlipTimesParity | nodes/stampzilla-exoline/exoline/exoline.go:150-162 | A byte behind k escapes is inverted if k is odd and unchanged if k is even |
| Exoline.UnescapeWire | nodes/stampzilla-exoline/exoline/exoline.go:140-167 | Unescaping a frame gives its start byte, the message, the checksum and the end byte |
| Exoline.EscapeRun | nodes/stampzilla-exoline/exoline/exoline.go:147-162 | In any raw bytes a run of k escapes inverts the byte behind it k times |
| Exoline.MarksInRange | nodes/stampzilla-exoline/exoline/exoline.go:148-162 | Every recorded index lies in the compacted frame when the raw one does not end in an escape |
| Exoline.InPlaceIsUnescape | nodes/stampzilla-exoline/exoline/exoline.go:147-162 | Compacting and then inverting the recorded indexes equals inverting each byte once per escape before it, repeated escapes included |
| Exoline.CompactInPlace | nodes/stampzilla-exoline/exoline/exoline.go:147-158 | The pass over one array leaves the bytes without escapes in front and records one index per escape |
| Exoline.InvertInPlace | nodes/stampzilla-exoline/exoline/exoline.go:160-162 | The second pass inverts the array at the recorded indexes |
| Exoline.DecodeInPlace | nodes/stampzilla-exoline/exoline/exoline.go:147-162 | Both passes in the array unescape every raw frame |
| Exoline.Connection.ReadBytes | nodes/stampzilla-exoline/exoline/exoline.go:141-144 | The bytes through the first delimiter are taken from the connection; without one, all and an error |
| Exoline.Connection.Read | nodes/stampzilla-exoline/exoline/exoline.go:140-167 | One read gives the next decoded frame and leaves the bytes behind it |
| Exoline.ReadFrame | nodes/stampzilla-exoline/exoline/exoline.go:140-221 | Reading a frame followed by anything gives the plain frame and exactly what follows |
| Exoline.RoundTrip | nodes/stampzilla-exoline/exoline/exoline.go:140-221 | Any number of compiled messages back to back read back frame by frame |
| Exoline.CompileInjective | nodes/stampzilla-exoline/exoline/exoline.go:177-221 | Different messages have different frames |
| Exoline.ReplyPayload | nodes/stampzilla-exoline/exoline/exoline.go:136-138 | The payload of a reply is its data, and its inner bytes cancel to zero |
| ExolineClient.GenerateMsg | nodes/stampzilla-exoline/exoline/exoline.go:33-39 | A read command is the write command with an empty value |
| ExolineClient.GenerateWriteMsg | nodes/stampzilla-exoline/exoline/exoline.go:41-49 | Length, operation, line and cell are packed into their bytes, with Go's truncations |
| ExolineClient.CommandBytes | nodes/stampzilla-exoline/exoline/exoline.go:33-49 | Header, length, operation, line and value stand at their places, modulo 256 |
| ExolineClient.SharedFrame | nodes/stampzilla-exoline/exoline/exoline.go:33-49 | Two commands have the same frame if and only if operation and line agree modulo 256, the values are equal, and the cells agree modulo 15360 and in Go's remainder by 60 |
| ExolineClient.CommandArrives | nodes/stampzilla-exoline/exoline/exoline.go:33-49 | A reference receiver (the source has none) understands a command as it was meant if and only if operation and line fit a byte, the cell is below 15360 and the value has at most 251 bytes |
| ExolineClient.Client.Send | nodes/stampzilla-exoline/exoline/exoline.go:119-126 | One frame is written and the next frame read |
| ExolineClient.Client.ReadIndex | nodes/stampzilla-exoline/exoline/exoline.go:93-104 | The read command is written and one frame taken from the connection; the answer is its one payload byte, an error (no frame, or another number of bytes), or the panic when it has fewer than five bytes |
| ExolineClient.Client.WriteIndex | nodes/stampzilla-exoline/exoline/exoline.go:107-117 | The write command is written and one frame taken; success if and only if it is the fixed reply |
| ExolineClient.OnlyAccepted | nodes/stampzilla-exoline/exoline/exoline.go:113-115 | Of all reply frames only the one that carries 01 00 is taken for success |
| ExolineClient.ReplyRead | nodes/stampzilla-exoline/exoline/exoline.go:93-104 | A reply is read as a value exactly when it carries one data byte, and panics exactly when length or status are missing |
| ExolineClient.NoReply | nodes/stampzilla-exoline/exoline/exoline.go:93-104 | When the connection ends before the reply does, reading fails |
| Devices.DiffOf | nodes/stampzilla-server/models/devices/state.go:52-73 | The difference is empty exactly when merging would change nothing, and merging it is merging the whole |
| Devices.Diff | nodes/stampzilla-server/models/devices/state.go:53-73 | Both loops together compute that difference |
| Devices.Merge | nodes/stampzilla-server/models/devices/state.go:76-85 | The right state overrides the left in a new state |
| Devices.Device.MergeWith | nodes/stampzilla-server/models/devices/state.go:87-91 | The receiver is overridden in place; a nil receiver panics unless there is nothing to assign |
| Devices.GroupingIsPartition | nodes/stampzilla-server/logic/rule.go:157-163 | Every entry lies in exactly the group of its node, no group is empty, and the groups together are the scene |
| Devices.GroupByNode | nodes/stampzilla-server/logic/rule.go:157-163 | The loop over the scene in any order builds those groups |
| DeviceList.EqualState | nodes/stampzilla-server/models/devices/state.go:93-107 | Comparing nil-ness, lengths and the left keys decides equality, nil and empty being different |
| DeviceList.Equal | nodes/stampzilla-server/models/devices/device.go:85-112 | Devices are equal if and only if kind, name, alias, online flag, state and traits agree, nil and empty being different |
| DeviceList.SliceIsEqual | nodes/stampzilla-server/models/devices/device.go:114-131 | The nil check and the loop decide equality of trait lists |
| DeviceList.Copy | nodes/stampzilla-server/models/devices/device.go:134-155 | The copy is a new object that looks like the device, except that it has no alias and a nil state has become an empty one |
| DeviceList.CopyIsEqual | nodes/stampzilla-server/models/devices/device.go:85-155 | A copy compares equal to the device if and only if the device has no alias and its state is not nil |
| DeviceList.List.Add | nodes/stampzilla-server/models/devices/device.go:178-182 | The device is listed under its id and replaces the one listed before |
| DeviceList.List.SetState | nodes/stampzilla-server/models/devices/device.go:185-194 | A listed device gets the new state and nothing else; any other id is refused |
| DeviceList.List.CopyList | nodes/stampzilla-server/models/devices/device.go:223-234 | The copy has the same ids and a new object for each |
| DeviceList.List.StateGroupedByNode | nodes/stampzilla-server/models/devices/device.go:269-280 | The states of all devices, nil ones included, grouped by node |
| ActionRun.DeliversEachOnce | nodes/stampzilla-server/logic/rule.go:157-173 | Every device of a scene is in exactly one message, with its state, and there are as many messages as nodes |
| ActionRun.SendGroups | nodes/stampzilla-server/logic/rule.go:157-173 | Restoring a scene sends one message to each of its nodes with that node's devices |
| ActionRun.ActKeepsWhole | nodes/stampzilla-server/logic/rule.go:129-174 | After each step of a run the first k actions have sent everything in order, later ones nothing; what was sent stays |
| ActionRun.ActGoesOn | nodes/stampzilla-server/logic/rule.go:129-179 | An uncancelled run goes on by one action at a sleep or a stored scene and sends all of it; it ends without sending at a missing scene, and behind the last action by notifying the destinations |
| ActionRun.ActSilent | nodes/stampzilla-server/logic/rule.go:129-174 | A cancelled run stays cancelled and sends nothing; it ends at a scene, and at a sleep unless the timer came first |
| ActionRun.Execute | nodes/stampzilla-server/logic/rule.go:123-180 | A whole run sends the complete blocks of the actions before the first that is interrupted or lacks its scene, and nothing of it or later ones; destinations are triggered if and only if that is all of them |
| ActionRun.RunSent | nodes/stampzilla-server/logic/rule.go:129-174 | What a run of the rule machine has sent after k actions is what the loop sends for them |
| ActionRun.NotifyAll | nodes/stampzilla-server/logic/rule.go:176-179 | All destinations are triggered, in order |
| ActionRun.PrefixOfUninterrupted | nodes/stampzilla-server/logic/rule.go:123-180 | Blocks of the first actions begin blocks of the first m, for every m up to the first missing scene |
| ActionRun.SentPrefix | nodes/stampzilla-server/logic/rule.go:123-180 | What any run has sent, however it was stopped, is a beginning of what a run sends that is not cancelled, which ends at the first missing scene |
| ActionRun.SentPrefixOfAll | nodes/stampzilla-server/logic/rule.go:123-180 | And a beginning of what a run of all actions sends once the store holds the missing scenes as well |
| ActionRun.RunTask | nodes/stampzilla-server/logic/task.go:66-113 | A task sends complete scenes up to the first missing one, and nothing when disabled or when its condition fails |
| CancelledRuns.StepGoesOn | nodes/stampzilla-server/logic/rule.go:129-174 | In the rule machine an uncancelled run before a sleep or a stored scene sends exactly that action's messages and goes on |
| CancelledRuns.CancelledSilent | nodes/stampzilla-server/logic/rule.go:114-174 | Over any run of a rule, whatever happens after an action run was cancelled, it has sent what it had sent then |
| CancelledRuns.FallSilences | nodes/stampzilla-server/logic/logic.go:243-261 | A falling edge of a rule without a delay silences the run of the rise before it for good |
| CancelledRuns.EngineSilences | nodes/stampzilla-server/logic/logic.go:131-261 | In every interleaving of all rules a run sends nothing from the moment it is cancelled |
| RuleMachine.EveryRun | nodes/stampzilla-server/logic/logic.go:180-261 | In every reachable state: with a delay at most one timer, begun by the latest rise, one timer begun per rising edge, pending is the last worker evaluation, starts never outnumber rises; without one active is the last evaluation, starts are exactly the rises, each fall cancels the latest run, at most one run is not cancelled |
| RuleMachine.DebounceSafety | nodes/stampzilla-server/logic/logic.go:180-241 | If expiries see what the worker saw last: active implies pending, the server is shown the flags as they are, every start came after the condition held for the delay |
| RuleMachine.StartsAreDebounced | nodes/stampzilla-server/logic/logic.go:180-241 | Before every start a timer began at least the delay earlier, with no other timer and no false evaluation in between |
| RuleMachine.StartDebouncedIff | nodes/stampzilla-server/logic/logic.go:207-231 | For any expression, an expiry that starts the actions is debounced if and only if the rule is pending |
| RuleMachine.HeldSinceMeans | nodes/stampzilla-server/logic/logic.go:188-223 | The recursive reading of the log agrees with the statement about its entries |
| RuleMachine.RiseAndExpire | nodes/stampzilla-server/logic/logic.go:194-231 | A condition that turns true and holds starts one more run, for every delay, negative ones included |
| RuleMachine.DelayedRunsOverlap | nodes/stampzilla-server/logic/logic.go:236-241 | For every delay and every list of actions there is a run that leaves two uncancelled action runs |
| RuleMachine.OneRunIff | nodes/stampzilla-server/logic/logic.go:170-261 | At most one action run is uncancelled in every reachable state if and only if the rule has no delay |
| RuleMachine.ActiveIff | nodes/stampzilla-server/logic/logic.go:180-241 | Until shutdown, if expiries see what the worker saw last, a delayed rule is active if and only if it is pending and its timer has fired |
| RuleMachine.ShutdownDrops | nodes/stampzilla-server/logic/logic.go:208-214 | A shutdown takes one timer away and changes nothing else |
| RuleMachine.FlagsFollow | nodes/stampzilla-server/logic/logic.go:180-261 | A worker evaluation sets pending (with a delay) or active (without); a delayed rule neither starts nor cancels a run on it, loses active when it falls, and keeps its timer |
| RuleMachine.ExpiryFollows | nodes/stampzilla-server/logic/logic.go:207-231 | An expiry leaves pending alone; true, it sets active and starts a run that owns the cancel function; false, it changes neither flags nor runs |
| Logic.EvaluatedOnce | nodes/stampzilla-server/logic/logic.go:165-177 | The loop in any order evaluates each enabled rule once, by what it sees at its turn, and touches no other |
| Logic.ReportMerges | nodes/stampzilla-server/logic/logic.go:152-162 | A report overrides the keys it names and leaves all other keys and devices |
| Logic.DevicesMirrorReports | nodes/stampzilla-server/logic/logic.go:131-162 | After every run each key of each device has the value of the last report that named it, and exactly the reported devices are known |
| Logic.ViewIsRun | nodes/stampzilla-server/logic/logic.go:131-261 | In every interleaving each rule performs a run of its own machine |
| Logic.VerdictStands | nodes/stampzilla-server/logic/logic.go:147-177 | While a timer waits, the last worker verdict is what a device-only expression says now |
| Logic.ViewConsistent | nodes/stampzilla-server/logic/logic.go:147-223 | So every expiry of such a rule sees what the worker saw last |
| Logic.EngineDebounces | nodes/stampzilla-server/logic/logic.go:131-241 | Debounce safety over every interleaving of all rules, timers and runs |
| Logic.EngineInvariants | nodes/stampzilla-server/logic/logic.go:131-261 | Every rule satisfies the invariants of its kind in every reachable state of the engine, whatever its expression |
| Logic.OrderImmaterial | nodes/stampzilla-server/logic/logic.go:165-177 | With device-only expressions the order of the loop does not matter |
| Logic.EngineStartDebouncedIff | nodes/stampzilla-server/logic/logic.go:207-231 | In the whole engine and for any expression, a start is debounced if and only if its rule is pending |
| Logic.FollowerNotDebounced | nodes/stampzilla-server/logic/logic.go:221-231 | A run in which a rule over another rule starts although its condition was false in between |
| LogicEngine.Rule.Stop | nodes/stampzilla-server/logic/rule.go:107-112 | At most one waiting timer is stopped |
| LogicEngine.Rule.Cancel | nodes/stampzilla-server/logic/rule.go:114-121 | The run that owns the stored cancel function is cancelled, if any |
| LogicEngine.Rule.Start | nodes/stampzilla-server/logic/rule.go:123-128 | A new run begins and owns the cancel function |
| LogicEngine.Engine.Actives | nodes/stampzilla-server/logic/logic.go:264-267 | The snapshot holds the active flag of every rule |
| LogicEngine.Engine.EvaluateRule | nodes/stampzilla-server/logic/logic.go:263-280 | The verdict of the expression on devices and flags as they are now; an error counts as false |
| LogicEngine.Engine.RunFor | nodes/stampzilla-server/logic/logic.go:180-241 | The rule object changes as the machine's delayed step says |
| LogicEngine.Engine.RunNow | nodes/stampzilla-server/logic/logic.go:243-261 | The rule object changes as the machine's immediate step says |
| LogicEngine.Engine.EvaluateRules | nodes/stampzilla-server/logic/logic.go:165-177 | The loop visits every rule once in some order and changes the rule objects as evaluation in that order does |
| LogicEngine.Engine.UpdateDevice | nodes/stampzilla-server/logic/logic.go:152-162 | A report is merged into the stored device by its difference, or added, and no other device changes; merging into a stored nil state, and nothing else, panics |
| LogicEngine.Engine.Work | nodes/stampzilla-server/logic/logic.go:131-143 | One message of the worker is one possible step of the engine |
| LogicEngine.Engine.Expires | nodes/stampzilla-server/logic/logic.go:207-231 | A timer expiry is one possible step of the engine |
| LogicEngine.Engine.Run | nodes/stampzilla-server/logic/logic.go:131-261 | Whatever time, reports, timers and action steps come, the rule objects perform a run of the model: starts of delayed device-only rules are debounced, undelayed rules are active as last evaluated with at most one uncancelled run, cancelled runs send nothing more; no panic without nil states |
| NodeSettle.FinishKeeps | pkg/node/node.go:514-582 | Handing over, copying, writing batches and writing requests keep a settled device settled |
| NodeSettle.FinishShrinks | pkg/node/node.go:514-582 | Every such step brings the end nearer |
| NodeSettle.UnsettledStays | pkg/node/node.go:514-582 | From an unsettled device that is not at rest some such step leaves it unsettled |
| NodeAgreement.SettledIff | pkg/node/node.go:475-642 | A device is settled (no request holds another copy of it, and it is announced, or no batch holds another copy and it is about to be written or right already) if and only if every way of finishing leaves the server with it as it is |
| NodeAgreement.StepIff | pkg/node/node.go:475-642 | From a state with all devices settled, any step keeps them so if and only if it leaves no request with another copy and, when it sets a device for a request, no batch with one, unless the device is announced |
| NodeAgreement.CarefulIff | pkg/node/node.go:475-642 | All devices are settled in every state of a run if and only if each of its steps does that |
| NodeAgreement.NoRequestsCareful | pkg/node/node.go:536-642 | Without state-change requests every step does |
| NodeAgreement.QuietMeansAgreement | pkg/node/node.go:536-642 | In such runs, from a fresh node, when nothing is on its way the server has every device exactly as it is: kind, name, traits, online flag and state |
| NodeUpdates.UpdateApplies | pkg/node/node.go:589-609 | An undisturbed UpdateState leaves the old state overridden by the new one and announces the device, or changes nothing when that would change nothing |
| NodeUpdates.UpdateHoldsIff | pkg/node/node.go:589-609 | With others acting between its two locks, the listed device holds the new state afterwards if and only if the object that was read is still listed and what the update found in place there still is, or another object is listed that holds it |
| NodeUpdates.UpdateLost | pkg/node/node.go:600-606 | Two callers whose interleaving leaves the device without what the later merge asked for |
| NodeUpdates.UpdateReplaced | pkg/node/node.go:589-606 | An update that is merged into an object no longer listed |
| NodeUpdates.OnlineApplies | pkg/node/node.go:626-641 | An undisturbed SetDeviceOnline leaves the device as before but with the flag asked for, and announces it; or it had that flag, and nothing changes |
| NodeUpdates.OnlineWritten | pkg/node/node.go:639-641 | Whatever others did in between, the object that was read gets the flag asked for, nothing else changes, and its id is announced |
| NodeUpdates.OnlineHoldsIff | pkg/node/node.go:626-641 | So the listed device has the flag afterwards if and only if it is the object that was read or has the flag by itself |
| NodeUpdates.OnlineReplaced | pkg/node/node.go:626-641 | An interleaving in which the listed device does not have it |
| NodeUpdates.RequestCompares | pkg/node/node.go:485-502 | A request goes to the callback if and only if the device is listed and the requested state would change it; else nothing changes |
| NodeUpdates.RequestSteps | pkg/node/node.go:503-521 | Declined, a request changes nothing; accepted, the listed device gets the requested state and the server the device as it was marshalled |
| NodeUpdates.RequestApplies | pkg/node/node.go:514-521 | Undisturbed, an accepted request leaves both the device and the server with the requested state and everything else as before |
| NodeUpdates.RequestOvertaken | pkg/node/node.go:514-582 | From a fresh node: a request writes its device, and the batch copied before is written over it |
| NodeUpdates.RequestOvertakes | pkg/node/node.go:514-609 | From a fresh node, with nothing on its way when the request comes: an update in between is overwritten by what the request had marshalled |
| NodeEngine.Node.AddOrUpdate | pkg/node/node.go:536-542 | Listing a new or known object is one step of the model |
| NodeEngine.Node.UpdateState | pkg/node/node.go:589-602 | Unknown devices, empty states and empty differences change nothing; else the difference is taken along |
| NodeEngine.Node.MergeDiff | pkg/node/node.go:603-608 | The difference is merged into the object it was computed from, whatever is listed by then, and the id announced; a nil state panics |
| NodeEngine.Node.SetDeviceOnline | pkg/node/node.go:626-638 | Nothing for an unknown device or an unchanged flag; else the switch is taken along |
| NodeEngine.Node.SetOnline | pkg/node/node.go:639-641 | The object's flag is set and its id announced |
| NodeEngine.FindChange | pkg/node/node.go:487-501 | The loop over the requested keys finds a change exactly when the difference is not empty |
| NodeEngine.Node.CompareState | pkg/node/node.go:485-502 | A request for an unknown device or without a change does nothing; else it goes to the callback |
| NodeEngine.Node.Receive | pkg/node/node.go:548-560 | The rendezvous queues the id and frees the caller |
| NodeEngine.Node.WorkStep | pkg/node/node.go:561-580 | The worker ends collecting, copies the next queued device, which is listed, as it is at that moment, or writes the batch |
| NodeEngine.Node.CopyAll | pkg/node/node.go:572-576 | The undisturbed loop builds a batch of exactly the queued devices |
| NodeEngine.Node.Run | pkg/node/node.go:475-642 | Over any events that can happen in their order the objects perform the run of the model; after careful runs, and runs without requests, the server has every listed object as it is whenever nothing is on its way; it stops only at a merge into a nil state |
| Persons.UpdateKeepsAdmin | nodes/stampzilla-server/store/persons.go:38-70 | A single update, failed or not, leaves an administrator if there was one |
| Persons.CallKeepsAdmin | nodes/stampzilla-server/store/persons.go:38-111 | So does a batch in any order, also one that stops half-way |
| Persons.LastAdminKept | nodes/stampzilla-server/store/persons.go:38-111 | So does every sequence of single and batch updates |
| Persons.UpdateGrants | nodes/stampzilla-server/models/persons/list.go:29-46 | A successful update stores the requested fields and keeps the stored hash unless a new password was given; only a demoted administrator is logged out |
| PersonsFailures.FailedUpdate | nodes/stampzilla-server/store/persons.go:38-70 | A single update fails, if the wish says anything new, on the last administrator, then on a password mismatch, then on a failing hash; failing, it stores nothing and logs nobody out |
| PersonsFailures.FailedUpdates | nodes/stampzilla-server/store/persons.go:77-85 | The first loop stops at the first update that fails, with its error; those before it are made and nothing behind it is touched |
| PersonsFailures.FailedUpdatesLeave | nodes/stampzilla-server/store/persons.go:77-85 | It leaves those persons as asked for and all others as they were, and has logged out those demoted so far |
| PersonsFailures.FailedDeletes | nodes/stampzilla-server/store/persons.go:87-104 | The second loop stops at an administrator who is the last; those before it are deleted and logged out, all others stay |
| PersonsFailures.FailedBatch | nodes/stampzilla-server/store/persons.go:72-111 | A batch that fails has done exactly a beginning of its work |
| Persons.BatchGrants | nodes/stampzilla-server/store/persons.go:72-111 | A successful batch leaves exactly the requested persons with the requested fields and hashes |
| Persons.BatchLogsOut | nodes/stampzilla-server/store/persons.go:60-104 | It logs out the demoted administrators and then the deleted persons, in the orders of the loops |
| Persons.LogsOutOnce | nodes/stampzilla-server/store/persons.go:60-104 | That is everybody who loses access, once, and nobody else |
| PersonsOrder.SucceedsInEveryOrder | nodes/stampzilla-server/store/persons.go:72-111 | A batch with valid passwords that leaves an administrator standing in both loops succeeds in every order |
| PersonsOrder.FailsInSomeOrder | nodes/stampzilla-server/store/persons.go:72-111 | Any other batch fails in some order |
| PersonsOrder.NoAdminWishedFails | nodes/stampzilla-server/store/persons.go:89-91 | A batch without administrators fails in every order while there is one |
| PersonsOrder.EveryOrderIff | nodes/stampzilla-server/store/persons.go:72-111 | A batch succeeds in every order if and only if passwords are valid and an administrator is left standing in both loops |
| PersonsOrder.SomeOrderIff | nodes/stampzilla-server/store/persons.go:72-111 | A batch succeeds in some order if and only if passwords are valid and an administrator is asked for when there is one |
| PersonsOrder.OrderMattersIff | nodes/stampzilla-server/store/persons.go:72-111 | Success depends on the order if and only if the second condition holds and the first does not |
| PersonsOrder.HandOver | nodes/stampzilla-server/store/persons.go:47-50 | It does when the only administrator hands the role over to somebody else |
| PersonsStore.Store.CountAdmins | nodes/stampzilla-server/store/persons.go:22-36 | The loop counts the administrators |
| PersonsStore.Store.Add | nodes/stampzilla-server/models/persons/list.go:29-46 | The person is stored with the kept or the new hash, or the password error is returned and nothing stored |
| PersonsStore.Store.AddOrUpdatePerson | nodes/stampzilla-server/store/persons.go:38-70 | Error, stored persons and logouts are those of the single update |
| PersonsStore.Store.UpdateAll | nodes/stampzilla-server/store/persons.go:77-85 | The first loop, left at the first error, does the updates in some order of all requested persons |
| PersonsStore.Store.DeleteAll | nodes/stampzilla-server/store/persons.go:87-104 | The second loop, left at the first error, does the deletions in some order |
| PersonsStore.Store.AddOrUpdatePersons | nodes/stampzilla-server/store/persons.go:72-111 | The batch does both in some orders |
| Requests.Store.AddRequest | nodes/stampzilla-server/store/request.go:33-39 | The request is appended, growing the backing array when it is full |
| Requests.Store.ShiftDown | nodes/stampzilla-server/store/request.go:52 | Everything behind the index moves one down in the backing array; the last element stays behind twice |
| Requests.Store.Release | nodes/stampzilla-server/store/request.go:45-51 | An open channel gets true if and only if approved, and then it is closed; false if it was closed before |
| Requests.Store.Remove | nodes/stampzilla-server/store/request.go:44-53 | A match is released and shifted out of the array, or panics on a closed channel or beyond the slice |
| Requests.Store.RemoveRequest | nodes/stampzilla-server/store/request.go:41-58 | Panics exactly when the last request matches and another does; otherwise what remains and what the channels see is that of the sweep that steps over the request behind each match; on a removable list exactly the connection's handlers are released, with true first if and only if approved |
| Requests.SweepKeeps | nodes/stampzilla-server/store/request.go:43-54 | The sweep keeps exactly the other requests in order if and only if no two neighbours match |
| Requests.ReleasedTells | nodes/stampzilla-server/store/request.go:45-51 | A handler is told true if and only if the removal is an approval and its request is of the connection, and is released if and only if its request is |
| Requests.ReleasedToldFirst | nodes/stampzilla-server/store/request.go:45-51 | True is told before the channel is closed |
| Requests.SweptTells | nodes/stampzilla-server/store/request.go:43-54 | On any list nobody but handlers of the connection is told anything, and true only on approval |
| Requests.RemovesExactly | nodes/stampzilla-server/store/request.go:41-58 | Removing works without panic if and only if no two neighbours match and the last matches only alone; then it also releases exactly the matching handlers |
| Requests.OnePerConnection | nodes/stampzilla-server/store/request.go:41-58 | A list with one request per connection is such a list |
| RequestRuns.Serve | nodes/stampzilla-server/store/request.go:33-62 | Over a whole run in which every removal meets a removable list, several requests of one connection included, each removal takes out exactly the connection's requests and releases their handlers |
| RequestRuns.PatientIsOrderly | nodes/stampzilla-server/store/request.go:33-62 | A run in which no connection adds a request while it has one pending is such a run |
| RequestRuns.SettledRemoves | nodes/stampzilla-server/store/request.go:41-58 | Such a removal never panics and does what it should |
| RequestRuns.StaysSettled | nodes/stampzilla-server/store/request.go:33-62 | Adding and removing keep channels separate and those of pending requests open |
| RequestRuns.TidyThroughout | nodes/stampzilla-server/store/request.go:45-49 | Over a whole run nothing is sent on a closed channel and none is closed twice |
| RequestRuns.NobodyForgotten | nodes/stampzilla-server/store/request.go:41-58 | A pending request stays pending until its channel is closed |
| RequestRuns.ToldIffApproved | nodes/stampzilla-server/store/request.go:33-62 | Over a whole run a handler is told true if and only if an approval took its request out |
| ServerStore.Store.AddOrUpdateServer | nodes/stampzilla-server/store/server.go:10-26 | The entry is created if missing and merged; the callbacks run exactly when it changed |
| ServerStore.Store.Receive | nodes/stampzilla-server/store/server.go:10-26 | A sequence of reports leaves the state and the number of notifications of the model |
| ServerStore.MirrorsReports | nodes/stampzilla-server/store/server.go:10-26 | Every key has the value of the last report that named it |
| ServerStore.NotifiedOfNews | nodes/stampzilla-server/store/server.go:19-24 | The callbacks run exactly as often as a report said something new |
| ServerStore.EntriesAreNamed | nodes/stampzilla-server/store/server.go:12-17 | Entries exist for exactly the items some report named, empty reports included |
| ServerStore.SubscriberUpToDate | nodes/stampzilla-server/store/server.go:19-24 | A subscriber that fetches on every callback and only then never holds a stale value |
| Tibber.RoundIsNearest | nodes/stampzilla-tibber/model.go:229 | The duration is rounded to the nearest hour, halves away from zero |
| Tibber.Prices.Last | nodes/stampzilla-tibber/model.go:118-132 | The latest priced time, or the panic without prices |
| Tibber.Prices.CalculateBestChargeHours | nodes/stampzilla-tibber/model.go:228-271 | The returned hour is priced, not before start, its rounded window over by the last price plus an hour, no such window is cheaper and no equally cheap one earlier; it panics exactly when no window fits |
| Tibber.Prices.SumOf | nodes/stampzilla-tibber/model.go:237-242 | The sum of the hourly prices of a window |
| Tibber.SumOfHour | nodes/stampzilla-tibber/model.go:237-242 | One hour costs its price, of either sign, or nothing when it has none |
| Tibber.SumOfPriced | nodes/stampzilla-tibber/model.go:237-242 | A window over consecutive priced hours costs the total of their prices |
| Tibber.SumRaised | nodes/stampzilla-tibber/model.go:237-242 | Raising the price of one hour by x raises every window it lies in by x |
| Tibber.SumUntouched | nodes/stampzilla-tibber/model.go:237-242 | And leaves every other window as it was |
| Tibber.BestMeans | nodes/stampzilla-tibber/model.go:228-271 | What is chosen: a priced hour not before start, its window over an hour behind the last price at the latest, no such window cheaper and no equally cheap one earlier |
| Tibber.First | nodes/stampzilla-tibber/model.go:254-270 | The first window by sum and then time |
| Tibber.BestIsUnique | nodes/stampzilla-tibber/model.go:228-271 | Start, duration and prices determine the answer, whatever the order of the map |
| Tibber.HourlyWindows | nodes/stampzilla-tibber/model.go:239-242 | Without gaps every hour from a priced one to the last is priced |
| Tibber.ChosenIsPriced | nodes/stampzilla-tibber/model.go:228-271 | Without gaps every hour of the chosen window is priced |
| Tibber.AlwaysPricedIff | nodes/stampzilla-tibber/model.go:228-271 | For given priced hours, the chosen window is priced throughout for all prices of those hours if and only if every window that fits is |
| Tibber.FlatChoosesGap | nodes/stampzilla-tibber/model.go:239-242 | If a window with a gap fits, equal prices choose one with a gap |
| Tibber.BestExists | nodes/stampzilla-tibber/model.go:260-270 | Whenever a window fits, one is chosen |
| Tibber.GapWins | nodes/stampzilla-tibber/model.go:240 | Such a price list: the window around the missing hour is chosen |
| Tibber.Prices.ClearOld | nodes/stampzilla-tibber/model.go:273-281 | Exactly the prices older than 24 hours are removed, the others kept as they are |
| Tibber.ClearOldKeepsBest | nodes/stampzilla-tibber/model.go:228-281 | Removing them does not change the choice of any window that starts later |
| Tibber.Prices.FindCheapest | nodes/stampzilla-tibber/model.go:191-213 | The earliest cheapest price between two times inclusive, or the zero time when there is none |
| Tibber.Prices.CalculateCheapestTimes | nodes/stampzilla-tibber/model.go:188-226 | At least one pick, each the earliest cheapest of its window, the windows one step behind the previous pick |
| Tibber.PicksAreUnique | nodes/stampzilla-tibber/model.go:188-226 | The picks are determined by the prices |
| Tibber.PicksAreSpaced | nodes/stampzilla-tibber/model.go:188-226 | While every window holds a price, consecutive picks are h to 2h apart and pick i lies between i times h and 2i+1 times h after start |
| Tibber.PricedIff | nodes/stampzilla-tibber/model.go:202-204 | All picks are priced if and only if no window was empty |
| Tibber.CoveredPicks | nodes/stampzilla-tibber/model.go:188-226 | No window is empty when every stretch of one step holds a price as far as the picks may reach |
| TibberPicks.PicksAlwaysPricedIff | nodes/stampzilla-tibber/model.go:188-226 | For given priced hours, all of n picks are priced hours for all prices of those hours if and only if every chain of fewer than n hours, each in the window behind the one before it, has an hour in its next window |
| TibberPicks.PicksAreChain | nodes/stampzilla-tibber/model.go:188-226 | Without dead ends the picks are such a chain |
| TibberPicks.ChainIsPicked | nodes/stampzilla-tibber/model.go:191-213 | Every such chain is picked for some prices |
| Tibber.Prices.CalculateCheapestHour | nodes/stampzilla-tibber/model.go:134-149 | Some hour between the times that no other undercuts; it panics exactly when there is none |

## Left out

- Parsing and evaluation of CEL expressions, `daily`, cron and duration strings: library code; an expression is a function, an action a sleep or a scene.
- Real timers, goroutine scheduling inside one step, and the Go memory model: see the assumptions.
- Replacing all rules while timers wait, and concurrent person updates: the code gives no guarantee there.
- JSON, files, certificates, TLS, bcrypt, web server, websockets and their reconnects, mDNS, the user interface and the nodes not named above: I/O and foreign calls.
- The replies and register callbacks of the nibe `handle` function, and the log output: only which messages reach it is modelled.
- Exoline's float conversion, and RRP, RLP and SRP, which differ from RXP and SXP in their constants and that conversion.
- GetRequests and GetRules, which hand out the live slice and map: what a caller sees there later is not modelled.
- The "persons", "requests" and save callbacks; of the callbacks only logouts and the "server" notification are counted.
- Real-time price level, current price and the node state built from them: one-branch members.
- Failed sends: a failed send is logged and the loop goes on, so it counts as sent.
- Tibber.Prices.CalculateCheapestTimes: no claim that the total of the picks is least; the code picks greedily, window by window, and its comment says that it tries.
- SyncDevices, which sends all devices when a connection is made: a node's own writes are the updates and the state-change requests.
- Two devices sharing one Go state map, or one trait list: states and traits are values here.
