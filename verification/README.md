# Verification of the Chimaera co-simulation core

Chimaera runs a gem5 guest against a host application. This project models the
code that decides whether the two stay consistent, and proves what that code
promises for every input, every run and every interleaving.

The core is `gem5-transport`, in four layers that compose.

* **Queues and codec** (`Wire`, `Codec`, `Queues`). The batch and startup packets
  and the two bounded queues of a controller. The codec is a bijection onto the
  byte strings it accepts. The received queue is a FIFO behind a cursor. The
  outgoing queue is a filter of the history of its submissions.
* **Controller protocol** (`Protocol`, `ProtocolInvariant`, `ProtocolTheorems`,
  `GuestController`, `GuestRuns`). The host's I/O worker, the host application and the
  guest as a state machine; each region under the host's mutex and each transport
  operation is one step, and failures of every kind and the cancellation by `stop` are
  steps too. Channels hold bytes, so a packet that the peer refuses is part of the
  model. One invariant over all steps gives exactly-once ordered delivery, lockstep,
  freedom from deadlock and livelock, the safety of startup and the end of `stop`.
* **Timing** (`TimingClient`, `TimingServer`, `TimingJoint`). The session that
  follows an ideal cumulative timeline, the simulator's shrinking step budget, and
  the two together: the simulator stays within the error of a single simulator run
  of that timeline, however many steps are taken.
* **Raw transport** (`Framing`, `Transport`, `HostTransport`, `GuestTransport`).
  A header and a payload, each on a connection of its own, moved by system calls
  that may be short, interrupted or failing. Messages arrive as they were sent, a
  cut stream delivers a prefix of whole messages, and failures are sticky.

The layers meet in their specifications: the classes are proved against functions
(`Appended`, `Submitted`, `Encoded`, `Decoded`, `Receive`, `Started`, `Waited`,
`StepReply`), and the state machines step by the same functions. For the guest
controller the last step is proved too: what a call of its `RunNext` leaves behind is
what the guest's protocol steps leave for any replies, and from every reachable state
the call is a run of the protocol in which the host's worker produces the replies.

Six independent algorithms of the repository have theorems of their own: the job
runner (`Scheduler`), the pipeline viewer with its reorder window (`StableSort`,
`ReorderWindow`, `PipeView`), the order of checkpoint migrations (`Upgrader`), the
package closure (`Closure`), the sparse disk copy (`DiskCopy`) and the varint stream
of trace files (`Varint`). `Basics` holds what all modules share.

What the outside world decides is a parameter: the outcome of system calls, of
allocations, of simulator runs, of polls and launches, and the signals. A call
whose outcomes run out is reported as still blocked.

Some properties hold only under a condition, which is proved to be exact.

* One more step keeps the drift bound, in every session that steps with replies
  within e lead to and for every such reply, if and only if 1000 times the interval
  plus e is at most the one-hour cap of a request, or e covers the whole tick range
  (`TimingClient.DriftBoundIff`; `CappedRunDrifts` and `StillRunDrifts` are the runs
  that break it).
* The reorder window emits the sorted trace if and only if no instruction arrives when
  its place has been flushed (`ReorderWindow.WindowSortsIff`). A comment says that
  instructions more than the lower threshold out of place appear out of order. That is
  exact for all upper thresholds together (`AssumptionIsExact`), but not for one that
  is never exceeded (`LateButSorted`).
* Ending a trace early loses nothing if and only if no fetch from the line that ends it
  on lies in the region and retires so that it is shown (`PipeView.StopLosesIff`;
  `LosesAnInstruction` is a trace that loses one). It loses nothing whatever the region
  if and only if, before an instruction that retires, no fetch is further ahead of its
  own than the drift in ticks and the upper threshold in numbers (`StopIsSafeIff`). A
  comment states that assumption in ticks alone.
* All migrations that a checkpoint needs run if and only if they are within reach of
  rounds that only add tags, and there none would run in a later round than the removal
  of a tag it depends on (`Upgrader.CompletesIff`). If a dependency-respecting order
  exists they are within reach, so that the second half alone tells whether the order is
  found (`OrderIsFoundIff`; `MissesAnOrder` is one that is not). Each also runs while the
  checkpoint has its dependencies, whatever the order within a round, if and only if each
  would run in an earlier round than such a removal (`SafelyCompletesIff`). In general,
  complete or not, that holds if and only if no round has a migration together with a
  removal of a tag it depends on (`RespectsIff`).
* A stream of trace messages reads back as it was written if and only if every message
  is nonempty and shorter than four gigabytes: the reader takes a zero length for the
  end of the stream (`Varint.StreamRoundTrip`).
* A polling interval survives the startup exchange if and only if it lies between zero
  and one hour (`Codec.StartupRoundTrip`).

Where a comment and the code differ, the model follows the code: the pipeline viewer's
queue is said to be flushed when it reaches the upper threshold, and is flushed when it
exceeds it.

`dafny verify dfyconfig.toml` checks the whole project.

## Model

| member | source | states |
|---|---|---|
| `ProtocolTheorems.DeliveredUp` | gem5-transport/src/gem5_host_controller.cpp:47-113 | In every reachable state in which neither end failed and no snapshot was refused, the guest's coalesced submissions are, in order and exactly once, what the host took, what is ready, what a step is moving, what is incoming, what the worker holds, what is in flight and what the guest holds. |
| `ProtocolTheorems.DeliveredDown` | gem5-transport/src/gem5_guest_controller.cpp:48-51 | The same from host to guest, whatever became of timing and snapshots. |
| `ProtocolTheorems.TakenIsPrefix` | gem5-transport/src/gem5_host_controller.cpp:62-113 | Whatever failed, in whatever order, what either side took or can still take is a prefix of what the other drained: nothing is repeated, reordered or invented, and nothing follows a lost message. |
| `ProtocolTheorems.LimitsCompose` | gem5-transport/src/controller_protocol.hpp:82-169 | In every reachable state each outgoing queue encodes to at most 33562632 bytes, below the transport's cap, and the peer's decoder accepts it as the same batch. |
| `ProtocolTheorems.NoPacketIsRefused` | gem5-transport/src/gem5_host_controller.cpp:36-48 | In no run does either end refuse a packet of the other as malformed or as the wrong phase. |
| `ProtocolTheorems.FailureIsPermanent` | gem5-transport/src/gem5_host_controller.cpp:74-126 | Over every run a failed guest, an exited worker and a stopped host stay so, and their submissions and drains no longer change. |
| `ProtocolTheorems.InLockstep` | gem5-transport/src/gem5_host_controller.cpp:32-61 | While both ends live, they are in complementary phases, at most one packet is in flight, and an end sends only when the other waits for it. |
| `ProtocolTheorems.NoDeadlock` | gem5-transport/src/gem5_guest_controller.cpp:31-51 | While both ends live, the guest is between calls, the host is being stopped or a step of the exchange is enabled. |
| `ProtocolTheorems.CallCompletes` | gem5-transport/src/gem5_guest_controller.cpp:34-51 | Once the host has started, a call of the guest takes at most twelve steps of the exchange, however the application interleaves. |
| `ProtocolTheorems.CancelledNeverBlocks` | gem5-transport/src/host_transport.cpp:86-95 | A worker whose transport is cancelled can always take a step until it has exited, whatever the guest does. |
| `ProtocolTheorems.StopReturns` | gem5-transport/src/gem5_host_controller.cpp:28-31 | Over every run from the cancellation on, the worker takes at most three steps, is never blocked before it exits, and then `stop` can finish. |
| `ProtocolTheorems.NothingBeforeTheFirstStep` | gem5-transport/src/gem5_host_controller.cpp:36-46 | Before the first valid step only startup packets exist, neither queue was drained, and every accepted submission is still queued. |
| `ProtocolTheorems.StartedByValidStep` | gem5-transport/src/gem5_host_controller.cpp:85-95 | In every run that ends with the exchange open, some action is a step with valid settings, taken on a host that had neither started, failed nor stopped. |
| `ProtocolTheorems.PollIsFixed` | gem5-transport/src/gem5_guest_controller.cpp:35-46 | Over every run, a polling interval that the guest knows is the host's and never changes. |
| `ProtocolInvariant.InvStep` | gem5-transport/src/gem5_host_controller.cpp:32-126 | Every step of worker, application and guest, failures included, keeps the queue, phase, failure and conservation invariants. |
| `ProtocolInvariant.ReachableInv` | gem5-transport/src/gem5_host_controller.cpp:21-126 | The invariant holds in every reachable state. |
| `ProtocolInvariant.StartupReceived` | gem5-transport/src/gem5_guest_controller.cpp:40-49 | A waiting guest finds one of the two startup replies: not-ready makes it ask again with its queue untouched, the other makes it drain and send. |
| `GuestController.NotReadyIsTransparent` | gem5-transport/src/gem5_guest_controller.cpp:40-46 | Any number of not-ready replies changes nothing but the number of requests. |
| `GuestRuns.WaitingCallIsARun` | gem5-transport/src/gem5_guest_controller.cpp:38-47 | From every reachable state before the first step, with both ends alive, a call is, for every number of not-ready replies, a run of guest and worker steps in which the worker sends just these, and leaves the guest asking. |
| `GuestRuns.CallIsARun` | gem5-transport/src/gem5_guest_controller.cpp:31-56 | From every reachable state after the first step, with both ends alive, a call is a run of guest and worker steps: the worker's replies are its interval, if asked, and its coalesced submissions, if it can take in the guest's; what the call leaves of the guest for these replies is what the run leaves. |
| `GuestController.Controller.Submit` | gem5-transport/src/gem5_guest_controller.cpp:23-26 | An accepted submission joins the history; a failed controller answers with its failure, a full queue or missing memory with theirs, and nothing changes. |
| `GuestController.Controller.Boot` | gem5-transport/src/gem5_guest_controller.cpp:38-47 | The startup loop sends exactly the requests that the replies call for and touches no queue. |
| `GuestController.Controller.Receive` | gem5-transport/src/gem5_guest_controller.cpp:50 | The reply's batch is appended whole, or refused for the reason of the queue with nothing changed. |
| `GuestController.Controller.ExchangeBatch` | gem5-transport/src/gem5_guest_controller.cpp:48-50 | One packet with the coalesced history goes out; a failed drain leaves the submissions queued; the reply's batch is appended whole or not at all. |
| `GuestController.Controller.RunNext` | gem5-transport/src/gem5_guest_controller.cpp:31-56 | A failure is returned for ever; submissions leave only after startup, in one packet after the requests; the reply is appended; a known interval is kept; the guest left behind is that of the guest's protocol steps. |
| `TimingJoint.SimulatorIsOnTime` | gem5-transport/src/gem5_timing_controller.cpp:108-152 | In every run in which each simulator run is within e of its budget and intervals leave room for e, whenever no step is outstanding the simulator is within e ticks of the first tick plus a thousand times the nanoseconds asked for. |
| `TimingJoint.SoleClient` | gem5/configs/custom/x86-ubuntu-socket-server.py:169-205 | In every run of one client and its simulator, an idle live session knows the simulator's tick, no reply starts at an unexpected tick, no request is above the server's limit and no step follows the end. |
| `TimingClient.FirstRoundAnchors` | gem5-transport/src/gem5_timing_controller.cpp:141-151 | The first round anchors the timeline at the reply's start, within the error of one reply, and is never clamped. |
| `TimingClient.RoundKeepsDrift` | gem5-transport/src/gem5_timing_controller.cpp:108-152 | A round whose interval leaves room for the error keeps the drift within the error of one reply, and is not clamped. |
| `TimingClient.RoundsAnchor` | gem5-transport/src/gem5_timing_controller.cpp:108-152 | Over any rounds from the construction, whatever their errors, the target is the first tick plus a thousand times the sum of the intervals. |
| `TimingClient.DriftIsBounded` | gem5-transport/src/gem5_timing_controller.cpp:108-155 | Over any number of rounds from the construction the drift stays within the error of one reply. |
| `TimingClient.CappedRunDrifts` | gem5-transport/src/gem5_timing_controller.cpp:118-121 | For every interval without room for an error below the cap, a run of two rounds within that error breaks the bound. |
| `TimingClient.StillRunDrifts` | gem5-transport/src/gem5_timing_controller.cpp:118-121 | For every larger error of the tick range, a simulator that stands still breaks the bound, with every reply within it. |
| `TimingClient.DriftBoundIff` | gem5-transport/src/gem5_timing_controller.cpp:108-152 | One more round keeps the bound, in every session reached by rounds within the error and for every such reply, exactly when the interval leaves room for the error below the cap or the error covers the tick range. |
| `TimingClient.TimingController.Send` | gem5-transport/src/gem5_timing_controller.cpp:54-88 | A command is refused while another is pending or the session is over; a failed send fails the session, except that a patient caller may find nobody listening yet. |
| `TimingClient.TimingController.Plan` | gem5-transport/src/gem5_timing_controller.cpp:115-120 | The next point of the timeline and the ticks missing to it, in 64-bit words, are the mathematical ones. |
| `TimingClient.TimingController.Start` | gem5-transport/src/gem5_timing_controller.cpp:108-124 | The 64-bit code does what the session does on mathematical integers: no wrap-around; the request is what the ideal timeline misses, between zero and the cap; a refusal before sending changes nothing. |
| `TimingClient.TimingController.Wait` | gem5-transport/src/gem5_timing_controller.cpp:125-152 | Every reply leads where the mathematical session goes: anchored, finished or failed, with no wrap-around. |
| `TimingClient.TimingController.ElapsedTicks` | gem5-transport/src/gem5_timing_controller.cpp:153-155 | The unsigned difference is the true one in every session. |
| `TimingClient.TimingController.WaitUntilReady` | gem5-transport/src/gem5_timing_controller.cpp:156-175 | The retries, cancellation, time limit and STATUS reply lead where the mathematical session goes; a bad timeout changes nothing. |
| `TimingClient.TriesKeep` | gem5-transport/src/gem5_timing_controller.cpp:156-175 | Waiting for the simulator never touches the timeline, and attempts that find nobody leave the session as it was. |
| `TimingClient.TriesTell` | gem5-transport/src/gem5_timing_controller.cpp:156-175 | It succeeds if and only if, after vain attempts that nothing cut short, a STATUS was sent on a live session and answered by a paused simulator. |
| `TimingClient.TimingController.Quit` | gem5-transport/src/gem5_timing_controller.cpp:180-183 | Only the proper answer to QUIT stops the session; any other fails it. |
| `TimingClient.TimingController.Shutdown` | gem5-transport/src/gem5_timing_controller.cpp:176-184 | The code ends a session as the mathematical session does, waiting for a pending step first. |
| `TimingClient.ShutdownTells` | gem5-transport/src/gem5_timing_controller.cpp:176-184 | A session becomes stopped if and only if its pending step succeeded and QUIT was sent and answered on a live session; the timeline moves only by the pending step. |
| `TimingClient.ShutdownOnce` | gem5-transport/src/gem5_timing_controller.cpp:176-178 | Stopping a stopped session changes nothing. |
| `TimingServer.ErrorDoesNotAccumulate` | gem5/configs/custom/x86-ubuntu-socket-server.py:173-190 | However many events interrupt a step, a step that does not end the simulation stops within the error of one run of its target. |
| `TimingServer.StepIsWithinError` | gem5/configs/custom/x86-ubuntu-socket-server.py:169-190 | An OK reply starts at the old tick, ends at the new one and is within that error; a request of zero moves nothing. |
| `TimingServer.SimulationServer.RunForTicks` | gem5/configs/custom/x86-ubuntu-socket-server.py:169-190 | The loop over simulator runs computes the specified reply and state, and refuses steps above one hour or the tick range. |
| `TimingServer.SimulationServer.HandleCommand` | gem5/configs/custom/x86-ubuntu-socket-server.py:193-205 | Each command has its reply; units are scaled to ticks, zero is accepted in ticks only, and only QUIT requests the exit. |
| `Queues.CoalescedSnoc` | gem5-transport/src/controller_protocol.hpp:99-103 | On histories, submitting removes the older entries of the key and puts the new one last. |
| `Queues.CoalescedUnique` | gem5-transport/src/controller_protocol.hpp:82-104 | At most one pending entry carries a given nonempty key. |
| `Queues.CoalescedLast` | gem5-transport/src/controller_protocol.hpp:99-103 | The newest submission survives, as the last entry. |
| `Queues.UnkeyedIsFifo` | gem5-transport/src/controller_protocol.hpp:82-112 | Submissions without keys are never dropped or reordered. |
| `Queues.SubmitKeeps` | gem5-transport/src/controller_protocol.hpp:82-104 | An accepted submission keeps the queue the coalesced form of its history and within both limits. |
| `Queues.AppendedIff` | gem5-transport/src/controller_protocol.hpp:39-46 | The checks of an append accept a batch exactly when the joined queue is within the limits. |
| `Queues.Remaining` | gem5-transport/src/controller_protocol.hpp:84-93 | The accounting loop computes the size and number of the entries that stay, without underflow. |
| `Queues.OutgoingQueue.Submit` | gem5-transport/src/controller_protocol.hpp:82-104 | The accepted entry joins the history and the queue is its coalesced form; every refusal, for a limit or for memory, changes nothing, and there is no other refusal. |
| `Queues.OutgoingQueue.Reserve` | gem5-transport/src/controller_protocol.hpp:94-98 | The only allocation comes before any change and leaves room for the entry. |
| `Queues.OutgoingQueue.Replace` | gem5-transport/src/controller_protocol.hpp:99-103 | The changes need no reallocation and leave the queue the coalesced history, with an exact byte count. |
| `Queues.OutgoingQueue.Drain` | gem5-transport/src/controller_protocol.hpp:105-112 | The batch is the coalesced history since the last drain, within the packet limits, and the queue is empty; if the one allocation fails, nothing has moved. |
| `Queues.ReceivedQueue.Append` | gem5-transport/src/controller_protocol.hpp:39-58 | The queue becomes the old one followed by the batch, or nothing changes and the caller keeps the batch; after the one reservation no push reallocates. |
| `Queues.ReceivedQueue.Take` | gem5-transport/src/controller_protocol.hpp:59-68 | The oldest message leaves, the rest stays in order, the byte count stays exact. |
| `Queues.ReceivedQueue.Drain` | gem5-transport/src/controller_protocol.hpp:69-74 | Everything not yet taken leaves, in order, within the limits. |
| `Codec.DecodeOfEncode` | gem5-transport/src/controller_protocol.hpp:143-169 | Every batch within the limits decodes from its encoding. |
| `Codec.EncodeOfDecode` | gem5-transport/src/controller_protocol.hpp:153-169 | Every accepted packet is the encoding of what it decodes to, and that is within the limits. |
| `Codec.AcceptedIff` | gem5-transport/src/controller_protocol.hpp:153-169 | A byte string is accepted if and only if it encodes a batch within the limits. |
| `Codec.EncodedSize` | gem5-transport/src/controller_protocol.hpp:143-152 | A packet is its count, one length a message and the payload. |
| `Codec.PayloadBytes` | gem5-transport/src/controller_protocol.hpp:21-31 | The exact payload size within the limits; otherwise the limit exceeded, bytes before count, without underflow of the budget. |
| `Codec.Encode` | gem5-transport/src/controller_protocol.hpp:143-152 | The encoding loop writes the wire form of the batch, and refuses exactly the batches over a limit. |
| `Codec.Decode` | gem5-transport/src/controller_protocol.hpp:153-169 | The decoder computes the specified batch or error on every byte string. |
| `Codec.DecodeMessages` | gem5-transport/src/controller_protocol.hpp:157-168 | The cursor loop with its running budget is the recursive parser; no read is out of range. |
| `Codec.StartupRoundTrip` | gem5-transport/src/controller_protocol.hpp:131-142 | A signed duration survives if and only if it lies between zero and one hour; every other is refused. |
| `Codec.EncodeOfDecodeStartup` | gem5-transport/src/controller_protocol.hpp:131-142 | Every accepted startup reply is the encoding of its duration. |
| `Codec.PhasesAreDisjoint` | gem5-transport/src/controller_protocol.hpp:125-142 | No startup packet is a batch, no batch is a startup request or reply. |
| `Codec.ValidStepIff` | gem5-transport/src/controller_protocol.hpp:16-20 | The rounded-up quotient accepts exactly the settings in which at most 100000 polls cover an interval of at most one hour. |
| `Wire.Put` | gem5-transport/src/controller_protocol.hpp:114-117 | Appends the eight big-endian bytes of any 64-bit number. |
| `Wire.Get` | gem5-transport/src/controller_protocol.hpp:118-124 | Takes the number back off the front, for every span of eight bytes or more, and only those. |
| `Wire.ValueOfBigEndian` | gem5-transport/src/controller_protocol.hpp:114-124 | Reading undoes writing for every number that fits its width. |
| `Wire.BigEndianOfValue` | gem5-transport/src/controller_protocol.hpp:114-124 | Writing undoes reading for every byte string. |
| `Framing.EncodeHeader` | gem5-transport/src/framing.hpp:11-18 | The header filled from its last byte is the big-endian length. |
| `Framing.DecodeHeader` | gem5-transport/src/framing.hpp:20-24 | The accumulated length is the header's value, and encodes back to the header. |
| `Transport.UnwrapOfWrap` | gem5/src/sim/pseudo_inst.cc:642-691 | An operation's bytes are recovered from its connection, with the envelope or without. |
| `Transport.ReceiveOfConnections` | gem5-transport/src/host_transport.cpp:60-78 | A message up to the cap is received whole and uses exactly its own connections. |
| `Transport.ReceiveAllOfStream` | gem5-transport/src/host_transport.cpp:50-78 | Any sequence of messages up to the cap, in either direction, is received as it was sent. |
| `Transport.CutDeliversPrefix` | gem5-transport/src/host_transport.cpp:139-179 | From a sender that stops at any byte the receiver gets a prefix of the messages, each whole. |
| `Transport.ConnectionsOfReceive` | gem5-transport/src/host_transport.cpp:168-179 | On enveloped connections, what is received used exactly its own connections: both ends agree on their number and sizes. |
| `HostTransport.ReadAll` | gem5-transport/src/host_transport.cpp:139-151 | Whatever the pieces and interruptions, the buffer is the stream's first bytes; without failing calls only a short stream fails; it never waits once as many calls moved something as there are bytes to read. |
| `HostTransport.WriteAll` | gem5-transport/src/host_transport.cpp:152-167 | What is written is always a prefix of the data, and all of it on success; it never waits once as many calls moved something as there are bytes. |
| `HostTransport.Accept` | gem5-transport/src/host_transport.cpp:130-138 | Interruptions are retried; only a failing call or a cancellation fails it; the first connection completes it. |
| `HostTransport.Host.ReceivePacket` | gem5-transport/src/host_transport.cpp:168-179 | One connection yields its unwrapped bytes, or a stored failure that names what was wrong with it. |
| `HostTransport.Host.Receive` | gem5-transport/src/host_transport.cpp:60-78 | A stored failure is returned for ever; a result is what the framing defines; without failing calls only a malformed or cut stream is refused; with enough calls it waits only for a connection that is not there. |
| `HostTransport.Host.SendPacket` | gem5-transport/src/host_transport.cpp:152-167 | One connection carries the packet, or a prefix of it when sending fails. |
| `HostTransport.Host.Send` | gem5-transport/src/host_transport.cpp:50-58 | The connections of the message, or a cut of them; an oversized message is refused and does not poison the transport; other failures are stored. |
| `GuestTransport.Guest.Send` | gem5-transport/src/guest_transport.cpp:12-26 | The message's connections with envelopes; succeeds exactly when each operation reports its size; another size fails for ever, and what has left is the header alone or the whole message. |
| `GuestTransport.Guest.Operation` | gem5/src/sim/pseudo_inst.cc:693-716 | An operation yields exactly the bytes asked for, or does not return. |
| `GuestTransport.Guest.Receive` | gem5-transport/src/guest_transport.cpp:28-52 | A result is what the framing defines, and is returned whenever the framing defines one, memory suffices and the operations report their sizes; an oversized header and every stored failure are permanent. |
| `Scheduler.Waiting` | containers/run.py:165-166 | The work of a run is exactly the configured jobs that are not recorded as completed. |
| `Scheduler.PollAll` | containers/run.py:185-197 | Jobs whose process exited leave the active ones, with the status of their exit code; the polling succeeds exactly when no container is stuck and every save succeeds, and then only running jobs stay. |
| `Scheduler.PollActive` | containers/run.py:185-197 | Polling keeps the partition of the jobs into pending, active and settled. |
| `Scheduler.StartNext` | containers/run.py:198-215 | The first pending job leaves the queue; its record and the active jobs say how far its launch got, and nothing else changes. |
| `Scheduler.KeptByLaunch` | containers/run.py:198-215 | However a launch goes, the jobs stay partitioned, never more than the workers are active, and the work left shrinks. |
| `Scheduler.LaunchPending` | containers/run.py:198-215 | Jobs start in order while there is room and no signal; the records of jobs started earlier are untouched and none is completed. |
| `Scheduler.TakeTurn` | containers/run.py:182-226 | One turn keeps every recorded completion explained by an exit with zero; a turn that finds every job ended makes a move, unless a signal stops it. |
| `Scheduler.Loop` | containers/run.py:182-226 | The loop ends with nothing pending or active, or by a signal or an exception, at the latest when twice as many turns as jobs have found no job running. |
| `Scheduler.Cleanup` | containers/run.py:232-251 | Every active job is recorded as interrupted, except those whose cleanup fails, and those are reported. |
| `Scheduler.Finish` | containers/run.py:227-262 | It raises exactly after an exception, a failed cleanup or a failed save; otherwise the exit code tells what happened, and no started job is left recorded as running. |
| `Scheduler.Run` | containers/run.py:182-262 | However a run ends: never more active jobs than workers, each waiting job started at most once and in order, at most two moves a job, other records untouched, completions only for exits with zero. Exit zero means all records completed. With enough turns that find the jobs ended, it ends. |
| `Scheduler.CompletedIsFinal` | containers/run.py:145-166 | Over any chain of runs and resumptions, a job recorded as completed stays so and never starts again. |
| `StableSort.SortIsStable` | gem5/util/o3-pipeview.py:241-242 | The sort orders by sequence number and keeps the instructions of each number in their order. |
| `StableSort.StableSortIsUnique` | gem5/util/o3-pipeview.py:241-242 | Only one sequence is a stable sort of a trace. |
| `StableSort.SortInTwoStages` | gem5/util/o3-pipeview.py:217-242 | Sorting the queue early does not change the sort of everything. |
| `ReorderWindow.FlushIsFinal` | gem5/util/o3-pipeview.py:241-244 | If no instruction is late, what a flush prints comes before everything still to come. |
| `ReorderWindow.LateIsUnsorted` | gem5/util/o3-pipeview.py:49-50 | One instruction that arrives when its place has been flushed is enough to spoil the order. |
| `ReorderWindow.WindowSortsIff` | gem5/util/o3-pipeview.py:212-277 | For every trace and all thresholds, the window emits the stable sort of the whole trace if and only if no instruction arrives when its place has been flushed. |
| `ReorderWindow.WindowIsFullSort` | gem5/util/o3-pipeview.py:45-55 | If no instruction arrives more than the lower threshold of places after its rank, the window sorts, whatever the upper threshold. |
| `ReorderWindow.AssumptionIsExact` | gem5/util/o3-pipeview.py:49-50 | That assumption is exact when both thresholds are equal, and for all upper thresholds together. |
| `ReorderWindow.LateButSorted` | gem5/util/o3-pipeview.py:49-50 | For one upper threshold it is not: a late trace that never fills the window is sorted. |
| `ReorderWindow.EmittedIsPermutation` | gem5/util/o3-pipeview.py:212-277 | On every trace, however late, each instruction leaves the window exactly once. |
| `PipeView.VisibleSort` | gem5/util/o3-pipeview.py:245-268 | Cutting out a region before or after sorting gives the same. |
| `PipeView.SkipLosesNothing` | gem5/util/o3-pipeview.py:94-126 | On every trace, no instruction that would be shown is skipped before the start of the region. |
| `PipeView.StopLosesIff` | gem5/util/o3-pipeview.py:159-176 | Stopping early changes what the region shows of the sorted trace if and only if some fetch from the stop on lies in the region and retires so that it is shown. |
| `PipeView.StopIsSafe` | gem5/util/o3-pipeview.py:60-64 | If, before instructions that retire, fetches are ahead by no more than the drift and the upper threshold, stopping early loses nothing. |
| `PipeView.OutOfOrderLoses` | gem5/util/o3-pipeview.py:60-64 | For every trace and pair of fetches further out of order than that, the second retiring, some region loses an instruction. |
| `PipeView.StopIsSafeIff` | gem5/util/o3-pipeview.py:60-64 | For every trace, drift and threshold, stopping early loses nothing in any region if and only if the fetches are in order up to the drift and the threshold. |
| `PipeView.LosesAnInstruction` | gem5/util/o3-pipeview.py:159-176 | A trace of two instructions that loses one. |
| `PipeView.Viewer.PrintInsts` | gem5/util/o3-pipeview.py:231-277 | The sorted queue is popped down to a length; the popped instructions inside the region are printed, in order. |
| `PipeView.Viewer.QueueInst` | gem5/util/o3-pipeview.py:212-227 | An instruction is queued, and a queue above the upper threshold is flushed to the lower. |
| `PipeView.Viewer.SkipToStart` | gem5/util/o3-pipeview.py:94-126 | The skipping loops end at the first fetch at or after the first line of the region. |
| `PipeView.Viewer.ReadLine` | gem5/util/o3-pipeview.py:157-193 | One line updates the instruction being read and, if it retires, moves it into the window without changing what leaves. |
| `PipeView.Viewer.ReadLines` | gem5/util/o3-pipeview.py:154-207 | The main loop prints what the region shows of the instructions up to the stop, in the order of the window. |
| `PipeView.Viewer.ProcessTrace` | gem5/util/o3-pipeview.py:69-207 | The output is what the region shows of the emitted order; if nothing is late it is what the region shows of the whole sorted trace, exactly when no fetch from the stop on is shown. |
| `Upgrader.Migrate` | gem5/util/cpt_upgrader.py:255-269 | The loop over upgraders and downgraders ends, runs in rounds, applies each migration that is needed at most once, succeeds exactly when they are within reach and in time, fails exactly when some are left that are not ready, and leaves a second pass nothing to do. |
| `Upgrader.ApplyAll` | gem5/util/cpt_upgrader.py:150-158 | The ready migrations of a round may run in any order; the tags after it are the same. |
| `Upgrader.RunApplies` | gem5/util/cpt_upgrader.py:258-269 | Every order of the rounds applies the same migrations, each once. |
| `Upgrader.RespectsIff` | gem5/util/cpt_upgrader.py:258-269 | Every order of the rounds respects the dependencies if and only if no round holds a migration and another tag, to be removed, that it depends on. |
| `Upgrader.OrphanNeverRuns` | gem5/util/cpt_upgrader.py:144-148 | A migration that depends on a tag already removed never runs. |
| `Upgrader.CompletesIff` | gem5/util/cpt_upgrader.py:258-269 | For all migrations and checkpoints, the rounds get to everything if and only if rounds that only add tags would, and there no migration comes in a later round than the removal of a tag it depends on. |
| `Upgrader.SomeIsReady` | gem5/util/cpt_upgrader.py:144-148 | If an order exists, some migration is within reach while any is left. |
| `Upgrader.ReachIsAll` | gem5/util/cpt_upgrader.py:258-269 | If an order exists, rounds that only add tags get to everything. |
| `Upgrader.OrderIsFoundIff` | gem5/util/cpt_upgrader.py:258-269 | An order that exists is found, in that everything runs, if and only if no migration comes in a later round than the removal of a tag it depends on. |
| `Upgrader.SafelyCompletesIff` | gem5/util/cpt_upgrader.py:258-269 | Every order of the rounds applies everything, each migration while the checkpoint has its dependencies, if and only if everything is within reach and each comes in an earlier round than the removal of a tag it depends on. |
| `Upgrader.IndependentCompletesIff` | gem5/util/cpt_upgrader.py:258-269 | Without needed migrations that depend on another tag to be removed, everything runs if and only if a dependency-respecting order exists. |
| `Upgrader.MissesAnOrder` | gem5/util/cpt_upgrader.py:255-269 | With downgraders the rounds can get stuck although an order exists; `OrderIsFoundIff` says exactly when. |
| `Closure.Visit` | containers/wall-follow/scripts/stage-guest.py:51-63 | One package pulls exactly the first installed alternatives of its groups, and fails exactly when a group with a ROS alternative has none installed. |
| `Closure.Select` | containers/wall-follow/scripts/stage-guest.py:42-63 | The worklist ends; it succeeds if and only if every reachable package is sound, and then selects exactly the reachable packages; an error names a reachable package at fault, and a missing one is a root. |
| `Closure.ClosedHasReachable` | containers/wall-follow/scripts/stage-guest.py:42-63 | A set that has the roots and is closed under first installed alternatives has everything reachable. |
| `DiskCopy.BuildDisk` | containers/wall-follow/scripts/build-guest-disk.py:67-89 | The loop ends, and the disk is the boot record, zeros, and every byte of the file system at its offset, whatever its holes; it fails only if a read comes back empty. |
| `DiskCopy.CopyExtent` | containers/wall-follow/scripts/build-guest-disk.py:80-87 | Reads of any size copy the extent exactly and touch nothing else; an empty read fails at its position. |
| `Varint.Encode` | gem5/util/protolib.py:147-159 | The loop appends the Base 128 varint of the value. |
| `Varint.OrIsSum` | gem5/util/protolib.py:117 | Bits above those of a number are joined to it by bitwise or as by addition. |
| `Varint.Narrow` | gem5/util/protolib.py:119-125 | The sign correction and the mask give the low 32 bits, under ones for large numbers. |
| `Varint.Decode` | gem5/util/protolib.py:100-128 | The loop computes the specified length, end or error; every byte's bits are disjoint from the sum so far. |
| `Varint.RoundTrip` | gem5/util/protolib.py:100-159 | Every length an object can have is read back modulo 32 bits, and the rest of the file is left. |
| `Varint.StreamRoundTrip` | gem5/util/protolib.py:100-168 | A stream of messages reads back as written, and then ends, if and only if every message is nonempty and shorter than four gigabytes. |

## Left out

- Sockets, paths, deadlines, `eventfd`, error texts and address mapping: only bytes moved, retries, failures and cancellations are modelled.
- The host controller is a state machine on values (`Protocol`), not an object, because its fields are shared by two threads; the objects it is made of (queues, transport, timing) are classes.
- Parsing and printing of timing commands and replies: they are datatypes; a line that the client cannot read is one value.
- Sleeps and clocks: that time is up is an outcome like any other.
- The choice between the address and the instruction transport for startup: both are the same object with a different mode.
- The order of the native envelope is taken to be little-endian, that of the x86 hosts.
- Names of jobs are an abstract type with equality, and the active jobs are a set: the order in which they are polled and cleaned up is arbitrary.
- The overall `status` field, JSON files, locks and Docker commands of the runner; a crash between a launch and the save that records it.
- The edits a migration makes to the checkpoint, and the loading of migrations.
- The parsing of the pipeline trace and its rendering.
- Package records and ELF inspection: the installed packages and their alternatives are given.
- The layout of the boot record, the making of the file system, and errors of seeking: the record is given.
- The bodies of trace messages: a message is its bytes.
- GuestTransport.Guest.Operation: a short connection makes the simulator panic; that is modelled as an operation that does not return.
- The rest of gem5, its configuration scripts, build tools and examples.
