# Verification of the reactor library

A Dafny model of the small reactor library in `linux-c-np-geektime/lib`, of the echo callback that
chapter 27 puts on top of it, and of two stand-alone pieces: the stream readers of `read.c` and the
worker queue of chapter 26. `dafny verify dfyconfig.toml` checks everything.

The library runs one event loop per thread. Any thread may post an operation (add, delete or update
a channel) to a loop: it links a node into a mutex-protected list and then either drains the list
itself, if it owns the loop, or writes one byte to a socket pair so that the owner's `poll` returns.
The owner alternates `poll` with a drain, and the drain keeps two tables: an array of channels
indexed by fd, and a table of 1024 `pollfd` slots. A connection writes directly while nothing is
queued, keeps the rest in a compacting buffer, and asks for write events only while bytes wait.

| file | contents |
|---|---|
| `Prelude.dfy` | bytes, options, facts about sequences, `memcpy` |
| `Sockets.dfy` | the kernel side of a stream socket, as an oracle driven by scripts |
| `Chars.dfy` | `chars.c` |
| `Buffers.dfy` | `buffer.c` on an array, and its capacity over runs |
| `Readers.dfy` | `read.c` and the framing client of chapter 16 |
| `Channels.dfy` | `channel.c`, `channel_map.c` |
| `Registries.dfy` | the two tables and the pending operations as values |
| `Passes.dfy` | one dispatch pass, with callbacks that edit the tables |
| `EventLoops.dfy` | the pending list, the tables and the dispatch on the heap |
| `LoopSystem.dfy` | the loop with any number of threads, as a transition system |
| `Connections.dfy` | `tcp_connection.c` with the echo callback |
| `Reactors.dfy` | connection, loop and poll table together |
| `Sessions.dfy` | a connection served on the heap, from its creation to the calls its reports make |
| `BlockQueues.dfy` | the ring queue of chapter 26 and its workers |

How the parts fit. The imperative code is modelled by classes over arrays, linked nodes and buffers
(`Buffers.Buffer`, `Channels.ChannelMap`, `EventLoops.EventLoop`, `Connections.Connection`,
`BlockQueues.BlockQueue`), and each method is proved equal to a function on values. The properties
over whole runs are then lemmas about those functions and about the transition systems that use
them. The kernel is an oracle: what the peer sends is a byte sequence; how each read or write is cut
or fails is a script; what `poll` reports and what each callback posts are scripts too. Statements
hold for every script.

Assumptions the model makes explicit:

- `channel_event_enable_write` and `channel_event_disable_write` cast `channel->data` to the loop,
  although for a connection it points to a struct whose first member is a pointer to the loop
  (`lib/channel.c:53`, `lib/tcp_connection.c:56`). The model sends the update to the connection's loop.
- Allocation succeeds, and `int` sizes and counters do not overflow. A one-byte write to the
  socket pair succeeds.
- The obligations of callers, where one is needed, are the predicates `LoopSystem.Disciplined`,
  `Passes.GuardedUpTo` and `BlockQueues.HasRoom`; no promise of the library that holds without them
  assumes them.

What the code does not do, and exactly when it does:

- The guards `fd > map->length` let `fd == length` through, and `poll_add` drops a channel silently
  when all slots are used. `FitsIsExact` shows that these two cases are exactly what destroys the
  agreement of the two tables; `UpdateAtLengthBreaks` and `AdditionToFullTableBreaks` are inputs.
- The same guards inside a dispatch pass: `ScanSafe` shows that the pass stays within the array
  exactly when no callback removes or updates an fd that equals the length at that moment;
  `UpdateAtLengthLeavesArray` is a pass that does not.
- `poll_update` uses the mask of the channel in the operation, not of the registered one.
  `MasksThroughoutIff` says exactly in which runs this breaks the agreement of the masks;
  `ForeignUpdateRun` is such a run.
- A slot reused during a pass keeps its old `revents`, so a channel that was just added can be called
  although `poll` reported nothing for it. `GenuineIff` says for every pass exactly when this happens
  and `MisdirectedIff` for which fds; `ReusedSlotMisdirects` is a whole pass where it does, and
  `ScanGenuine` derives a condition on the additions alone under which it does not.
- `block_queue_push` has no full check. `PushAppends` and `QueueIsFifo` show that the queue keeps its
  promise exactly when every push leaves one cell free.
- `tcp_connection_send_buffer` takes only the directly written part from the caller's buffer. What
  it leaves is queued already, and sending it again duplicates it: `LeftoverIsQueued`.
- A failed look past a carriage return splits a CRLF pair over two lines. `LineExact` and `LinesExact`
  show that this is the only way to get a wrong text, and what it costs: one line feed per split.
- A message with an empty body reads like a closed stream. `FramingRoundTrip` is exact: the round trip
  succeeds if and only if every body fits and none is empty.
- The client of chapter 16 ignores a short count from `send`: `PushedIsFrames`.

## Model

| member | source | states |
|---|---|---|
| LoopSystem.NoLostWakeup | linux-c-np-geektime/lib/event_loop.c:181-199 | in every reachable state of any number of threads, while the owner is blocked in poll the queued operations number at most the unread bytes plus the threads about to write one, so a non-empty list means a byte or a writer |
| LoopSystem.ExactlyOnce | linux-c-np-geektime/lib/event_loop.c:43-71 | under every interleaving the operations carried out, followed by those still in the list, are the operations enqueued in lock order; the assertion against a drain in progress never fails |
| LoopSystem.EveryCallIsLinked | linux-c-np-geektime/lib/event_loop.c:162-199 | under every interleaving, what each thread asked for is, in its order, what it linked followed by the one operation it is on the way to link; the lock order is the order of all links |
| LoopSystem.BytesConserved | linux-c-np-geektime/lib/event_loop.c:13-31 | each wakeup writes one byte, each handling of the wakeup channel takes one, and the rest stay unread |
| LoopSystem.BytesAreFollowedByDrain | linux-c-np-geektime/lib/event_loop.c:293-299 | a wakeup byte is read only in a pass that drains before the owner polls again |
| LoopSystem.Deliverable | linux-c-np-geektime/lib/event_loop.c:181-199 | no deadlock: from every state satisfying the invariant a continuation of bounded length carries out everything enqueued |
| LoopSystem.HelpfulStep | linux-c-np-geektime/lib/event_loop.c:13-71 | while the list is not empty some thread can take a step that brings the end of a drain nearer |
| LoopSystem.RegistryAgreement | linux-c-np-geektime/lib/event_loop.c:73-155 | over every run of disciplined callers the channel array and the poll table agree, hold exactly the live channels, and no slot's fd reaches the array length |
| LoopSystem.MaskAgreement | linux-c-np-geektime/lib/channel.c:52-62 | every slot polls for its channel's current mask or an update of that channel is coming; with nothing on its way all slots are exact |
| LoopSystem.WakeupIsPolled | linux-c-np-geektime/lib/event_loop.c:265-275 | the wakeup channel, carried out first and never removed, stays registered over every legal run and its slot always polls for reading, so no wakeup byte goes unseen |
| LoopSystem.ReadInterestExact | linux-c-np-geektime/lib/channel.c:52-62 | in every state of every legal run each slot polls for reading exactly when its channel asks for it: unlike write interest it never waits for an update |
| LoopSystem.ForeignUpdateMisleads | linux-c-np-geektime/lib/event_loop.c:132-155 | without any discipline of the callers, the next operation keeps the masks in agreement exactly if it is not an update through a foreign channel that asks for other events while no proper update is coming |
| LoopSystem.MasksThroughoutIff | linux-c-np-geektime/lib/event_loop.c:132-155 | over every run from a fresh loop, with no discipline assumed, the masks agree in every state exactly if each operation fits when it is carried out and misleads no slot |
| LoopSystem.ForeignUpdateRun | linux-c-np-geektime/lib/event_loop.c:132-155 | a run that misleads a slot: one channel is added, another thread updates the fd through a second one, the owner drains |
| LoopSystem.DrainIsApplyAll | linux-c-np-geektime/lib/event_loop.c:49-63 | node-by-node draining in the transition system equals the whole-list drain of the sequential code |
| Registries.ApplyRefines | linux-c-np-geektime/lib/event_loop.c:73-155 | a fitting operation on the two tables does to the abstract map from fd to channel and interest exactly what it should, and the tables still agree |
| Registries.FitsIsExact | linux-c-np-geektime/lib/event_loop.c:110-147 | the tables agree after an operation exactly when its fd is not the array length and a new fd finds a free slot |
| Registries.AgreesThroughoutIffFits | linux-c-np-geektime/lib/event_loop.c:43-71 | over any sequence of operations the tables agree all the way exactly when each operation fits in its turn |
| Registries.UpdateAtLengthBreaks | linux-c-np-geektime/lib/event_loop.c:141-147 | an update of fd 32 while the array has 32 entries leaves the array |
| Registries.AdditionToFullTableBreaks | linux-c-np-geektime/lib/event_dispatcher_poll.c:63-71 | with 1024 fds registered one more addition leaves a channel without a slot |
| Registries.RoomIffFew | linux-c-np-geektime/lib/event_dispatcher_poll.c:63-71 | under agreement a free slot exists exactly when fewer than 1024 fds are registered |
| Registries.SlotsInRange | linux-c-np-geektime/lib/event_loop.c:318-324 | under agreement every fd in a slot is a registered index of the channel array, and its slot is the only one |
| Registries.AddedSlots | linux-c-np-geektime/lib/event_dispatcher_poll.c:50-76 | adding an absent fd puts it in exactly one slot with its interest and leaves every other fd's slot as it was |
| Registries.FullTableUnchanged | linux-c-np-geektime/lib/event_dispatcher_poll.c:63-71 | an addition to a full table changes nothing |
| Registries.DeletedSlots | linux-c-np-geektime/lib/event_dispatcher_poll.c:79-101 | deleting removes the fd from the table and leaves every other fd as it was |
| Registries.UpdatedSlots | linux-c-np-geektime/lib/event_dispatcher_poll.c:104-136 | updating sets the fd's interest only |
| Registries.InterestExact | linux-c-np-geektime/lib/event_dispatcher_poll.c:55-61 | the poll bits are set exactly for the events in the mask |
| Passes.ScanIdle | linux-c-np-geektime/lib/event_dispatcher_poll.c:188-191 | once no slot has anything to report, the rest of a full scan changes nothing |
| Passes.CountdownCovers | linux-c-np-geektime/lib/event_dispatcher_poll.c:156-194 | whatever the callbacks edit and whatever the revents, the countdown never falls below the number of remaining slots with non-zero revents |
| Passes.EarlyExitIsFullScan | linux-c-np-geektime/lib/event_dispatcher_poll.c:156-194 | for every pass the scan with the countdown and the early exit ends as the scan of all slots does |
| Passes.ScanSafe | linux-c-np-geektime/lib/event_dispatcher_poll.c:156-194 | a pass over tables in place stays within the channel array exactly when no callback removes or updates an fd equal to the length of the array at that moment |
| Passes.AgreementInPlace | linux-c-np-geektime/lib/event_loop.c:318-324 | tables in agreement are in place, so ScanSafe speaks of every pass of a disciplined loop |
| Passes.UpdateAtLengthLeavesArray | linux-c-np-geektime/lib/event_loop.c:141-147 | a whole pass from poll on whose first callback updates fd 32 while there are 32 entries leaves the array |
| Passes.CallsAreLive | linux-c-np-geektime/lib/event_dispatcher_poll.c:156-194 | over a whole pass, for any callbacks, each call goes to the channel registered under its fd after everything the earlier callbacks posted |
| Passes.ReportsAreAnswered | linux-c-np-geektime/lib/event_dispatcher_poll.c:156-194 | in a pass that stays in range and whose callbacks do not remove the fd, a registered channel is called exactly once for each event that poll reported for it and that it handles, reading before writing, and for nothing else |
| Passes.EventsReach | linux-c-np-geektime/lib/event_dispatcher_poll.c:156-194 | exactly what the rest of a pass calls a channel for, on the bits poll has set, when it may also be removed on the way, provided the callbacks do not add its fd again after a removal |
| Passes.LookupBreaks | linux-c-np-geektime/lib/event_loop.c:318-333 | a lookup that calls nobody leaves defined behaviour exactly for the array length and for a channel registered under a wrong fd |
| Passes.ActiveTellsLive | linux-c-np-geektime/lib/event_loop.c:309-347 | one activation: calls the channel the tables show for the fd at that moment, and nothing if there is none |
| Passes.VisitTellsLive | linux-c-np-geektime/lib/event_dispatcher_poll.c:167-186 | one visit, on the bits of revents: the read activation, then, whatever its callback did, the write activation of the channel registered then, or of none if the callback removed it |
| Passes.GenuineIff | linux-c-np-geektime/lib/event_dispatcher_poll.c:156-194 | for every pass, whatever its callbacks do: every call answers a report of this poll exactly if the scan never comes to a slot that another fd has taken since, with old revents its occupant handles and that poll did not report for it |
| Passes.ScanGenuine | linux-c-np-geektime/lib/event_dispatcher_poll.c:156-194 | from GenuineIff: every call answers a report if each fd the callbacks add lands in a slot already passed or with nothing to report |
| Passes.HeardIff | linux-c-np-geektime/lib/event_dispatcher_poll.c:156-194 | the rest of a pass calls a registered channel exactly when its slot is ahead, the revents there hold something it handles, and it is not removed before the scan arrives, provided the callbacks do not add its fd again after a removal |
| Passes.MisdirectedIff | linux-c-np-geektime/lib/event_dispatcher_poll.c:156-194 | for every pass and every fd: the fd is called for something poll did not report for it exactly if the scan finds it astray in some slot when it gets there |
| Passes.NewcomerMisdirectedIff | linux-c-np-geektime/lib/event_dispatcher_poll.c:156-194 | for an fd the poll did not cover and that is not added again after a removal: it is misdirected exactly when it took a slot ahead whose old revents it handles and stays until the scan arrives |
| Passes.NewcomerServes | linux-c-np-geektime/lib/event_dispatcher_poll.c:63-71 | a new fd takes the first free slot, and the slot keeps its old revents |
| Passes.ReusedSlotMisdirects | linux-c-np-geektime/lib/event_dispatcher_poll.c:65-71 | a whole pass from poll on: the first callback removes the second channel and adds a third, which inherits the slot with its revents and is called unreported |
| EventLoops.EventLoop.PollAdd | linux-c-np-geektime/lib/event_dispatcher_poll.c:50-76 | the first-fit loop leaves the table as the value function says, including when it is full |
| EventLoops.EventLoop.PollDelete | linux-c-np-geektime/lib/event_dispatcher_poll.c:79-101 | the search loop frees the first slot with the fd |
| EventLoops.EventLoop.PollUpdate | linux-c-np-geektime/lib/event_dispatcher_poll.c:104-136 | the search loop rewrites the interest of the first slot with the fd |
| EventLoops.EventLoop.HandlePendingAdd | linux-c-np-geektime/lib/event_loop.c:73-99 | grows the map if needed, registers an absent fd in both tables, ignores a present one |
| EventLoops.EventLoop.HandlePendingRemove | linux-c-np-geektime/lib/event_loop.c:101-130 | clears both tables, with the results for negative, unknown and registered fds |
| EventLoops.EventLoop.HandlePendingUpdate | linux-c-np-geektime/lib/event_loop.c:132-155 | rewrites the slot's interest from the channel's mask, with all result codes |
| EventLoops.EventLoop.EnqueueNoLock | linux-c-np-geektime/lib/event_loop.c:162-179 | appends one node to the linked list and keeps head, tail and links well formed |
| EventLoops.EventLoop.HandlePendingChannel | linux-c-np-geektime/lib/event_loop.c:43-71 | carries out the whole list in order, each operation once, and empties it |
| EventLoops.EventLoop.DoChannelEvent | linux-c-np-geektime/lib/event_loop.c:181-199 | on the owner's thread the new operation is carried out after all queued ones |
| EventLoops.EventLoop.EnableWrite | linux-c-np-geektime/lib/channel.c:52-56 | sets the write bit; the loop carries out what other threads had queued and then the update |
| EventLoops.EventLoop.DisableWrite | linux-c-np-geektime/lib/channel.c:58-62 | clears the write bit; the loop carries out what other threads had queued and then the update |
| EventLoops.EventLoop.ActiveEvent | linux-c-np-geektime/lib/event_loop.c:309-347 | looks the fd up when called, runs the callback of the channel found and returns 0, -1 or 1 for a negative, unknown or registered fd |
| EventLoops.EventLoop.PollDispatch | linux-c-np-geektime/lib/event_dispatcher_poll.c:139-197 | the loop with the early exit leaves tables and calls exactly as a scan of all 1024 slots would, for any callbacks and revents that do not lead out of the array, and every call is live |
| Channels.ChannelMap.MakeSpace | linux-c-np-geektime/lib/channel_map.c:5-37 | keeps the old entries, makes every new entry null, terminates with the doubled length |
| Channels.GrownLength | linux-c-np-geektime/lib/channel_map.c:12-19 | the new length exceeds the slot and, when it grows, is at most the larger of 32 and twice the slot |
| Channels.GrowthKeepsShape | linux-c-np-geektime/lib/channel_map.c:14-19 | the length is always 0 or 32 times a power of two |
| Channels.GrowthAmortised | linux-c-np-geektime/lib/channel_map.c:12-34 | over any run all growths together copy at most as many entries as the final length, and every slot asked for is covered |
| Channels.ToggleWrite | linux-c-np-geektime/lib/channel.c:41-62 | toggling write interest decides the write bit and leaves the read bit |
| Connections.EndToEndEcho | linux-c-np-geektime/chapter27/poll_server_single_thread.c:20-31 | for any cutting of reads, any partial or failed writes: if the kernel reports no broken pipe or reset, or no send meets one, bytes taken by the kernel followed by bytes queued are the rotated image of everything received |
| Connections.StreamConserved | linux-c-np-geektime/lib/tcp_connection.c:36-158 | over any run of sends, echoes and write events, taken plus queued bytes are in order the data of all sends but those whose direct write found the peer gone; write interest is on exactly while bytes are queued |
| Connections.SteadyNeverBreaks | linux-c-np-geektime/lib/tcp_connection.c:126-137 | with a kernel that reports no broken pipe and no reset, however full or failing otherwise, no run loses anything |
| Connections.SentSound | linux-c-np-geektime/lib/tcp_connection.c:116-158 | one send keeps conservation and exact write interest, and accepts all of its data or, on a broken pipe or reset, none |
| Connections.SentExact | linux-c-np-geektime/lib/tcp_connection.c:116-158 | for every answer of the kernel: what one send writes directly, queues, accepts and returns; only a broken pipe or a reset met by a direct write drops the data |
| Connections.FlushedSound | linux-c-np-geektime/lib/tcp_connection.c:36-68 | a write event keeps conservation and exact write interest, whatever the kernel takes |
| Connections.FlushedExact | linux-c-np-geektime/lib/tcp_connection.c:43-51 | for every answer of the kernel: a write event takes from the queue exactly what the socket has room for and nothing on a failure |
| Connections.WriteEventsDrain | linux-c-np-geektime/lib/tcp_connection.c:51-58 | write events that each find room empty the queue and switch write interest off |
| Connections.PostsFollowInterest | linux-c-np-geektime/lib/channel.c:52-62 | an update is posted to the loop exactly when write interest changes, and read interest never does |
| Connections.LeftoverIsQueued | linux-c-np-geektime/lib/tcp_connection.c:160-168 | the result counts the direct part; what send_buffer leaves in the caller's buffer is queued already and would be duplicated by a second send |
| Connections.Connection.SendData | linux-c-np-geektime/lib/tcp_connection.c:116-158 | direct write only while nothing is queued, remainder queued, write interest enabled through the loop, fault handling; the loop's tables change by exactly what was posted |
| Connections.Connection.SendBuffer | linux-c-np-geektime/lib/tcp_connection.c:160-168 | sends the readable bytes and drops the directly written ones from the caller's buffer |
| Connections.Connection.HandleWrite | linux-c-np-geektime/lib/tcp_connection.c:36-68 | writes from the queue and disables write interest through the loop when it becomes empty; the tables change by exactly that update |
| Connections.Connection.OnNewMessage | linux-c-np-geektime/chapter27/poll_server_single_thread.c:20-31 | consumes the whole input buffer and sends its rotated image |
| Connections.Connection.HandleRead | linux-c-np-geektime/lib/tcp_connection.c:18-34 | a positive read is echoed whole and empties the input buffer; end of file or an error has the loop remove the channel |
| Connections.Connection.HandleConnectionClosed | linux-c-np-geektime/lib/tcp_connection.c:9-16 | the loop carries out the removal of the channel |
| Connections.Connection.constructor | linux-c-np-geektime/lib/tcp_connection.c:71-103 | empty buffers, read interest, the read and the write handler, nothing posted |
| Connections.Connection.Register | linux-c-np-geektime/lib/tcp_connection.c:108-109 | the loop carries out what was queued and then the addition of the channel |
| Reactors.WritePolledIffQueued | linux-c-np-geektime/lib/tcp_connection.c:145-153 | if the channel's switches in a legal run are those of a connection's inputs, then with nothing on its way to the loop its slot polls for writing exactly when the connection's output buffer is not empty |
| LoopSystem.MaskFollowsToggles | linux-c-np-geektime/lib/channel.c:52-62 | after any run the mask of a channel is the first one with its switches applied in order |
| Connections.EventsFollowSwitches | linux-c-np-geektime/lib/tcp_connection.c:51-58 | after any inputs the mask of a connection is the first one with its switches applied in order |
| Sessions.EchoSession | linux-c-np-geektime/chapter27/poll_server_single_thread.c:20-31 | on the heap, for any ready events and any kernel answers: the connection goes exactly through the inputs they bring; bytes taken followed by the output buffer are the rotated image of all bytes these inputs read, if the kernel reports no broken pipe or reset or no send meets one; and the loop polls for what the connection wants until it is closed |
| Sessions.SessionReads | linux-c-np-geektime/lib/tcp_connection.c:24-31 | the inputs of a session read the front of the stream, each reading event as much as the kernel has and the buffers take |
| Sessions.ServeConnection | linux-c-np-geektime/lib/tcp_connection.c:71-113 | creation, registration and service of a connection together: both handlers, the echo, and while the connection is open its slot polls for writing exactly while bytes wait |
| Sessions.ReportsReachHandlers | linux-c-np-geektime/lib/event_dispatcher_poll.c:156-194 | what poll reports for an open connection reaches its read and write handlers, in this order, exactly for the bits set, in every pass that stays in range and lets the fd be |
| Reactors.LoopMovesSo | linux-c-np-geektime/lib/event_loop.c:181-199 | what the loop object does for a connection is the step of PolledThroughout after what other threads had queued |
| Reactors.PolledThroughout | linux-c-np-geektime/lib/tcp_connection.c:36-168 | on the loop's thread, over every run of traffic mixed with fitting operations on other fds, the slot polls for writing exactly while bytes are queued, and the stream is conserved |
| Reactors.CloseUnregisters | linux-c-np-geektime/lib/tcp_connection.c:9-16 | closing takes the fd out of both tables and leaves every other fd as it was |
| Reactors.NewIsPolled | linux-c-np-geektime/lib/tcp_connection.c:98-112 | a new connection with an unused fd and a free slot is polled for reading |
| Buffers.Buffer.MakeRoom | linux-c-np-geektime/lib/buffer.c:42-66 | the overlapping copy loop or the growth keeps the contents and makes the room |
| Buffers.RoomIsLazy | linux-c-np-geektime/lib/buffer.c:42-66 | nothing moves while the space behind the contents is enough; the block grows, by what was asked for, only if all its free space is not enough |
| Buffers.Buffer.Append | linux-c-np-geektime/lib/buffer.c:68-80 | appends the bytes to the contents; an empty argument is refused |
| Buffers.Buffer.AppendChar | linux-c-np-geektime/lib/buffer.c:82-86 | appends one byte |
| Buffers.Buffer.ReadChar | linux-c-np-geektime/lib/buffer.c:124-128 | takes the oldest byte |
| Buffers.Buffer.SocketRead | linux-c-np-geektime/lib/buffer.c:96-122 | appends exactly the bytes the kernel delivered, also when they overflow into the spare block |
| Buffers.CapacityBound | linux-c-np-geektime/lib/buffer.c:42-79 | over every run of appends, reads and consumption the block is at most the larger of 65536 and twice the peak readable size |
| Chars.Rot13IsRotation | linux-c-np-geektime/lib/chars.c:9-16 | letters move 13 places round their alphabet, other bytes stay |
| Chars.Rot13Involution | linux-c-np-geektime/lib/chars.c:9-16 | rotating a text twice gives it back |
| Readers.Readn | linux-c-np-geektime/lib/read.c:3-29 | fills the buffer with the next bytes of the stream and returns what the value function says |
| Readers.ExactlyFaithful | linux-c-np-geektime/lib/read.c:3-29 | under any fragmentation and interruptions readn returns the smaller of the size and what is left |
| Readers.ExactlyFails | linux-c-np-geektime/lib/read.c:10-17 | readn stops at the first call that fails for good and reports an error exactly then |
| Readers.ReadMessage | linux-c-np-geektime/lib/read.c:31-63 | one call returns the body, 0 or -1 and leaves the stream as the value function says |
| Readers.MessageIsParse | linux-c-np-geektime/lib/read.c:31-63 | without hard failures read_message is a parser of the bytes alone, for whole, oversized and cut messages |
| Readers.MessageExact | linux-c-np-geektime/lib/read.c:31-63 | for every script: -1 exactly if the last call made failed for good or a complete header announces more than the buffer holds, 0 exactly if nothing failed and the stream ends too early or the message is empty, else the body and its length |
| Readers.SessionEnds | linux-c-np-geektime/chapter16/stream_server.c:66-78 | for every script a session ends with -1 exactly if its last call meets a failure for good or a header that announces too much; no earlier call failed for good |
| Readers.ParseInvertsFrame | linux-c-np-geektime/chapter16/stream_client.c:40-56 | a stream parses to a body exactly when it starts with a frame around that body that fits the buffer |
| Readers.SendLines | linux-c-np-geektime/chapter16/stream_client.c:49-62 | the loop frames each line, cut at the first NUL, and puts on the wire what each send takes, until one fails |
| Readers.FrameOnWire | linux-c-np-geektime/chapter16/stream_client.c:42-56 | a frame is the length and the type 1 in network byte order and the body |
| Readers.WordsAreBigEndian | linux-c-np-geektime/lib/read.c:40-48 | both conversions put the most significant byte first |
| Readers.PushedIsFrames | linux-c-np-geektime/chapter16/stream_client.c:54-59 | the wire carries exactly the frames if and only if every send takes its whole frame |
| Readers.ServeMessages | linux-c-np-geektime/chapter16/stream_server.c:66-78 | the server's loop delivers bodies until a call returns no positive count |
| Readers.FramingRoundTrip | linux-c-np-geektime/lib/read.c:31-63 | for any bodies, framed and cut up in any way, the session delivers exactly them, in order, and ends at the end of the stream if and only if each fits and none is empty |
| Readers.SessionStops | linux-c-np-geektime/lib/read.c:50-62 | the session delivers the bodies before the first that is empty or does not fit and stops there, with what is then left in the stream |
| Readers.EmptyBodyStops | linux-c-np-geektime/lib/read.c:57-62 | an empty body at any position ends the session although more frames follow |
| Readers.ReadLine | linux-c-np-geektime/lib/read.c:65-95 | stores one NUL-terminated line and leaves the stream as the value function says, for every failure script |
| Readers.LineExact | linux-c-np-geektime/lib/read.c:65-95 | for every failure script one call moves the front of the normalised stream into the buffer exactly if it splits no CRLF pair, and otherwise adds one line feed |
| Readers.LineConserves | linux-c-np-geektime/lib/read.c:65-95 | an error-free call splits no pair, moves the front of the normalised stream into the buffer and makes progress unless at the end |
| Readers.TextIsLine | linux-c-np-geektime/lib/read.c:65-95 | each text ends at its line feed, at the end of the stream or when the buffer is full, and holds no carriage return |
| Readers.TextUnderFailures | linux-c-np-geektime/lib/read.c:65-95 | under any failures a text is a beginning of the normalised stream with no line feed but the last; it stops there, with a full buffer, at the end of the stream or at a failed call |
| Readers.LinesExact | linux-c-np-geektime/lib/read.c:65-95 | over repeated calls with any failures, texts and normalised rest are the normalised stream exactly if no call splits a pair, each split adds one line feed, and nothing is left exactly if no call fails at its first byte |
| Readers.LinesAreChunkIndependent | linux-c-np-geektime/lib/read.c:65-95 | for every error-free stream and length of at least 2, the texts of repeated calls concatenate to the stream with CRLF and CR replaced by LF, and nothing is left |
| Readers.InterruptedPeekSplitsPair | linux-c-np-geektime/lib/read.c:75-82 | one failed peek turns a CRLF pair into two lines |
| BlockQueues.NoSleeperBesideWork | linux-c-np-geektime/chapter26/thread_pool_server.c:55-86 | with stealing and spurious wakeups, while any worker sleeps the queued fds are at most the woken workers, counting a worker at the loop test or a signal about to be sent; with the lock free and fds queued some worker is awake |
| BlockQueues.QueueIsFifo | linux-c-np-geektime/chapter26/thread_pool_server.c:46-86 | over any interleaving the fds offered by the calls are those handed to workers followed by the live ring exactly when no push found the ring without room; a worker with an fd and the lock has the one popped last |
| BlockQueues.CheckHandsOldest | linux-c-np-geektime/chapter26/thread_pool_server.c:70-86 | a worker at the loop test is handed the oldest fd, or goes to sleep and gives up the lock if there is none |
| BlockQueues.QueuedWorkMoves | linux-c-np-geektime/chapter26/thread_pool_server.c:70-86 | beside a sleeper and queued fds some woken worker can take the lock and the oldest fd |
| BlockQueues.PushAppends | linux-c-np-geektime/chapter26/thread_pool_server.c:55-67 | a push appends exactly when one cell stays free; otherwise the ring looks empty and all is lost |
| BlockQueues.PopTakes | linux-c-np-geektime/chapter26/thread_pool_server.c:77-80 | a pop takes the oldest fd, across the wrap-around |
| BlockQueues.BlockQueue.Push | linux-c-np-geektime/chapter26/thread_pool_server.c:58-62 | the array and rear index after a push |
| BlockQueues.BlockQueue.TryPop | linux-c-np-geektime/chapter26/thread_pool_server.c:74-80 | one turn of the wait loop: nothing if empty, else the oldest fd |

## Left out

- Socket creation, bind, listen, accept and connect, `acceptor.c`, `tcp_server.c`, `tcp_client.c` and the other chapters: system calls with no invariant of their own.
- `event_dispatcher_epoll.c`: its interest set lives in the kernel.
- `read_line_buffered`: bytes it has buffered past a line feed are forgotten between calls, which its TODO admits.
- `buffer_find_CRLF`: searches data that is not NUL-terminated.
- `channel_map_clear`, freeing, allocation failure, logging, timeouts, signals and thread creation.
- Weak memory: the actions of the transition systems are atomic, and mask changes outside the mutex are not split into reads and writes.
- `on_new_connection` runs before the connection is added; the model assumes that it does not send.
- The `quit` flag of `event_loop_run`: nothing in the library sets it.
- Connections.Connection: used on its loop's thread only, where posts are carried out at once; posts from other threads are covered by `LoopSystem`.
- EventLoops.EventLoop.PollDispatch: starts with an empty list; what other threads queue during the pass counts as posts of the callback whose drain carries it out.
- Passes.EventsReach: the same condition as for `HeardIff`; `ReportsAreAnswered` replaces it by one on removals.
- Passes.HeardIff: a channel whose fd the callbacks add again after a removal may sit in another slot; the statement then holds from that addition on. `MisdirectedIff` and `GenuineIff` have no such condition.
- Passes.NewcomerMisdirectedIff: the same condition, and only fds the poll did not cover; it is the form a caller can decide when adding.
- The callbacks `on_write_completed` and `on_connection_closed` only log in chapter 27 and are not modelled.
