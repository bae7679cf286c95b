# A Dafny model of uperf's coordination, workorder transfer and execution

uperf runs a workload in lockstep on one master and many slaves.  This project models the parts of
it whose correctness is not visible in any one function, and proves what they promise, for all
groups, thread counts, byte orders, interleavings and ways in which streams split messages.

1. **The barrier-stepped run** (`Counting`, `Barriers`, `Node`, `Run`, `RunInvariant`, `RunSafety`,
   `RunTermination`, `RunProgress`, `Interference`, `Liveliness`, `Polling`, `StrandLoop`).  Strands,
   per-transaction barriers, the master's and the slaves' polling loops and the command queues
   between them form a transition system.  It runs in lockstep, slaves never lead, a failure is
   contained, every run is finite, and a run without failures completes.  The loops themselves, of
   the master, the slaves and the strands, work on shared barrier objects, interrupted anywhere by
   everybody else; they are shown to be runs of that system, and each to come to its end whenever
   everybody else goes on as long as there is something to do and nothing fails.
2. **The workorder** (`Workorder`, `WorkorderHeap`, `ByteOrder`, `WorkorderWire`, `WireLayout`,
   `Transfer`, `Traces`, `EndToEnd`).  The master clones a group of linked nodes, rewrites the clone in place
   into the work of one slave, and writes it as packed records; the slave links it up again and swaps
   it to its own byte order in place.  The
   round trip restores the lists, and what the slave executes is the dual, position by position, of
   what the master executes.
3. **The handshake** (`HandshakeWire`, `Handshake`, `HandshakeDuality`, `Conversation`,
   `SessionRun`).  Both sides are programs that decide from their own data and from the bytes they
   have read what to read or write next.  Every read gets exactly the peer's next message, the two
   never wait for each other, and every error-free handshake ends with the workorder and both port
   tables exchanged.  `Conversation` is the argument for any two processes over bounded streams.
4. **Ports** (`Ports`).  Which strand listens where, and what the strands on the other side are told,
   for one slave, all slaves of a group and all groups.
5. **Connections** (`Pool`, `PointerLiveness`, `FlowopCalls`).  The doubly linked pool of a strand
   with its cache refines a plain scan; for exactly which transactions the pointers the flowops keep
   stay live; and that what the flowops do on the pool is, run by run and both ways, what that
   argument is about.
6. **Execution and accounting** (`Execute`).  The nested loops execute exactly the group's trace and
   count exactly the bytes the kernel moved, for any pattern of short transfers.
7. **Profiles, layout and rates** (`Profile`, `ProfileValues`, `Layout`, `Rate`).  The token list of a
   profile becomes a workorder with right counters and the last values given, or fails, for exactly which
   lists; strand blocks and statistics records fit; rate-limited callbacks are bounded.

The kernel, clocks, signals, connections and the scheduler are parameters or oracles that may answer
anything their contracts allow.

## Where the code does less than it might seem to

- `shm_init_barriers_master` writes into a table of 100 entries before it compares the number of
  transactions with 100, so its error return is never taken (`Barriers.InitBarriersMaster`).
- A transfer remembers its connection over the iterations of its transaction.  If the flowops after
  it up to some disconnect close more connections of an id it may find than they are sure to open,
  some next iteration uses a destroyed connection, unless an earlier disconnect, or an earlier connect
  or accept that must succeed, makes the transfer look up again; one with a count of 0, which the
  parser accepts, does not (`PointerLiveness.LiveExactly`).
- `conn=-1` passes the parser's test for a positive number (src/parse.c:533), as the id is unsigned
  there; the lookup reads it as -1 and takes whatever is cached first, so a disconnect of any id can
  destroy what such a transfer has remembered, and a disconnect with it can close a connection
  without unlinking any (`Pool.LookupIsLive`, `Pool.Strand.Disconnect`).
- A disconnect that finds no connection leaves `errno` at EINTR, which ends the transaction even where
  the flowop may fail (`PointerLiveness.GoesOn`).
- Adding a connection under an id that a cached connection still carries makes `flowop_disconnect`
  close one connection and unlink another (`Pool.ReconnectWhileCached`).
- In a group with several slaves that are to connect to the master, `preprocess_accepts` replaces the
  listeners for each slave, so exactly the last one is told where the master listens
  (`Ports.PhaseTwoGroup`).
- `optimize_txn_for_slave` can never divide `iter`, as `optimized` stays 0 (`WorkorderHeap.OptimizeTxn`).
- A group that begins inside an open transaction leaves `in_txn` set and the transaction null, so
  `build_worklist` dereferences a null pointer at the next flowop, iterations, rate or duration
  unless a transaction begins or ends before it (`Profile.OpenTransactionCrashes`); a type or options
  before the first flowop of a transaction do so too (`Profile.HowItEnds`).
- A slave that waits for a barrier looks at its limit of five only after the sleep, and so sleeps up
  to six times (`Polling.SlaveThread.WaitUnlockBarrier`).

## Model

| member | source | states |
|---|---|---|
| Barriers.Barrier.Init | src/sync.c:41-78 | Initialising a barrier in place sets its count to 0 and its limit, and locks it, whatever it was before. |
| Barriers.Barrier.Arrive | src/sync.c:92-111 | Coming to a barrier counts exactly one more and touches neither limit nor lock. |
| Barriers.Barrier.NotReached | src/sync.c:87-90 | The difference of limit and count is 0 exactly when all strands counted on have come. |
| Barriers.Barrier.Unlock | src/sync.c:81-84 | Only a locked barrier may be unlocked, which opens it and changes nothing else. |
| Barriers.LimitCountsStrands | src/shm.c:134-142 | The limit summed up group by group is the number of strands whose group has more than k transactions, that is, of all strands that will ever come to barrier k. |
| Barriers.InitBarriersMaster | src/shm.c:127-156 | Primes one locked barrier for every transaction of the longest group, its limit the number of strands that will come; with more than 100 transactions the table is overrun before the check, so the error return is never taken. |
| Barriers.InitBarriersSlave | src/shm.c:160-177 | The slave refuses more than 100 transactions and otherwise primes a barrier for all its strands at each. |
| Nodes.StrandStepKeepsInv | src/execute.c:191-214 | Whatever a strand does next, every barrier's count stays the number of strands that ever reached it, no strand is behind a locked barrier, and an open barrier has all its strands. |
| Nodes.ReachedMeansAll | src/sync.c:86-117 | Count equals limit exactly when every strand that has a transaction k has come to barrier k. |
| RunInvariant.NextKeepsInv | src/master.c:272-339 | Every step of the master, a slave or any strand keeps the invariant that ties barriers, announced indices, command queues and released slaves together. |
| RunInvariant.RunInv | src/master.c:272-339 | The invariant holds in every state of every run, for any groups, strand counts and slaves. |
| RunSafety.Lockstep | src/master.c:272-312 | In every run, a master strand executes transaction k only when every strand with a transaction k has come to barrier k and is out of all earlier transactions. |
| RunSafety.SlaveNeverLeads | src/slave.c:102-143 | In every run, a slave strand executes transaction k only after the slave read NEXT_TXN k, all master strands counted at k have come, and all its own strands have too. |
| RunSafety.CommandsInOrder | src/master.c:200-218 | The indices a slave reads or has queued are strictly increasing, and what it has read is exactly 0, 1, 2, .. as long as no send has failed. |
| RunSafety.ReleasedOnce | src/slave.c:157-197 | Whoever unlocks a barrier, master or slave, finds it still locked; the master's has all its strands. |
| RunSafety.GaveUpForGood | src/execute.c:204-214 | A strand that has left with a failure never comes to another barrier. |
| RunSafety.MissingStrandHoldsBack | src/master.c:287-311 | As long as one strand has not come to barrier j, no strand anywhere executes transaction j and no slave has been told to. |
| RunSafety.FailureContainment | src/execute.c:204-211 | Once a master strand has given up in a transaction, no strand on any machine ever begins a later transaction of which that strand's group has an instance. |
| RunTermination.EveryStepShrinks | src/execute.c:191-212 | Every step of anybody decreases one measure over strand positions, command queues and curr_txn. |
| RunTermination.RunsAreBounded | src/master.c:272-312 | No run is longer than the measure of its first state. |
| RunProgress.NeverStuck | src/master.c:272-312 | A reachable failure-free state in which nothing can happen is one where every strand everywhere has run all its transactions. |
| RunProgress.StaysQuiet | src/slave.c:157-197 | Steps without a failure keep the run failure-free: no error is flagged, no send lost, no slave gives up before it is told to stop. |
| RunProgress.FailureFreeRunsComplete | src/workorder.c:87-97 | Runs without failures are finite and, where they cannot go on, complete on master and slaves. |
| Liveliness.LivelyOthersExist | src/master.c:272-339 | For every thread there are others that, from every failure-free state, go on without a failure until they can do nothing more. |
| Liveliness.RestReaches | src/master.c:287-311 | When they can do nothing more, the master finds all strands at its next barrier. |
| Liveliness.RestOpens | src/sync.c:110-115 | And no strand is held by a locked barrier. |
| Liveliness.RestHasAsked | src/slave.c:163-186 | And every slave that still reads has everything announced to it and is asked for its statistics. |
| Liveliness.RestReachesSlave | src/slave.c:110-138 | And all of a slave's strands are at the barrier it is to open. |
| Interference.RunGoesOn | src/master.c:272-312 | Whatever the others do between two steps of a main thread or a strand extends the run, and leaves the thread's own progress, queue and position as they were. |
| Polling.Master.SendNextTxn | src/master.c:200-218 | The first so many slaves get the command, and it stops short of all of them exactly when a send has failed; the barrier is next in either case. |
| Polling.Master.ReleaseIfReached | src/master.c:287-312 | Exactly when all strands counted on have come, the slaves are told in order and then the barrier is released, its count equal to its limit and to the number of strands that have this transaction; otherwise the master sends and changes nothing. |
| Polling.Master.EventLoop | src/master.c:272-321 | Round by round the loop is a run of the transition system; it ends because the last barrier has been released, because a strand has flagged an error, or because polling the slaves returned something, and tells which; and if the others are lively and nothing fails, one round more than there are barriers left releases them all. |
| Polling.Master.Round | src/master.c:272-312 | One round, whatever happens meanwhile: an error that is found ends the loop, then a message of a slave does; otherwise, exactly if all strands have come to the next barrier, the slaves are told about it and it is opened, and if not, nothing is done. |
| Polling.Master.Drain | src/master.c:322-326 | The second loop goes on exactly until an error is flagged or a strand has finished, which it finds at once when the others are lively and all barriers are open. |
| Polling.Master.Finish | src/master.c:331-339 | After an error the strands are killed, the slaves are sent ABORT in order until a write fails, and the result is 1; otherwise, if statistics are wanted, the slaves are asked in order and the result is 0 exactly when every one of some slaves was, and if not wanted it is 0 with nothing done. |
| Polling.Master.MasterPoll | src/master.c:248-340 | However its rounds interleave with strands and slaves, the loop is a run of the transition system, and it can return 0 only when every barrier has been released; and whenever everybody else goes on as long as it can and nothing fails, some number of rounds given by the workorder is enough to release all barriers and return. |
| Polling.SlaveThread.WaitUnlockBarrier | src/slave.c:102-143 | The barrier is released with its count equal to its limit, and at once if all strands are there; otherwise a strand has flagged an error, a signal or a callout has failed, or it has slept six times in vain, and the barrier stays as it is. |
| Polling.SlaveThread.WaitOnce | src/slave.c:111-137 | One pass of the wait: a flagged error ends it first, then a failed signal, both before any sleep, then a failed callout, and the time last. |
| Polling.SlaveThread.Round | src/slave.c:162-192 | One round: a flagged error ends the loop; a command that is read ends it with 0 exactly when it asks for statistics, with -1 when it is ABORT, when the connection has ended or when the barrier could not be released, and otherwise opens the barrier it names. |
| Polling.SlaveThread.SlaveMasterPoll | src/slave.c:157-197 | However its rounds interleave with its strands and the master, the loop is a run of the transition system; it ends exactly when the slave stops reading commands, with its strands killed unless it was asked for statistics; and if everybody else goes on as long as it can and nothing fails, it ends with 0 and all barriers open. |
| StrandLoop.StrandThread.WaitBarrier | src/sync.c:92-117 | A strand that gets past the barrier, on the master or on a slave, finds that everybody on its machine who has this transaction has come to it; one that does not has been killed or is held by a locked barrier. |
| StrandLoop.StrandThread.EnterTxn | src/execute.c:195-202 | A strand enters transaction k exactly when it finds itself alive and at most one error flagged, and otherwise is gone; when it enters, on any machine, all master strands that have a transaction k have come to the master's barrier k. |
| StrandLoop.StrandThread.ExecuteTxn | src/execute.c:199-211 | A strand that is not killed goes on to the next transaction exactly unless this one returned UPERF_FAILURE; an expired duration is no failure. |
| StrandLoop.StrandThread.Exit | src/strand.c:470-476 | An error is flagged, and the counter one higher than found, exactly if the group has failed and the strand has not been killed; otherwise the errors stay. |
| StrandLoop.StrandThread.StrandRun | src/strand.c:431-482 | However the steps of a strand interleave with everybody else's, strand_run with group_execute is a run of the transition system, and a strand that exits without having given up has run all its transactions; one that is not killed, finds no error, can set up its handlers and does not fail never gives up, and with lively others it runs them all. |
| ByteOrder.SwapTwice | src/uperf.h:96-99 | Swapping the bytes of a number of any width twice gives it back, so swapping is injective. |
| ByteOrder.MacrosSwap | src/uperf.h:96-99 | BSWAP_16, BSWAP_32 and BSWAP_64, for any argument, reverse exactly the bytes of their width. |
| ByteOrder.DecFieldsOfEnc | src/workorder.h:47-128 | A packed record written on one machine and read on another keeps every text, and every number up to a byte swap exactly when the byte orders differ. |
| ByteOrder.UnswappedIdsMatch | src/strand.c:147-201 | Leaving connection ids in the sender's byte order changes neither which ids are equal, nor id 0, nor the id read as -1. |
| ByteOrder.EndianMarkerTells | src/handshake.c:135-139 | The marker 0xBADC at the head of a workorder reads as itself exactly when the byte orders agree. |
| Workorder.FlowopOpposite | src/flowops.c:63-84 | The scan of the table of opposites finds the dual of every type; types without a row are their own. |
| Workorder.OppositeTwice | src/flowops.c:63-70 | Taking the opposite type twice gives the type back except for sendfile and sendfilev, which both become reads. |
| Workorder.GroupTwice | src/workorder.c:253-273 | Taking the opposite of a group twice is the identity exactly when no flowop is a sendfile and none has a read size above its size. |
| Workorder.GroupReplies | src/workorder.c:219-273 | Field by field: reads and writes, sends and receives, accepts and connects answer each other, a file is read in pieces of 64 kB, a larger read size becomes the size and divides the count, the stream counts are exchanged, and every other field of every flowop, transaction and header is the same. |
| Workorder.SlaveIsGivenReplies | src/handshake.c:58-83 | The slave is given these replies to the flowops that name it or nobody, and no-ops with the same fields for the others. |
| Workorder.ResizeBound | src/workorder.c:219-240 | A repeated flowop with a larger read size moves on the slave the largest multiple of the read size below the master's total; the totals agree exactly when the read size divides it and nothing overflows 64 bits. |
| WorkorderHeap.CloneGroup | src/workorder.c:150-187 | Although every copied object first leads where the original's does, following the links of the clone gives equal contents through new transaction and flowop nodes only. |
| WorkorderHeap.LinksStayInside | src/workorder.c:150-187 | No head or next pointer of a group leads out of the group's own nodes, so none of the clone leads into the original. |
| WorkorderHeap.OptimizeTxn | src/workorder.c:219-240 | In place, every flowop is resized as ResizeBound describes and iter is never divided, since the quotient kept in optimized is always 0. |
| WorkorderHeap.OppositeTxn | src/workorder.c:253-273 | In place, every flowop of a transaction becomes its opposite, a sendfile with the slave's read size, stream counts exchanged, then resized: the reply that Workorder.GroupReplies describes field by field. |
| WorkorderHeap.GroupOpposite | src/workorder.c:253-273 | In place, the whole group becomes its opposite along its links, every flowop the reply that Workorder.GroupReplies describes field by field; every node is rewritten once, and no link and no other object changes. |
| WorkorderHeap.GroupNop | src/handshake.c:72-83 | In place, exactly the flowops addressed to another host become no-ops. |
| WorkorderHeap.PrepareForSlave | src/handshake.c:58-83 | What is sent to a slave is prepared on a clone, so the master's own group is left as it was. |
| WorkorderHeap.GroupBitswap | src/workorder.c:275-325 | In place, along the links, the headers and flowops of the group are swapped exactly as Bitswap describes, and no link changes. |
| Traces.SlaveTraceIsDual | src/workorder.c:253-273 | For a group the slave mirrors, its flattened trace, iter copies of count copies, is position by position the opposite of the master's with equal sizes. |
| Traces.DualExchanges | src/flowops.c:63-84 | After any number of positions of a trace and its dual, the bytes one side has sent are the bytes the other has received, both ways. |
| Traces.DualTraceBytes | src/execute.c:62-106 | A trace and its dual move the same number of bytes. |
| WorkorderWire.RecordSizes | src/workorder.h:47-152 | The packed prefixes of group_t, txn_t and flowop_t that go over the wire have 24, 168 and 944 bytes. |
| WorkorderWire.ParseGroupOfEnc | src/handshake.c:117-200 | For every group and either byte order, rx_group_t reads exactly what tx_group_t wrote and leaves whatever follows in the stream. |
| WorkorderWire.BitswapGroupRestores | src/workorder.c:275-325 | group_bitswap restores every field it swaps on what rx_group_t has already partly corrected, in order and for all lists. |
| WorkorderWire.TransferRoundTrip | src/handshake.c:58-200 | Written, read and swapped, a group arrives with the same lists in the same order and every field equal, except the host names as turned for the slave and the fields left in the sender's byte order. |
| WorkorderWire.RewrittenGroupFits | src/workorder.c:219-273 | Rewriting a group for a slave never makes a number too large for its field. |
| WireLayout.FlowopLies | src/workorder.h:48-107 | Every field of the packed flowop lies at its own offset, named one by one, in either byte order. |
| WireLayout.TxnLies | src/workorder.h:110-127 | So does every field of the packed transaction. |
| WireLayout.GroupLies | src/workorder.h:130-145 | And of the packed group. |
| WireLayout.HeaderLies | src/handshake.h:25-34 | And of the header of both phases. |
| WireLayout.AckLies | src/handshake.h:36-48 | And of the acknowledgement of phase 2, the shorter one of phase 1 at its head. |
| WireLayout.InfoLies | src/strand.h:26-29 | And of an entry of a port table. |
| Transfer.EnsureRead | src/common.c:202-214 | Whatever the pieces read(2) delivers, a success means the whole buffer in order and nothing more taken from the stream; asking for nothing counts as failure. |
| Transfer.EnsureWrite | src/common.c:217-230 | Whatever the pieces write(2) accepts, a success means that exactly the data has been appended to the stream. |
| Transfer.TxGroup | src/handshake.c:58-110 | Writes the encoding of the group as rewritten for the slave, and leaves the master's group as it was. |
| Transfer.RxGroup | src/handshake.c:117-200 | Links up in new objects the group that the bytes on the wire mean, for every splitting of the stream, and on a healthy connection succeeds whenever the group has arrived in full. |
| Transfer.ReceiveWork | src/handshake.c:494-507 | The slave ends up with objects that hold the group the master sent, with its bytes swapped if need be, and with exactly the bytes that followed it still to be read. |
| EndToEnd.SlaveExecutesTheDual | src/handshake.c:58-200 | The group the slave rebuilds from the bytes, in either byte order, has as its trace the dual of the master's own group, so the bytes exchanged agree at every position. |
| HandshakeWire.HandshakeSizes | src/handshake.h:25-48 | The records of the handshake have 352, 192, 196 and 288 bytes. |
| HandshakeWire.HeaderReads | src/handshake.c:428-436 | A header arrives with its texts intact and its numbers swapped exactly when the byte orders differ. |
| HandshakeWire.TableReads | src/strand.h:26-29 | A port table of any length arrives entry by entry, its ports swapped exactly when the byte orders differ. |
| HandshakeDuality.SwappedTableArrives | src/handshake.c:509-552 | A port table swapped by the slave that sends it, or by the slave that reads it, arrives as it was. |
| HandshakeDuality.ArrivedAccepts | src/common.c:135-147 | The slave finds something to listen for exactly when the group sent to it has an accept, and its table has as many entries as the group has threads. |
| HandshakeDuality.DualWorkAck | src/handshake.c:540-555 | The slave's acknowledgement of phase 2 announces the number of port entries in the master's byte order, and has the size the master reads. |
| HandshakeDuality.SlaveTakesFlowop | src/handshake.c:158-196 | Having read a flowop, the slave goes on to read the next one, the next transaction, the master's ports, or to acknowledge, exactly where the master goes on. |
| HandshakeDuality.SessionDuality | src/handshake.c:217-361 | At every position of an error-free handshake, what one side decides to send from its own data is what the other has decided to read from the bytes it has read, and both then go on to the same position. |
| HandshakeDuality.HeaderIsJudged | src/handshake.c:422-488 | The slave takes a header exactly if magic and version are its own and it supports every protocol used; after one it has refused it never goes on to the workorder. |
| HandshakeDuality.AcksAreJudged | src/handshake.c:233-354 | The master goes on after either acknowledgement exactly if it says OK, to read as many port entries as it announces, and otherwise gives up. |
| HandshakeDuality.UnsupportedIsRefused | src/handshake.c:225-484 | A master that uses a protocol the slave does not support is refused in phase 1 and gives up. |
| Conversation.ReadIsMessage | src/common.c:202-230 | Whatever the pieces, a complete read holds exactly the message the other side said at that place. |
| Conversation.NeverStuck | src/common.c:202-230 | Two processes that follow the same conversation are never both stuck before its end, however small the buffers of the streams. |
| Conversation.EveryStepShrinks | src/common.c:202-230 | Every byte moved and every call returned leaves less to do. |
| SessionRun.ReadsAreMessages | src/handshake.c:217-361 | In every error-free run over streams that split messages anywhere, each read has exactly the size, kind and contents of the peer's next message, including the variable-length parts. |
| SessionRun.NeverBothWaiting | src/handshake.c:413-569 | In every reachable state of an error-free handshake something can happen, for any buffer size, until both sides are done with the workorder and each other's ports in hand. |
| SessionRun.RunsAreBounded | src/handshake.c:583-636 | A handshake takes at most two steps for every byte and message of it. |
| Ports.Host.CreateProtocols | src/common.c:71-109 | Opens the protocol for all strands of the block: one listener shared by all on the port asked for, modulo 2^16 and unless that is 0, or, if none is asked for, each strand on a port of its own, the table saying where; an open protocol is left alone, and every new port is one the host did not have.  It fails exactly when the kernel refuses to listen, and then leaves nothing new on a fixed port, and otherwise the listeners of the first strands. |
| Ports.Host.PreprocessAccepts | src/common.c:119-155 | Afterwards every accept of the group has a listener on every strand of the block, each protocol as the first accept on it asks, the table tells the port of each, and there is a table exactly when there is an accept; it fails exactly when the kernel refuses to listen. |
| Ports.GroupPortIsFirst | src/common.c:129-146 | What is asked for on a protocol is the port option of the first accept on it in the group, in the order of its lists. |
| Ports.FixedPortIsFound | src/common.c:83-96 | A fixed port is the one the strands of the other side find. |
| Ports.Host.Learn | src/common.c:50-68 | Each strand of the block gets its own entry in front of its list, under the peer's name; no other strand changes. |
| Ports.Host.GetPort | src/strand.c:117-130 | The port of the first entry with that host name, -1 when there is none. |
| Ports.TurnedAround | src/handshake.c:72-193 | A connect to the slave is an accept there; an accept for it is a connect there, everything else is neither; and its remote host is the peer of the control connection, or the local host of the master's flowop if it names one, which then gets the remote one. |
| Ports.SlavePortIsFirst | src/handshake.c:72-83 | What the slave opens for a protocol is the port option of the master's first connect to it on that protocol. |
| Ports.TableCrosses | src/handshake.c:523-552 | A table of listening ports reaches the other side unchanged in either byte order. |
| Ports.PhaseTwo | src/handshake.c:277-361 | After phase 2, master strand ssid+i finds under the slave's name the port where slave strand i listens for any protocol it connects with, and the slave's strands find where the master's strands listen for its accepts; both sides listen as the first accept, or connect to the slave, on each protocol asks; and it fails exactly when a kernel refuses to listen. |
| Ports.PhaseTwoGroup | src/handshake.c:363-392 | With several slaves, connects to each of them find their port; but the master's accept listeners are replaced for each slave, so of the slaves that are to connect to the master exactly the last one knows where it listens, and the strands of the others know ports the master has bound but does not listen on; nothing outside the group's block changes. |
| Ports.PhaseTwoAll | src/handshake.c:363-392 | So it is for every group at once after all of phase 2: group by group the blocks of strands follow one another, and what an earlier group has found still holds when the later ones are done. |
| Pool.LookupIsLive | src/strand.c:181-210 | The lookup returns a live member that carries the id, or for -1 whatever is cached first; and null exactly when no member carries it and, for -1, nothing is cached. |
| Pool.CacheRefinesScan | src/strand.c:192-206 | As long as the cache holds only first matches, the cached lookup returns what a plain scan of the pool would. |
| Pool.CacheStaysFirst | src/strand.c:163-175 | A lookup keeps the cache to first matches, whichever slot is replaced. |
| Pool.AddKeepsCacheFirst | src/strand.c:132-140 | Adding a connection keeps it to first matches exactly when no cached connection carries the new id. |
| Pool.Strand.AddConnection | src/strand.c:132-140 | The new connection becomes the head of a well-formed doubly linked list; the cache is left alone. |
| Pool.Strand.DeleteConnection | src/strand.c:142-161 | Unlinks exactly the first connection with the id and flushes the cache, or returns 1 and changes nothing. |
| Pool.Strand.PutInCache | src/strand.c:163-175 | Fills the first free of seven slots, after that some slot of eight, of which the last is never read. |
| Pool.Strand.GetConnection | src/strand.c:181-210 | Returns what the cache, then the scan, finds, and caches what the scan found. |
| Pool.Strand.Disconnect | src/flowops_library.c:192-212 | Closes what the lookup finds and unlinks the first match; the two are the same connection exactly when the one found is the first match. With id -1 there need not be a match, and then the closed connection stays. |
| Pool.ReconnectWhileCached | src/flowops_library.c:192-212 | For every strand and id, a connection added while a cached one carries its id separates the two: the disconnect closes an older connection, which stays in the pool, and unlinks the new one. |
| PointerLiveness.NoDisconnectIsSafe | src/flowops_library.c:69-85 | A transaction without a disconnect meets the condition under which cached pointers stay live. |
| PointerLiveness.OpeningFirstIsSafe | src/flowops_library.c:150-237 | So does one whose first flowop that is not a nop or think opens a connection, may not fail, and has a positive count. |
| PointerLiveness.StepKeepsInv | src/execute.c:62-106 | Every step of a transaction that meets the condition, or has one iteration only, keeps every remembered pointer in the pool at least as deep as its id is still closed more often than opened, or sure to be reset before its flowop runs again, or never used again. |
| PointerLiveness.PointersUsedAreLive | src/flowops_library.c:69-85 | In every run of such a transaction, over all iterations and counts, the connection a transfer uses is in the pool at that moment and carries the flowop's id, or any id if the flowop's is -1. |
| PointerLiveness.HarmlessIsLive | src/flowops_library.c:69-237 | Whatever the protocols, a transaction that is made at most once, or has no exposed flowop, never uses a destroyed connection. |
| PointerLiveness.ExposedDangles | src/flowops_library.c:69-212 | For a transaction with an exposed flowop and a second iteration there is a run that ends with a flowop about to use a connection that has been destroyed, every disconnect having unlinked the first match; over protocols that refuse closed connections, if the transaction is orderly. |
| PointerLiveness.LiveExactly | src/flowops_library.c:69-237 | No run ever uses a destroyed connection if and only if there is at most one iteration or no flowop is exposed: none that is active, with nothing before it that makes it look up again, and for which up to some later disconnect of an id it may find more connections of that id are closed than are opened for sure. |
| FlowopCalls.Runner.FlowopRw | src/flowops_library.c:78-86 | On the linked pool with its cache, how a transfer finds its connection, by any id, is a call of the machine these properties are about, and it can succeed only as the machine says. |
| FlowopCalls.Runner.FlowopOpen | src/flowops_library.c:150-237 | So is a connect or accept, with the new object at the head of the pool and the pointers from there on forgotten. |
| FlowopCalls.Runner.FlowopDisconnect | src/flowops_library.c:192-212 | So is a disconnect: the connection the lookup finds is closed, the first match is unlinked, and the pointers from there on are forgotten. |
| FlowopCalls.Runner.TxnIterations | src/execute.c:153-162 | The loops over iterations, flowops and counts on the linked pool go step by step where the answers of the kernel and the signals lead, and are a run of the machine, so in a harmless transaction every connection used is in the pool at that moment. |
| FlowopCalls.OnlyStopped | src/execute.c:62-106 | Only a signal, a call that fails and may not, or a disconnect without a connection keeps these loops from making all iterations. |
| FlowopCalls.Runner.UsesLive | src/flowops_library.c:69-85 | In a harmless transaction the object a transfer has remembered is linked in the strand's pool when the transfer is called. |
| FlowopCalls.Runner.UsesDestroyed | src/flowops_library.c:69-85 | After a failing run the next transfer uses an object that is not in the strand's pool any more. |
| FlowopCalls.Follow | src/execute.c:62-162 | For every run of the machine, a failing one included, there is an execution of the loops on a linked pool that follows it step by step. |
| Execute.GroupMaxDtoSize | src/workorder.c:133-148 | The strand's buffer is large enough for every flowop, and no larger than the largest one or 8192 bytes. |
| Execute.Strand.FlowopRw | src/flowops_library.c:111-142 | A transfer succeeds only after exactly its size has been moved, for any pattern of short transfers, and never touches the buffer outside its bounds; a hangup leaves errno at EINTR, an error its own. |
| Execute.Strand.Record | src/stats.c:157-172 | FLOWOP_END adds the last return value times the number of calls, in 64 bits. |
| Execute.Accounted | src/execute.c:68-81 | After any number of good calls, the last return value times the number of calls is what they moved. |
| Execute.Strand.FlowopExecute | src/execute.c:62-86 | However it ends, some number of calls up to count was made, moving no more than they ask for, all of them unless there was a signal or a failure that is not allowed; it returns that the duration has expired exactly after a signal or EINTR, and a failure exactly if there was neither and the last call failed and may not; the counters grow by the last value times the good calls, with no error or signal exactly the bytes moved. |
| Execute.Strand.TxnExecuteOnce | src/execute.c:89-106 | Flowops are executed in order, the calls being the first part of the transaction's body, until one does not succeed, whose result is that of the transaction; a success means the whole body, and the calls are counted as moved. |
| Execute.Strand.TxnIterations | src/execute.c:153-163 | The calls made are the first part of iter copies of the body, all of them on success. |
| Execute.Strand.GroupExecute | src/execute.c:182-218 | The next transaction is begun exactly if the one before has not failed and at most one error is found, and the last one's result is the group's; each is executed up to some point, in order, and in full if it succeeds; with no error, hangup or signal the calls are exactly the group's trace, it returns success, and the strand's counter grows by exactly the bytes the kernel moved. |
| Execute.BodyPart | src/execute.c:98-101 | Any number of calls of flowop j after all calls of those before it is the first part of the body. |
| Execute.Totals.Update | src/stats.c:214-226 | The totals are the sums of all strands' counters, 64 bits wide. |
| Execute.TotalIsMoved | src/stats.c:214-226 | When every strand's counter is what was moved for it, the total is what was moved for all of them. |
| Profile.AcceptedIsRight | src/parse.c:819-885 | For every token list that is accepted, in whatever order its tokens come, ntxn and nflowop are the lengths of the lists and ids count up from 0. |
| Profile.HowItEnds | src/parse.c:819-970 | For every token list, exactly when it is accepted, refused, dereferences a null pointer or runs over the table of groups, as a condition on the tokens before the first one that stops the loop. |
| Profile.TidyNeverCrashes | src/parse.c:836-890 | A token list in which no group begins inside a transaction, and a type or options come only where there is a flowop, never dereferences a null pointer. |
| Profile.OpenTransactionCrashes | src/parse.c:836-890 | For every token list: once a group begins inside an open transaction, the next token that needs a transaction dereferences a null pointer, unless a transaction begins or ends first or the list has been refused before. |
| Profile.WorkorderReadsBack | src/parse.c:802-965 | Every workorder of at most 1024 groups can be written as tokens and is read back as it was. |
| Profile.BuildWorklist | src/parse.c:802-965 | The loop over the tokens accepts, refuses, crashes and overruns on exactly these lists, and what it builds has right counters and ids and at most 1024 groups. |
| ProfileValues.GroupIsAsWritten | src/parse.c:940-966 | In every accepted list, in whatever order its tokens come, a group has the number of strands of the last token before the next group that gives one, and is of threads or of processes if some such token says so. |
| ProfileValues.TxnIsAsWritten | src/parse.c:895-939 | A transaction has the iterations, duration and rate of the last tokens before the next transaction or group that give them, a duration putting the iterations back to one. |
| ProfileValues.FlowopIsAsWritten | src/parse.c:904-919 | And a flowop the type and the options. |
| Layout.BlocksPartition | src/strand.c:87-102 | Every strand number below the total lies in the block of exactly one group. |
| Layout.OwnerOf | src/strand.c:51-84 | Strand j of group i, counted from where the block begins, belongs to group i. |
| Layout.StrandInitAll | src/strand.c:87-102 | Initialises every strand, each exactly once, in its own group's block. |
| Layout.HandshakeBlocks | src/handshake.c:372-388 | Every control connection, group by group, is handed the beginning of its own group's block. |
| Layout.Records.Malloc | src/shm.c:309-324 | Allocates the next record; there has to be one left. |
| Layout.Records.GroupAssignStat | src/master.c:145-165 | One record for the group, one for each transaction, one for each flowop, in order, with their ids. |
| Layout.StrandRecordsAre | src/master.c:145-165 | The record of the group comes first, that of each transaction after all those of the transactions before it, and those of its flowops right behind it, each with the ids of what it is for. |
| Layout.Records.SpawnStrandsGroup | src/master.c:444-456 | Every strand of the block gets its own copy of the group's records. |
| Layout.Records.Spawn | src/master.c:546-555 | All records are allocated inside the region, in order, and each strand runs the group whose block it was initialised in; it stops exactly before the first group at which an error is found flagged. |
| Layout.DotFits | src/shm.c:240-243 | The sum of the products of two sequences is at most the product of their sums. |
| Layout.RegionIsEnough | src/shm.c:240-243 | All records of a workorder together are no more than its strands times its statistics. |
| Rate.BusyWait | src/rate.c:98-122 | For any monotone clock that reaches a second, the busy-waiting second makes at most ceil(10^9 / floor(10^9 / rate)) callbacks, as many as the clock readings say when all succeed and no more otherwise, and interval * i stays in the int range. |
| Rate.MaxCallsVersusRate | src/rate.c:105-119 | That bound is the rate exactly when the rate divides 10^9, and at most one more exactly when the remainder is no larger than the interval, as for all rates with rate^2 <= 10^9. |
| Rate.CallsAreSpaced | src/rate.c:111-119 | Whatever the readings, a second in which every callback succeeds makes no more callbacks than the bound. |
| Rate.BoundIsReached | src/rate.c:111-119 | With a fine enough clock the bound is reached, for every rate. |
| Rate.Clock.RateDelta | src/rate.c:35-67 | Half a second makes exactly rate/2 callbacks, or one if that is none, unless one fails, which ends it, or half a second, up to the rounding of the double-valued stop time, is over before; and a success means that all but 2000 ns of it and that rounding have passed, whether the times are signed or not. |
| Rate.Clock.RateExecute1s | src/rate.c:75-95 | A second makes at most 2 * max(1, rate/2) callbacks, and exactly that many if none fails and no half is over early; on success at least a second has passed if sleeps that report success were not cut short. |

## Left out

- Sockets, SSL, SCTP, VSOCK, sendfile and netstat code: wrappers over the kernel or OpenSSL; read,
  write, accept, connect and listen are oracles.
- PointerLiveness.LiveExactly: over protocols that refuse transfers on a closed connection, and for a
  transaction that opens an id the cache may hold a connection of, or disconnects with id -1, only
  that the condition suffices (`PointerLiveness.HarmlessIsLive`).  Such a disconnect leaves a closed
  connection in the pool, and whether a failing run gets past the transfers that then meet it depends
  on the cache, the counts and the opens that may fail.
- Ports.PhaseTwoAll: every control connection leads to a slave process of its own, which is what the
  listening process forks; error returns leave what was opened and told so far.
- UDP and RDS accept, which return the listener itself: the pool properties assume that accept and
  connect return a new object with no list links.
- Signal delivery and its retries: a strand may find itself signalled at any time, and nothing is
  claimed about how long a transaction lasts after a late signal.
- Transactions by duration, rate-limited transactions inside the traces, random sizes, and sizes of
  2^31 bytes and more: the trace and byte properties are about iterations and fixed sizes.
- Totals with a read size above the size and a count of at most 1: the code sets the size and leaves
  the count, and equal totals are not meant.
- Error branches of the handshake after a failed listen or a lost connection, the texts of refusals, and
  partial reads of the later command messages; a failed send or poll of the run is modelled.
- The bytes behind the NUL of the slave's uninitialised acknowledgement texts, which nobody reads.
- Host names that differ only in case within one group: assumed to be spelled the same.
- NEXT_TXN with an index at or beyond the slave's own number of transactions: it releases no strand
  of the slave, although the code lets the index equal to that number reach for one barrier more.
- The seconds a slave waits for a barrier as a length of time: sleeps of any length.
- Polling.Master.MasterPoll: the loops are cut off after any given number of rounds.  A number that is
  enough is shown for runs in which nothing fails and everybody else is lively; that the scheduler lets
  them be is not modelled.
- Rate.Clock.RateDelta: by how much a double rounds is a parameter of the clock.
- Options, names and number formats of the profile's text, printing, logging, hardware counters and
  the command line: text, floating point and user interface.
- The goodbye exchange: its timeouts depend on wall-clock polling.
- An upper bound on the sleep in `rate_delta` where `hrtime_t` is unsigned: a late half second then asks
  for a sleep of centuries.
- Statistics other than bytes and counts (times, minima, maxima), and running with statistics disabled.
- Ints that overflow for more than 2^31 transactions, threads or records.
- Profile.BuildWorklist: values that do not parse as numbers are whatever number the conversion
  returned; processes are accepted, as on platforms that have them.
- Conversation.NeverStuck: fairness of the scheduler is not modelled; progress means that some step is
  possible, and boundedness that only finitely many are.
