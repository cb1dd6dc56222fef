# PocketKV, verified

A Dafny model of the hard parts of PocketKV, a Redis-like store in C, and proofs about it. The model
follows the C code's branches, constants and error paths; clocks, random levels, allocation outcomes,
kernel answers and message interleavings are inputs, except where "Left out" says otherwise, and every
statement is about all of them.

## What is modelled

- **Two RESP framers** (`Framer*`): the master's client parser and the proxy's re-framer, as one step
  function with a side parameter and as the loops of the source. They agree byte for byte on clean streams
  for every chunking, and step by step under an exact condition.
- **Commit Gate** (`CommitGate`, `CommitOrder`, `ProxyCommit` for the proxy; `MasterCommit` for the
  publisher; the other `Commit*` modules for the two connected by a capture ring and a control channel). The
  accepted writes are always one unbroken piece of the committed log, through faults and from session to
  session; they are a prefix of it under the event loop's order of receive and parse, and in general exactly
  when the capture ring is in order; and once everything is read without a fault they are all of it. Behind a
  raised barrier none is delivered.
- **Red-black tree** (`Rb*`): pointers, sentinel and colours in a cell memory, against an algebraic tree
  with a zipper. Set and delete keep balance and order and act as map operations; the dump's walk
  never overruns its stack.
- **Incremental-rehash hash** (`Hash*`), **skip list** (`Skip*`), **expiry index** (`Expire*`) and **slab
  allocator** (`Slab*`): classes that change in place, against a map, deadlines and a set of held chunks.
- **AOF pipeline** (`Aof*`): slots between two threads. **KVSD snapshot** (`Kvsd*`): writer, loader, round
  trip and torn files.
- **Backlog ring** (`Backlog`), **forwarding watermark** (`Forwarding`), **barrier handshake** (`Barrier*`),
  **proxy cache** (`ProxyCache`) and **sender** (`ProxySend`).

`Bytes`, `Lists`, `Sums` and `Ordered` hold byte strings, lists without repetition, sums over maps and keys in
`strcmp` order.

## Results that differ from what one would hope

Each has a concrete run or input, or is a clause of the contract named, with the exact condition beside it.

- The Commit Gate adopts the first number it meets, so over arbitrary interleavings the accepted writes need
  not start at the first write of the session (`CommitOvertake.Overtaking`). They do exactly when
  no write leaves the capture ring before it (`CommitRing.RingDecides`), which the event loop sees to
  (`CommitPrefix.AcceptsAPrefix`).
- The framers differ on NUL in a header and on a `+` line cut by a receive (`FramerWire.NulHeaderParts`,
  `FramerWire.CutControlLineParts`, `FramerAgreement.StepExact`).
- Ranges handed to a replica can leave a gap (`Forwarding.GapExists`, `Forwarding.GaplessExactly`), after an
  empty refill that ended a stall and only then (`Forwarding.GapCause`, `Forwarding.NextWriteGap`); one that
  stalled more than 4 MiB behind is never fed again (`Forwarding.NeverFed`, `Forwarding.FedExactly`).
- A write longer than the ring is undercounted; the history is then not exact and partial resync is refused
  (`Backlog.Ringbuf.Feed`).
- A short AOF write is not made up for: the drained file lacks its end, with the fatal flag up
  (`AofSafety.ShortWrite`, `AofSafety.EveryRun`).
- A snapshot brings an expired key back without a deadline and cuts a value at its NUL
  (`KvsdRoundTrip.ExpiredComesBack`, `KvsdRoundTrip.NulCutsValue`); a failed write during the skip list part
  is not reported (`KvsdWriter.SkipFailureForgotten`, `KvsdWriter.DumpExact`, `KvsdWriter.SuccessExactly`), nor
  is a tree passed over for want of a stack (`KvsdWriter.TreeForgotten`).
- A barrier that is reused by a second replica keeps the first one's end (`Barrier.SecondReplica`); one left
  up can make the next begin time out, which fails closed (`BarrierBegin.LeftUp`, `BarrierBegin.BeginExactly`).
- A replacement value that finds no memory takes the old one with it (`RbTree.Tree.Mod`).

## Model

| member | source | states |
|---|---|---|
| `FramerLoops.ScanCrlf` | kvstore/src/ebpf_proxy/proxy_commit.c:269-346 | the first CRLF at or after a position, the end of the buffer if there is none |
| `FramerLoops.ScanLf` | kvstore/src/ebpf_proxy/proxy_commit.c:269-346 | the first LF at or after a position, the end of the buffer if there is none |
| `FramerLoops.ProxyNumber` | kvstore/src/ebpf_proxy/proxy_commit.c:269-346 | the proxy reads a decimal exactly when the whole line is digits and the value stays within its limit; the value is the decimal |
| `FramerLoops.ProxyBulk` | kvstore/src/ebpf_proxy/proxy_commit.c:269-346 | one bulk string of the proxy framer is the specified outcome: wait, skip to where the code resumes, or take |
| `FramerLoops.ProxyBulks` | kvstore/src/ebpf_proxy/proxy_commit.c:269-346 | n bulk strings in a row, stopping at the first that is not taken |
| `FramerLoops.ProxyStep` | kvstore/src/ebpf_proxy/proxy_commit.c:269-346 | one turn of the proxy framer is the step function both framers share, on the proxy side |
| `FramerLoops.SplitInline` | kvstore/src/main/kvstore.c:1481-1493 | the number of words of an inline line is positive exactly when it has a word before its first NUL |
| `FramerLoops.MasterNumberLoop` | kvstore/src/main/kvstore.c:2874-3050 | which header lines the master takes as numbers, and the decimal of their digits with wrap-around at the given width |
| `FramerLoops.MasterBulks` | kvstore/src/main/kvstore.c:2874-3050 | n bulk strings on the master side, stopping at the first that is not taken |
| `FramerLoops.MasterStep` | kvstore/src/main/kvstore.c:2874-3050 | one turn of the client parser is the step function on the master side, the read position moved by an unfinished `+` line included |
| `FramerLoops.MasterFrame` | kvstore/src/main/kvstore.c:2729-3050 | a whole buffer: the commands dispatched, in order, and the bytes kept for the next receive |
| `FramerTheorems.StepExtend` | kvstore/src/main/kvstore.c:2874-3050 | a decision other than waiting is not changed by bytes that arrive later, outside `+` lines |
| `FramerTheorems.RunChunk` | kvstore/src/main/kvstore.c:2874-3050 | framing a buffer, then the rest with what came later, is framing everything at once |
| `FramerTheorems.ChunkIndependence` | kvstore/src/ebpf_proxy/proxy_commit.c:269-346 | for either framer and every way of cutting a stream into receives: same commands, same unconsumed tail, as long as no `+` line stops it |
| `FramerAgreement.CleanStepAgree` | kvstore/src/ebpf_proxy/proxy_commit.c:269-346 | on a step without `+`, NUL in header, length or inline line, overflowing decimal or bulk above the cap, both framers do the same |
| `FramerAgreement.BulksExact` | kvstore/src/ebpf_proxy/proxy_commit.c:269-346 | the bulk strings of a command are framed alike exactly when their length lines have no hidden NUL and stay within the proxy's cap, lengths fitting a long |
| `FramerAgreement.StepExact` | kvstore/src/ebpf_proxy/proxy_commit.c:269-346 | on numbers that fit both framers take the same step exactly when: an array has clean length lines after a header both accept, or after one only the master accepts no bulk string it would read; a `+` line ends in the buffer; an inline line's first word does not start with NUL |
| `FramerAgreement.AlikeRuns` | kvstore/src/ebpf_proxy/proxy_commit.c:269-346 | a buffer all of whose steps are alike is framed alike |
| `FramerAgreement.CleanRunAgree` | kvstore/src/ebpf_proxy/proxy_commit.c:269-346 | the same for a whole stream: same commands and same tail |
| `FramerAgreement.Agreement` | kvstore/src/ebpf_proxy/proxy_commit.c:269-346 | for every clean stream and every chunking on either side, the k-th command of the proxy is byte for byte the k-th command of the master, and both lists are prefixes of the stream's commands |
| `FramerWire.RoundTrip` | kvstore/src/ebpf_proxy/proxy_commit.c:269-346 | from any sequence of commands - RESP arrays or inline lines with either line ending - mixed with blank lines, `+` lines and headers that announce no count, both framers take exactly the commands, byte for byte, with nothing left over |
| `FramerWire.BrokenArray` | kvstore/src/ebpf_proxy/proxy_commit.c:290-318 | an array that breaks off after some bulk strings is left exactly where it does, by both framers |
| `FramerWire.BreaksOff` | kvstore/src/ebpf_proxy/proxy_commit.c:290-313 | where a bulk string breaks off: at a byte other than the dollar sign or a bad length line at once, without CRLF behind its bytes after them |
| `FramerWire.NulHeaderParts` | kvstore/src/main/kvstore.c:2874-3050 | a NUL in an array header: the master takes the command, the proxy drops it, so the clean-stream condition cannot be dropped |
| `FramerWire.CutControlLineParts` | kvstore/src/main/kvstore.c:2795-2799 | a `+` line cut by a receive makes the master dispatch the rest as a command, so chunk independence fails there |
| `ProxyCommit.Checksum` | kvstore/src/ebpf_proxy/proxy_commit.c:405-455 | the loop computes 64-bit FNV-1a, the checksum of the descriptors |
| `ProxyCommit.ProxyGate.ReadyInsert` | kvstore/src/ebpf_proxy/proxy_commit.c:349-354 | the command goes in front of the first one that is not smaller |
| `ProxyCommit.ProxyGate.RecoveryAppend` | kvstore/src/ebpf_proxy/proxy_commit.c:356-371 | the record is the last one accepted; a recovery count that was the exact byte sum stays exact; a fault above 256 MiB |
| `ProxyCommit.ProxyGate.EmitCmd` | kvstore/src/ebpf_proxy/proxy_commit.c:374-388 | kept, last in the queue and nothing delivered, while buffering, waiting for RESUME or behind what is kept; otherwise delivered and nothing kept; either way accepted after all others; refused exactly when the gate has faulted |
| `ProxyCommit.ProxyGate.DrainReady` | kvstore/src/ebpf_proxy/proxy_commit.c:390-402 | ready commands leave while their number is the next one; a smaller one faults; the first number met is adopted |
| `ProxyCommit.ProxyGate.TryMatch` | kvstore/src/ebpf_proxy/proxy_commit.c:405-455 | head command and head descriptor are paired while they agree in number, length and checksum; a disagreement faults |
| `ProxyCommit.ProxyGate.FrameOne` | kvstore/src/ebpf_proxy/proxy_commit.c:246-267 | the framed command is queued and matched; consecutive numbers, exact counters and budget are kept, and accepted writes only grow at the end |
| `ProxyCommit.ProxyGate.FrameCtx` | kvstore/src/ebpf_proxy/proxy_commit.c:269-346 | all complete commands of a connection's buffer are framed in order and the tail is kept |
| `ProxyCommit.ProxyGate.OnDesc` | kvstore/src/ebpf_proxy/proxy_commit.c:457-489 | a descriptor from any connection at any time; numbers stay consecutive and counters exact sums, and what was accepted grows at the end only |
| `ProxyCommit.ProxyGate.OnBatch` | kvstore/src/ebpf_proxy/proxy_commit.c:667-687 | the descriptors of a batch in order until one faults; numbers stay consecutive and counters exact sums, and what was accepted grows at the end only |
| `ProxyCommit.ProxyGate.OnRecord` | kvstore/src/ebpf_proxy/proxy_commit.c:492-524 | a capture record, in turn or not; numbers stay consecutive and counters exact sums, and what was accepted grows at the end only |
| `ProxyCommit.ProxyGate.OnBaseline` | kvstore/src/ebpf_proxy/proxy_commit.c:528-558 | a connection starts over at its first command number and frames the bytes that came early; numbers stay consecutive and counters exact sums, and what was accepted grows at the end only |
| `ProxyCommit.ProxyGate.OnIgnore` | kvstore/src/ebpf_proxy/proxy_commit.c:633-645 | a connection that became a replica is ignored from now on; exactly the bytes of its queued commands are given back and no accepted write is lost |
| `ProxyCommit.ProxyGate.OnForget` | kvstore/src/ebpf_proxy/proxy_commit.c:646-658 | a closed connection is gone; exactly the bytes of its queued commands are given back and no accepted write is lost |
| `ProxyCommit.ProxyGate.OnResume` | kvstore/src/ebpf_proxy/proxy_commit.c:560-599 | nothing is kept any more and the accepted writes are as before: each one kept was dropped when the marker covers it and emitted otherwise, in order, unless a delivery faults |
| `ProxyCommit.ReplayQueue` | kvstore/src/ebpf_proxy/proxy_commit.c:560-599 | the loop of RESUME settles the specified records and says whether a delivery failed |
| `ProxyCommit.ProxyGate.Poll` | kvstore/src/ebpf_proxy/proxy_commit.c:722-766 | leaving BUFFERING with anything kept makes the gate wait for RESUME, and the history is untouched |
| `CommitOrder.InsertFacts` | kvstore/src/ebpf_proxy/proxy_commit.c:349-354 | inserting keeps the ready list in order, with the bytes of one command more |
| `CommitOrder.AcceptOrder` | kvstore/src/ebpf_proxy/proxy_commit.c:374-388 | whatever way a command is accepted - delivered or queued - it comes last in the accepted order: direct emission does not overtake the recovery queue |
| `CommitOrder.DrainInv` | kvstore/src/ebpf_proxy/proxy_commit.c:390-402 | draining keeps consecutive numbers, exact counters and the budget |
| `CommitOrder.ReplayExact` | kvstore/src/ebpf_proxy/proxy_commit.c:560-599 | RESUME(m) drops exactly the records numbered up to m and emits the rest in order, up to the first delivery that fails |
| `CommitOrder.ResumeInv` | kvstore/src/ebpf_proxy/proxy_commit.c:560-599 | RESUME keeps the invariant and loses no accepted write from the history |
| `CommitOrder.BaselineInv` | kvstore/src/ebpf_proxy/proxy_commit.c:528-558 | a baseline keeps the gate's invariant, the released bytes included |
| `CommitOrder.EveryRun` | kvstore/src/ebpf_proxy/proxy_commit.c:246-267 | after any sequence of inputs, however wrong, a gate that has not faulted has accepted consecutive numbers since its last purge, nothing past a missing one, and its byte counters are exact sums within 256 MiB |
| `CommitClosed.EmitOutcome` | kvstore/src/ebpf_proxy/proxy_commit.c:356-388 | a write is accepted behind all others, or the gate has faulted without it and keeps nothing |
| `CommitClosed.DrainSolid` | kvstore/src/ebpf_proxy/proxy_commit.c:390-402 | draining keeps the accepted numbers consecutive through a fault, in its midst too, when the gate holds no number twice |
| `CommitClosed.FaultedRun` | kvstore/src/ebpf_proxy/proxy_commit.c:457-599 | whatever a faulted gate is given until a purge, it accepts nothing more: what is delivered by then is a beginning of what it had accepted when it faulted |
| `CommitHold.EmitExactly` | kvstore/src/ebpf_proxy/proxy_commit.c:374-388 | held back a write is kept and nothing is settled, otherwise it is settled as delivered, last of all, or the gate faults unchanged |
| `CommitHold.HeldBack` | kvstore/src/ebpf_proxy/proxy_commit.c:374-388 | whatever records, descriptors and messages come, a gate that buffers, waits for RESUME or has anything kept delivers and drops nothing and adds what it accepts to what it keeps, until RESUME, a purge or the end of BUFFERING with nothing kept |
| `CommitHold.LetThrough` | kvstore/src/ebpf_proxy/proxy_commit.c:374-388 | a gate that does none of these keeps nothing and delivers every write it accepts, in order, until BUFFERING or a purge |
| `CommitHold.EdgesExactly` | kvstore/src/ebpf_proxy/proxy_commit.c:722-766 | holding back begins with BUFFERING, outlasts it exactly when something is kept or RESUME was awaited, and ends with a RESUME unless the gate still buffers |
| `CommitRefuse.MatchExactly` | kvstore/src/ebpf_proxy/proxy_commit.c:405-455 | matching takes pairs off both queues as long as number, length and checksum agree, and faults at the first pair that differs, which stays where it is |
| `CommitRefuse.DescRefused` | kvstore/src/ebpf_proxy/proxy_commit.c:457-489 | a descriptor that differs from the oldest waiting command faults the gate, and nothing is accepted |
| `CommitRefuse.RecordRefused` | kvstore/src/ebpf_proxy/proxy_commit.c:492-524 | a record whose first command differs from the oldest waiting descriptor faults the gate, and nothing of it is accepted, however many commands it holds |
| `CommitRefuse.InputRefused` | kvstore/src/ebpf_proxy/proxy_commit.c:492-524 | a record out of order, one that overflows the buffer and anything of a connection without room fault the gate, and nothing is accepted |
| `CommitRefuse.IgnoredInert` | kvstore/src/ebpf_proxy/proxy_commit.c:457-524 | records and descriptors of an ignored connection leave the gate as it is |
| `CommitRefuse.BaselineStarts` | kvstore/src/ebpf_proxy/proxy_commit.c:528-558 | early bytes are framed from the announced number on; at a later BASELINE bytes, commands, descriptors and receive count of the connection are gone; nothing is accepted |
| `CommitWhole.ApplyQuiet` | kvstore/src/ebpf_proxy/proxy_commit.c:390-455 | after any input a gate that has not faulted can match and accept nothing more: of each connection one queue is empty, and the first ready write waits for an earlier number |
| `CommitWhole.DrainConserves` | kvstore/src/ebpf_proxy/proxy_commit.c:390-402 | draining without a fault loses no number and makes none up |
| `CommitHistory.DrainGrows` | kvstore/src/ebpf_proxy/proxy_commit.c:390-402 | draining accepts only behind what was accepted |
| `CommitHistory.RecordGrows` | kvstore/src/ebpf_proxy/proxy_commit.c:492-524 | whatever a record holds, a fault stays and without one no accepted write is lost or reordered |
| `CommitHistory.DescGrows` | kvstore/src/ebpf_proxy/proxy_commit.c:457-489 | the same for a descriptor |
| `CommitHistory.BaselineGrows` | kvstore/src/ebpf_proxy/proxy_commit.c:528-558 | the same for a baseline, the commands it drops included |
| `CommitHistory.IgnoreExact` | kvstore/src/ebpf_proxy/proxy_commit.c:633-645 | ignoring a connection gives back exactly the bytes of its queued commands although the release saturates |
| `CommitHistory.ForgetExact` | kvstore/src/ebpf_proxy/proxy_commit.c:646-658 | so does forgetting one |
| `CommitMatch.HeadsMatch` | kvstore/src/ebpf_proxy/proxy_commit.c:405-455 | when the descriptors describe the framed commands, the two queue heads agree, so matching does not fault |
| `CommitMatch.MatchAligned` | kvstore/src/ebpf_proxy/proxy_commit.c:405-455 | matching keeps command and descriptor queues aligned and hands on only logged writes under their own numbers |
| `CommitSafety.HonestConn` | kvstore/src/ebpf_proxy/proxy_commit.c:405-455 | what the proxy framed and what the master dispatched are prefixes of one list, so every descriptor describes the command it meets |
| `CommitSafety.RecordOk` | kvstore/src/ebpf_proxy/proxy_commit.c:492-524 | reading a capture record keeps the connection aligned and the accepted writes logged |
| `CommitSafety.DescOk` | kvstore/src/ebpf_proxy/proxy_commit.c:457-489 | reading a descriptor keeps the connection aligned and the accepted writes logged |
| `CommitSafety.BaselineOk` | kvstore/src/ebpf_proxy/proxy_commit.c:528-558 | reading a baseline aligns the connection from its first command, early bytes included |
| `CommitRuns.RecvInv` | kvstore/src/core/reactor.c:158-214 | a receive and its capture keep the system invariant |
| `CommitRuns.PublishAll` | kvstore/src/replication/kvs_commit.c:276-321 | dispatching a list of commands publishes one descriptor each, consecutively numbered, the writes with consecutive global numbers |
| `CommitRuns.ParseInv` | kvstore/src/main/kvstore.c:2874-3050 | parsing and publishing keep the system invariant |
| `CommitTheorem.NextInv` | kvstore/src/ebpf_proxy/proxy_commit.c:607-687 | every step of master, ring, channel and proxy keeps the system invariant |
| `CommitFaults.StepFInv` | kvstore/src/ebpf_proxy/proxy_commit.c:374-489 | every step of the system, the ones that bring a fault included, gives a number to one holder only and keeps the accepted writes one piece of the log |
| `CommitFaults.AcceptsTheLog` | kvstore/src/ebpf_proxy/proxy_commit.c:390-489 | over every interleaving, whether the gate has faulted or not, all it has accepted - delivered, dropped or kept - is byte for byte one unbroken piece of the committed-write log |
| `CommitFaults.FailClosed` | kvstore/src/ebpf_proxy/proxy_commit.c:374-402 | from a fault on, in every run, what is delivered is a beginning of what had been accepted by then; after a failed delivery, with nothing kept, nothing more |
| `CommitHold.HeldBackRun` | kvstore/src/ebpf_proxy/proxy_commit.c:374-388 | end to end: in every run of master and proxy nothing is delivered from behind a raised barrier before RESUME is read or the barrier is seen down with nothing kept |
| `CommitHold.LetThroughRun` | kvstore/src/ebpf_proxy/proxy_commit.c:374-388 | and then, until it is raised again, nothing is kept |
| `CommitComplete.StepRest` | kvstore/src/ebpf_proxy/proxy_commit.c:390-489 | while nobody is dropped every step keeps each number of the session exactly once on its way, held or accepted |
| `CommitComplete.WholeLog` | kvstore/src/ebpf_proxy/proxy_commit.c:390-489 | in every run without drops, whatever the interleaving: once ring, batch and channel are read out without a fault the accepted writes are the whole log, each once, in order, byte for byte |
| `CommitSessions.NewSessionInv` | kvstore/src/replication/kvs_commit.c:402-426 | the purged gate, the empty ring and the baselines of the connections that stay, each at the start of a command, are a good beginning of a session whose numbers follow the last |
| `CommitSessions.EverySession` | kvstore/src/replication/kvs_commit.c:402-426 | however many sessions came before, with whatever faults, all that is accepted in the present one is an unbroken piece of its own log |
| `CommitSessions.NeverTwice` | kvstore/src/replication/kvs_commit.c:402-426 | numbers accepted in a later session are larger than all accepted in an earlier one |
| `CommitOvertake.Overtaking` | kvstore/src/ebpf_proxy/proxy_commit.c:390-402 | the prefix property fails over arbitrary interleavings: two connections received in one order and parsed in the other, the proxy adopts the second number |
| `CommitPrefix.AcceptsAPrefix` | kvstore/src/core/reactor.c:158-214 | when the event loop parses what it received before it receives again, and the proxy learns that a connection is gone after it has read the rest of it, the accepted commands are a prefix of the log in every run |
| `CommitRing.RingDecides` | kvstore/src/ebpf_proxy/proxy_commit.c:390-524 | in any state a run without drops reaches, nothing accepted yet and within the limits: every continuation in which the proxy reads on without a fault accepts a prefix of the log if and only if no write leaves the capture ring before the first one of the session |
| `CommitRing.BadRun` | kvstore/src/ebpf_proxy/proxy_commit.c:390-524 | from a ring out of order the proxy can read on, without a fault, to accepted writes that are no prefix |
| `CommitFree.FreeStep` | kvstore/src/ebpf_proxy/proxy_commit.c:390-489 | over every interleaving a gate that starts, starts at the number of a write that the step at hand completed |
| `CommitRoom.RecordRoom` | kvstore/src/ebpf_proxy/proxy_commit.c:492-524 | within the limits a record of an honest master never makes a gate that has accepted nothing fault |
| `CommitRoom.MsgRoom` | kvstore/src/ebpf_proxy/proxy_commit.c:607-687 | nor does a message |
| `CommitTally.TallyStep` | kvstore/src/core/reactor.c:158-214 | every step keeps the receive numbers of the records consecutive per connection and gives a number to one write only |
| `CommitFirst.DrainFirst` | kvstore/src/ebpf_proxy/proxy_commit.c:390-402 | the first write that reaches an empty gate starts the numbering |
| `CommitReactor.RecvR` | kvstore/src/core/reactor.c:158-214 | a receive keeps the order between ring records, descriptors and log |
| `CommitReactor.ParseR` | kvstore/src/core/reactor.c:158-214 | a parse keeps that order |
| `MasterCommit.Publisher.Flush` | kvstore/src/replication/kvs_commit.c:221-269 | the batch goes to the channel in order and whole, or is lost with the channel closed, which is exactly when the send fails |
| `MasterCommit.Publisher.BatchAdd` | kvstore/src/replication/kvs_commit.c:271-274 | while the channel works, published is what was published and this descriptor; a failing send of a full batch, and only that, adds nothing and closes the channel |
| `MasterCommit.Publisher.PublishWrite` | kvstore/src/replication/kvs_commit.c:276-298 | a write takes the next global number and one descriptor with its length and checksum, or the channel has failed and nothing went out |
| `MasterCommit.Publisher.PublishSkip` | kvstore/src/replication/kvs_commit.c:300-321 | any other command gets one descriptor without a global number, or the channel has failed and nothing went out |
| `MasterCommit.Publisher.Dispatch` | kvstore/src/replication/kvs_commit.c:276-321 | a dispatched command advances the connection's number; exactly one descriptor while the channel works, nothing once it does not |
| `MasterCommit.Publisher.Parse` | kvstore/src/main/kvstore.c:2874-3050 | a whole buffer, whatever the sends answer: what goes out is a beginning of the descriptors of the framed commands, in order, and all of them when the channel is still up |
| `RbTree.Tree.Rotate` | kvstore/src/storage/kvs_rbtree.c:40-83 | a rotation turns the focused subtree and keeps every other cell, parent links and the in-order list |
| `RbTree.Tree.InsertFixup` | kvstore/src/storage/kvs_rbtree.c:85-130 | from one red-red violation the loop ends in a balanced tree with the same entries |
| `RbTree.Tree.Rebalance` | kvstore/src/storage/kvs_rbtree.c:181-249 | one case of the delete loop: the shortage is gone or has moved one level up |
| `RbTree.Tree.DeleteFixup` | kvstore/src/storage/kvs_rbtree.c:181-249 | from one missing black the loop ends in a balanced tree with the same entries |
| `RbTree.Tree.Search` | kvstore/src/storage/kvs_rbtree.c:301-326 | the node of a key, or the sentinel when there is none |
| `RbTree.Tree.FindPlace` | kvstore/src/storage/kvs_rbtree.c:133-179 | where a new key goes: between the smaller and the larger entries |
| `RbTree.Tree.Insert` | kvstore/src/storage/kvs_rbtree.c:133-179 | a new key is added, an old one changes nothing; balanced search tree again |
| `RbTree.Tree.Mini` | kvstore/src/storage/kvs_rbtree.c:11-16 | the leftmost node of a subtree |
| `RbTree.Tree.Splice` | kvstore/src/storage/kvs_rbtree.c:251-299 | a node with at most one child is unlinked |
| `RbTree.Tree.Delete` | kvstore/src/storage/kvs_rbtree.c:251-299 | exactly the node's entry leaves the tree, through the successor when there are two children |
| `RbTree.Tree.constructor` | kvstore/src/storage/kvs_rbtree.c:442-452 | the empty tree: the sentinel alone |
| `RbTree.Tree.Get` | kvstore/src/storage/kvs_rbtree.c:502-511 | the value that can be read, or none |
| `RbTree.Tree.Mod` | kvstore/src/storage/kvs_rbtree.c:526-544 | overwrites a key that is there, 1 when it is not; without memory -2 and the key is left without a value |
| `RbTree.Tree.Set` | kvstore/src/storage/kvs_rbtree.c:476-499 | the map with the key bound to the value; without memory -2 and nothing new, an old value lost; balanced search tree again |
| `RbTree.Tree.Del` | kvstore/src/storage/kvs_rbtree.c:513-524 | the map without the key, 1 when it was missing; balanced search tree again |
| `RbModel.RecolorUp` | kvstore/src/storage/kvs_rbtree.c:85-130 | a red uncle: recolouring moves the violation up two levels and keeps heights and order |
| `RbModel.StraightenUp` | kvstore/src/storage/kvs_rbtree.c:85-130 | an inner grandchild is made an outer one, same entries, violation unchanged |
| `RbModel.RotateUp` | kvstore/src/storage/kvs_rbtree.c:85-130 | an outer grandchild: one rotation ends the violation |
| `RbModel.RedSibling` | kvstore/src/storage/kvs_rbtree.c:181-249 | a red sibling: after the rotation the shortage is below a red parent with a black sibling |
| `RbModel.BlackNephews` | kvstore/src/storage/kvs_rbtree.c:181-249 | black nephews: painting the sibling red moves the shortage to the parent |
| `RbModel.NearNephew` | kvstore/src/storage/kvs_rbtree.c:181-249 | a red near nephew becomes a red far nephew |
| `RbModel.FarNephew` | kvstore/src/storage/kvs_rbtree.c:181-249 | a red far nephew: one rotation ends the shortage |
| `RbHeap.RotateFocus` | kvstore/src/storage/kvs_rbtree.c:40-83 | the pointer writes of a rotation give the cells of the rotated tree, sentinel untouched |
| `RbEdit.SuccessorWhole` | kvstore/src/storage/kvs_rbtree.c:251-299 | moving the successor's entry up and unlinking its node removes exactly the deleted entry |
| `RbWalk.HeightBound` | kvstore/src/storage/kvs_rbtree.c:85-130 | a red-black tree with fewer than 2^(k+1) - 1 nodes is at most 2k high |
| `RbWalk.StackDeepEnough` | kvstore/src/main/kvstore.c:3324-3342 | below 2^127 nodes the height is below the 256 entries of the walk's stack |
| `RbWalk.Walk` | kvstore/src/main/kvstore.c:3324-3342 | the iterative walk yields every entry once, in key order, and never overruns its stack |
| `HashTable.Hash.MoveBucket` | kvstore/src/storage/kvs_hash.c:159-197 | a whole chain moves to the new table; the map and the entry count stay |
| `HashTable.Hash.RehashStep` | kvstore/src/storage/kvs_hash.c:159-197 | a step keeps the map; it ends the rehash or counts one step of the running one |
| `HashTable.Hash.FindNode` | kvstore/src/storage/kvs_hash.c:241-264 | the node of a key in either table, or none exactly when the key is not in the map |
| `HashTable.Hash.MaybeExpand` | kvstore/src/storage/kvs_hash.c:200-216 | an expansion to twice the size begins exactly when the load factor is exceeded, none runs and memory is to be had; the map stays |
| `HashTable.Hash.MaybeShrink` | kvstore/src/storage/kvs_hash.c:219-238 | a shrink to half the size begins exactly when a grown table has at most one entry to eight buckets, none runs and memory is to be had; the map stays |
| `HashTable.Hash.Get` | kvstore/src/storage/kvs_hash.c:272-277 | the map's value at the key, in the middle of a rehash too |
| `HashTable.Hash.Set` | kvstore/src/storage/kvs_hash.c:279-331 | the map with the key bound, in the middle of a rehash too; -2 and the same map without memory; a rehash begins exactly when a new key exceeds the load factor |
| `HashTable.Hash.Mod` | kvstore/src/storage/kvs_hash.c:343-349 | overwrites a key that is there; 1 when it is not, -2 without memory |
| `HashTable.Hash.Del` | kvstore/src/storage/kvs_hash.c:351-392 | the map without the key, 1 when it was missing; a shrink begins exactly when that leaves the table sparse |
| `HashTable.Hash.constructor` | kvstore/src/storage/kvs_hash.c:127-138 | an empty table of the initial size |
| `HashModel.MoveNode` | kvstore/src/storage/kvs_hash.c:159-197 | moving one node to its bucket in the new table keeps the map, each key once and each node in its bucket |
| `HashModel.AddNode` | kvstore/src/storage/kvs_hash.c:279-306 | a new node in its bucket adds exactly its key to the map |
| `HashModel.Replace` | kvstore/src/storage/kvs_hash.c:351-392 | changing one chain changes the map only at the keys of that chain |
| `HashTable.PerformAll` | kvstore/src/storage/kvs_hash.c:159-392 | every sequence of commands makes the map those commands make; without a rehash there are at most twice as many entries as slots; a rehash ends within slots/10 + 1 commands |
| `Backlog.FeedRing` | kvstore/src/replication/kvs_repl.c:2382-2424 | after the copy the ring holds the last bytes of what it held followed by the data |
| `Backlog.Ringbuf.Ensure` | kvstore/src/replication/kvs_repl.c:2354-2364 | the ring is set up on first use, at the current offset |
| `Backlog.Ringbuf.Feed` | kvstore/src/replication/kvs_repl.c:2382-2424 | the ring holds exactly the last bytes fed, all of them or as many as it has room for; the history stays exact exactly when the write is fed and fits the ring, and one that this write begins is exact when it fits and nothing was missed before |
| `Backlog.Ringbuf.Write` | kvstore/src/main/kvstore.c:2688-2694 | feed, then count: ring and offsets stay in step, and the history is exact under the same conditions |
| `Backlog.Ringbuf.Reset` | kvstore/src/replication/kvs_repl.c:2370-2380 | a full resync starts an empty history at the given offset, exact exactly when that is the master's |
| `Backlog.Ringbuf.CanContinue` | kvstore/src/replication/kvs_repl.c:3474-3485 | accepts an offset exactly when it names this master's exact history, lies between its beginning and the master's offset, and is at most the ring's size behind |
| `Backlog.Ringbuf.CopyRange` | kvstore/src/replication/kvs_repl.c:3512-3538 | in an exact history exactly those offsets give bytes: the stream from the offset to the master offset |
| `Backlog.Ringbuf.ContinueUpto` | kvstore/src/replication/kvs_repl.c:3543-3580 | in an exact history the bytes sent are the stream from the offset to the announced end |
| `Backlog.Ringbuf.Resync` | kvstore/src/replication/kvs_repl.c:3474-3580 | an offset of an exact history is accepted exactly when it is at most the ring's size behind the master and not before the history began; what is replayed is exactly the stream from there to the master offset |
| `Forwarding.SendState.Push` | kvstore/src/replication/kvs_repl.c:164-193 | a node is added exactly when something of it is above the watermark and that fits; what has left the buffer followed by the buffer stays the stream's bytes handed over, once each; a node is wholly covered afterwards, or the sender is stalled or dropped |
| `Forwarding.SendState.TopUp` | kvstore/src/replication/kvs_repl.c:196-210 | all the refill's data is handed over, or none and then the sender is stalled or full unless it needs nothing; bytes stay the stream's, once each |
| `Forwarding.SendState.ProcessOne` | kvstore/src/replication/kvs_repl.c:213-223 | a node is appended, sent and topped up |
| `Forwarding.OnceOnly` | kvstore/src/replication/kvs_repl.c:164-223 | whatever mix of nodes is queued and whichever finds no memory, the ranges handed over are non-empty and each beyond the one before, they carry the stream's bytes, and the buffer keeps within 4 MiB |
| `Forwarding.NothingVanishes` | kvstore/src/replication/kvs_repl.c:124-223 | in every run what left the buffer followed by the buffer is exactly what was handed over; one piece is lost at each break or purge and nothing else: without those, what the socket took followed by the buffer is the stream of the ranges handed over |
| `Forwarding.GapExists` | kvstore/src/replication/kvs_repl.c:164-223 | ranges may leave a gap: a write refused by a full buffer, an empty refill, and the next write |
| `Forwarding.GaplessExactly` | kvstore/src/replication/kvs_repl.c:164-223 | there is no gap exactly when no node that starts above the watermark meets a sender that takes it |
| `Forwarding.GapCause` | kvstore/src/replication/kvs_repl.c:164-223 | with nodes queued without holes and refills that bring all or nothing, a run in which no empty refill ends a stall leaves no gap |
| `Forwarding.NextWriteGap` | kvstore/src/replication/kvs_repl.c:164-223 | the next write leaves a gap exactly when an empty refill that ended a stall came before it |
| `Forwarding.NeverFed` | kvstore/src/replication/kvs_repl.c:196-210 | a replica that stalled more than 4 MiB behind the end of the backlog is given nothing by any number of refills |
| `Forwarding.FedExactly` | kvstore/src/replication/kvs_repl.c:196-210 | in every run in which refills offer all that the backlog holds, a stalled replica is handed something if and only if at one of them its buffer was below half and the whole rest fitted beside what was unsent |
| `AofThreads.GrowCap` | kvstore/src/persistence/kvs_persist.c:971-1050 | the least capacity of the doubling series that fits |
| `AofThreads.Persist.AppendPrepare` | kvstore/src/persistence/kvs_persist.c:971-1050 | the whole command joins the log and the current slot, or nothing does; without a fatal error it is refused exactly when the slot would exceed 4 MiB, or, without memory, its buffer; every slot stays in one stage, the tiling holds |
| `AofThreads.Persist.HandoffCurrent` | kvstore/src/persistence/kvs_persist.c:1054-1067 | afterwards everything submitted has been handed off; stages, tiling and the bound of sixteen hold |
| `AofThreads.Persist.SubmitAllReady` | kvstore/src/persistence/kvs_persist.c:366-375 | the ready slots are in flight, in order; when the submission queue is full before the end, one is given up and the fatal flag is up |
| `AofThreads.SubmitSteps` | kvstore/src/persistence/kvs_persist.c:339-375 | what the writer thread submits in one go is a run of single submissions |
| `AofThreads.Persist.Reap` | kvstore/src/persistence/kvs_persist.c:314-336 | the written offset is the number of bytes in the file; written, lost and missed bytes never exceed what was handed off; a batch stays outstanding until its second completion, which raises the fatal flag exactly when one of the two was an error |
| `AofThreads.Persist.DrainCompleted` | kvstore/src/persistence/kvs_persist.c:204-215 | completed slots are emptied and free again, capacities kept |
| `AofSafety.AppendInv` | kvstore/src/persistence/kvs_persist.c:971-1050 | an append keeps every slot in one stage, the tiling and the file |
| `AofSafety.CompleteInv` | kvstore/src/persistence/kvs_persist.c:314-336 | a completion does, the short writes and the fsync that the kernel then cancels included |
| `AofSafety.RecycleInv` | kvstore/src/persistence/kvs_persist.c:136-181 | recycling does |
| `AofSafety.EveryRun` | kvstore/src/persistence/kvs_persist.c:136-181 | in every run each slot is in exactly one stage, outstanding = ready + in flight is at most 16, the slots handed over tile the submitted range, the file holds only log bytes in place; after a drain a short or failed write has raised the fatal flag, and without it the file is the log and written equals submitted |
| `AofSafety.ShortWrite` | kvstore/src/persistence/kvs_persist.c:314-336 | a run with a write one byte short: the linked fsync is cancelled, and the run ends drained with the fatal flag up, the written offset behind and the last byte missing |
| `AofSafety.RoomExact` | kvstore/src/persistence/kvs_persist.c:971-1050 | with memory to be had an append is refused exactly when it would take the slot above 4 MiB |
| `AofSafety.FitsRun` | kvstore/src/persistence/kvs_persist.c:971-1050 | slot capacities stay on the doubling series over every run |
| `AofDurable.FatalExactly` | kvstore/src/persistence/kvs_persist.c:314-336 | in every run the fatal flag is up if and only if a slot could not be submitted, or one has had both completions and its write or its fsync was answered with an error |
| `AofDurable.Durable` | kvstore/src/persistence/kvs_persist.c:314-336 | after a drain without the flag every byte ever submitted belongs to a slot whose fsync was answered without an error |
| `SlabAllocator.ClassIndexFor` | kvstore/src/memory/kvs_mem.c:117-122 | the first class from the smallest up that the size fits, or -1 |
| `SlabAllocator.ClassFits` | kvstore/src/memory/kvs_mem.c:117-122 | every size up to 1024 has a class, and the one found is the tightest |
| `SlabAllocator.FreeStack` | kvstore/src/memory/kvs_mem.c:227-272 | a new page's stack holds every index once |
| `SlabAllocator.Allocator.constructor` | kvstore/src/memory/kvs_mem.c:91-115 | no pages, nothing held, counters zero |
| `SlabAllocator.Allocator.PickPage` | kvstore/src/memory/kvs_mem.c:276-300 | the active page, else the first of the list, with a free chunk; none only when every page is full |
| `SlabAllocator.Allocator.TakeChunk` | kvstore/src/memory/kvs_mem.c:300-316 | the top of the page's free stack is handed out: an address nobody holds |
| `SlabAllocator.Allocator.MallocSmall` | kvstore/src/memory/kvs_mem.c:276-316 | a chunk nobody held, of the tightest class, is held now; all else as before; counters exact; a page is mapped exactly when no page of the class has a free chunk, and the call fails exactly when that is so and none can be had |
| `SlabAllocator.Allocator.Malloc` | kvstore/src/memory/kvs_mem.c:276-337 | a new chunk of the tightest class or a new block of its own, of at least the size asked for, all else as before; which of the two, and when nothing, exactly |
| `SlabAllocator.Allocator.MallocLarge` | kvstore/src/memory/kvs_mem.c:318-337 | a block with the least number of whole pages of its own, counted |
| `SlabAllocator.Allocator.MallocFallback` | kvstore/src/memory/kvs_mem.c:198-225 | a block of the C library, counted |
| `SlabAllocator.Allocator.FindPage` | kvstore/src/memory/kvs_mem.c:364-372 | the search finds the page the chunk is on |
| `SlabAllocator.Allocator.Locate` | kvstore/src/memory/kvs_mem.c:399-412 | the division of the address gives back the index that was handed out |
| `SlabAllocator.Allocator.FreeChunk` | kvstore/src/memory/kvs_mem.c:399-432 | exactly this chunk is given back; its page is unmapped exactly when it was the last chunk held there and the other pages of the class have two pages' worth of free chunks |
| `SlabAllocator.Allocator.ReclaimPage` | kvstore/src/memory/kvs_mem.c:374-397 | the page leaves list, active slot and memory, or stays when too few chunks are free elsewhere |
| `SlabAllocator.Allocator.FreeMapping` | kvstore/src/memory/kvs_mem.c:441-461 | the block is unmapped and its bytes uncounted |
| `SlabModel.NoOverlap` | kvstore/src/memory/kvs_mem.c:276-337 | two chunks that are held never share a byte, header included |
| `SlabModel.NoOverlapOther` | kvstore/src/memory/kvs_mem.c:276-337 | nor does a chunk and a block with a mapping of its own |
| `SlabModel.IndexBack` | kvstore/src/memory/kvs_mem.c:399-412 | the address-to-index step of free inverts allocation |
| `SlabHeader.TellsRight` | kvstore/src/memory/kvs_mem.c:399-460 | below 2^48 bytes every block is taken for what it is by the bytes in front of it, with its class, mapping or requested size |
| `SlabHeader.MistakenExactly` | kvstore/src/memory/kvs_mem.c:399-404 | a mapping or library block is taken for a chunk exactly when the two top bytes of its size are a chunk's mark and class |
| `SlabOps.GrowInv` | kvstore/src/memory/kvs_mem.c:227-272 | a new page keeps every part of the invariant |
| `SlabOps.TakeInv` | kvstore/src/memory/kvs_mem.c:300-316 | handing out does: free + in use = total, stack and held chunks disjoint, counters equal to sums |
| `SlabOps.FreeSmallInv` | kvstore/src/memory/kvs_mem.c:399-432 | so does giving back, the saturating counters included, and the page goes exactly under that condition |
| `SlabOps.ReclaimInv` | kvstore/src/memory/kvs_mem.c:374-397 | an empty page is dropped exactly when the other pages of its class have two pages' worth of free chunks |
| `SkipList.Skip.constructor` | kvstore/src/storage/kvs_skiptable.c:91-100 | the header alone: the empty map |
| `SkipList.Skip.Advance` | kvstore/src/storage/kvs_skiptable.c:75-89 | going right at one level ends at the last place that is high enough and before the key |
| `SkipList.Skip.Search` | kvstore/src/storage/kvs_skiptable.c:75-89 | the node of a key, or none, and at every level the last place before it; no pointer is read above a node's height |
| `SkipList.Skip.Get` | kvstore/src/storage/kvs_skiptable.c:140-143 | the map's value at the key, or none |
| `SkipList.Skip.Mod` | kvstore/src/storage/kvs_skiptable.c:145-158 | overwrites a key that is there; 1 when it is not, -2 without memory |
| `SkipList.Skip.RaiseLevel` | kvstore/src/storage/kvs_skiptable.c:116-138 | the list is as high as the new node and the header precedes it at the new levels |
| `SkipList.Skip.LinkAll` | kvstore/src/storage/kvs_skiptable.c:116-138 | linking from the bottom up puts the tower into every level it reaches |
| `SkipList.Skip.Set` | kvstore/src/storage/kvs_skiptable.c:116-138 | the map with the key bound for every random level; without memory the map stays and the level may stay too high |
| `SkipList.Skip.UnlinkAll` | kvstore/src/storage/kvs_skiptable.c:160-176 | unlinking stops exactly above the tower's top and leaves every level the list without it |
| `SkipList.Skip.LowerLevel` | kvstore/src/storage/kvs_skiptable.c:160-176 | the level becomes that of the highest tower |
| `SkipList.Skip.Del` | kvstore/src/storage/kvs_skiptable.c:160-176 | the map without the key, 1 when it was missing; the level is tight after |
| `SkipList.Skip.Foreach` | kvstore/src/storage/kvs_skiptable.c:182-189 | visits the entries in key order until a visit refuses |
| `SkipModel.LevelLinked` | kvstore/src/storage/kvs_skiptable.c:116-138 | the two writes at a level give the level's list with the tower |
| `SkipModel.LevelUnlinked` | kvstore/src/storage/kvs_skiptable.c:160-176 | the one write at a level gives the level's list without the tower |
| `SkipList.LeadsTo` | kvstore/src/storage/kvs_skiptable.c:160-176 | a place on the search path leads to the tower at exactly the levels it reaches |
| `Kvsd.ReplayDump` | kvstore/src/persistence/kvs_persist.c:596-720 | the loader's loop is the record-by-record load, on every file |
| `KvsdWriter.DumpCtx.FlushBuf` | kvstore/src/main/kvstore.c:3210-3219 | the buffer goes out in order through any short writes, or the call fails and the buffer is kept |
| `KvsdWriter.DumpCtx.WriteBuf` | kvstore/src/main/kvstore.c:3221-3238 | buffer, flush and write-through as specified |
| `KvsdWriter.DumpCtx.WriteRecord` | kvstore/src/main/kvstore.c:3276-3305 | the pieces of a record in order, until one fails |
| `KvsdWriter.DumpCtx.WriteRecords` | kvstore/src/main/kvstore.c:3240-3259 | the records of an iteration in order, until one fails |
| `KvsdWriter.DumpCtx.DumpTo` | kvstore/src/main/kvstore.c:3276-3376 | header, records of all engines, final flush; the tree is passed over when its stack cannot be allocated and the outcome of the skip list part is not looked at |
| `KvsdWriter.Added` | kvstore/src/main/kvstore.c:3221-3238 | file plus buffer grow by exactly the data that was handed over |
| `KvsdWriter.DumpWrites` | kvstore/src/main/kvstore.c:3276-3376 | a dump that reports success and handed over the skip list part has written the snapshot, byte for byte |
| `KvsdWriter.DumpExact` | kvstore/src/main/kvstore.c:3276-3376 | through any short writes, every part is handed over and success reported exactly when no write failed |
| `KvsdWriter.DumpSucceeds` | kvstore/src/main/kvstore.c:3276-3376 | when every write takes something the dump succeeds and the file is the snapshot |
| `KvsdWriter.SuccessExactly` | kvstore/src/main/kvstore.c:3344-3376 | when writes take all or nothing, a reported success has written the snapshot exactly when nothing failed in the skip list part |
| `KvsdWriter.SkipFailureForgotten` | kvstore/src/main/kvstore.c:3344-3345 | whenever the buffer first fills up within the skip list part and that write fails, the dump reports success over a file that is not the snapshot |
| `KvsdWriter.FiveEntries` | kvstore/src/main/kvstore.c:3344-3345 | five entries of a million bytes, each within the 1 MiB input buffer, are enough |
| `KvsdWriter.TreeForgotten` | kvstore/src/main/kvstore.c:3324-3342 | when no write fails a dump reports success; it wrote the snapshot exactly when the stack of the tree walk could be allocated or the tree is empty |
| `KvsdWriter.SaveThenLoad` | kvstore/src/main/kvstore.c:3276-3376 | written through the buffered writer and any short writes without a failed one, then loaded: the header offset, exactly the dumped keys, values up to their NUL, deadlines within 999 ms |
| `KvsdRoundTrip.ReadLine` | kvstore/src/persistence/kvs_persist.c:616-700 | a written record is read back as the record, and the rest of the file follows |
| `KvsdRoundTrip.LoadsWhatWasWritten` | kvstore/src/persistence/kvs_persist.c:596-720 | loading a snapshot applies its records in order to whatever is there and returns the header offset |
| `KvsdRoundTrip.RoundTrip` | kvstore/src/persistence/kvs_persist.c:596-720 | into empty engines: the header offset, exactly the dumped keys, each value up to its NUL, each deadline d in [d, d + 999] if it was ahead at the dump and the stored one is ahead at the load, and otherwise none |
| `KvsdRoundTrip.ContentsSame` | kvstore/src/main/kvstore.c:3276-3345 | the maps come back the same exactly when no value has a NUL or 4 GiB |
| `KvsdRoundTrip.FixedClock` | kvstore/src/main/kvstore.c:3286-3303 | with the clock held fixed a deadline comes back within 999 ms exactly when it is still ahead |
| `KvsdRoundTrip.ExpiredComesBack` | kvstore/src/persistence/kvs_persist.c:680-697 | a key past its deadline at the dump, or whose deadline passes before the load, comes back without a deadline |
| `KvsdRoundTrip.NulCutsValue` | kvstore/src/main/kvstore.c:3286-3303 | a value with a NUL comes back shorter |
| `KvsdRoundTrip.TornLoad` | kvstore/src/persistence/kvs_persist.c:616-710 | whatever part of the records reached the disk, the load is that of a prefix of them, the last one possibly without its deadline |
| `ExpireTable.Table.Swap` | kvstore/src/expire/kvs_expire.c:28-36 | two places exchanged, back pointers included |
| `ExpireTable.Table.SiftUp` | kvstore/src/expire/kvs_expire.c:38-45 | from one place out of order upwards to a heap |
| `ExpireTable.Table.SiftDown` | kvstore/src/expire/kvs_expire.c:47-60 | from one place out of order to a heap, or the item stays and is out of order only upwards |
| `ExpireTable.Table.Push` | kvstore/src/expire/kvs_expire.c:75-83 | one item more in the heap, or nothing changed without memory |
| `ExpireTable.Table.RemoveAt` | kvstore/src/expire/kvs_expire.c:85-99 | exactly the item at the place leaves the heap |
| `ExpireTable.Table.Update` | kvstore/src/expire/kvs_expire.c:101-105 | a heap again after a deadline has changed either way |
| `ExpireTable.Table.Find` | kvstore/src/expire/kvs_expire.c:107-116 | the item of a key, or none exactly when it has no deadline |
| `ExpireTable.Table.UnlinkBucket` | kvstore/src/expire/kvs_expire.c:118-133 | the item leaves its chain |
| `ExpireTable.Table.FreeNode` | kvstore/src/expire/kvs_expire.c:135-142 | the deadlines without this key; heap, back pointers and buckets agree again |
| `ExpireTable.Table.constructor` | kvstore/src/expire/kvs_expire.c:144-159 | no deadlines |
| `ExpireTable.Table.Set` | kvstore/src/expire/kvs_expire.c:183-217 | the deadlines with this key's set to now + ttl, or an error and no change |
| `ExpireTable.Table.Del` | kvstore/src/expire/kvs_expire.c:219-230 | the deadlines without this key, 1 when it had none |
| `ExpireTable.Table.IsExpired` | kvstore/src/expire/kvs_expire.c:232-236 | true exactly at or past the deadline |
| `ExpireTable.Table.Ttl` | kvstore/src/expire/kvs_expire.c:238-248 | seconds left rounded up, -1 without a deadline, -2 past it |
| `ExpireTable.Table.Cycle` | kvstore/src/expire/kvs_expire.c:252-265 | removes exactly min(budget, number expired) keys, earliest deadlines first, all expired, and leaves every other one |
| `ExpireTable.Table.Earliest` | kvstore/src/expire/kvs_expire.c:252-265 | the item on top has the earliest deadline of all |
| `ExpireHeap.UpStep` | kvstore/src/expire/kvs_expire.c:38-45 | exchanging with the parent moves the one place out of order up |
| `ExpireHeap.DownStep` | kvstore/src/expire/kvs_expire.c:47-60 | exchanging with the smaller child moves it down and leaves order above |
| `ExpireHeap.RootLeast` | kvstore/src/expire/kvs_expire.c:252-265 | in heap order nothing is before the root |
| `Barrier.StepInv` | kvstore/src/main/kvstore.c:804-962 | every master register access, every proxy poll, fault, reconnect and send keeps the handshake's invariant |
| `Barrier.BarrierHolds` | kvstore/src/main/kvstore.c:804-872 | in every run, when a begin succeeds the proxy is buffering with the request up and stays so, sending none of its cache, until the master writes 0 to register 3; the marker is the number of the last committed write, the end the master's offset |
| `Barrier.NoEarlyRelease` | kvstore/src/main/kvstore.c:941-962 | while every REPLACK is short of the barrier's end, timeout and session end included, no RESUME is sent, register 3 stays up and the proxy buffers |
| `Barrier.TimeoutFailsClosed` | kvstore/src/main/kvstore.c:954-962 | after the hold timeout, in every run until the next begin, no RESUME is sent, register 3 stays up and the proxy buffers |
| `Barrier.AckReleases` | kvstore/src/main/kvstore.c:941-948 | a REPLACK lowers a gated barrier exactly at its end and when RESUME is not refused; the marker is sent, if there is a session to send it to, before the register is written |
| `Barrier.LostResume` | kvstore/src/main/kvstore.c:877-901 | when RESUME cannot be sent the session is invalid and, in every run until the next begin, the proxy goes on buffering |
| `Barrier.SecondReplica` | kvstore/src/main/kvstore.c:804-815 | a second begin reuses the barrier; a REPLACK short of its own catch-up end releases exactly when something was committed in between |
| `Barrier.SecondReplicaEarly` | kvstore/src/main/kvstore.c:804-948 | such a run exists |
| `Barrier.MissedEdge` | kvstore/src/ebpf_proxy/main.c:984-1013 | without a falling edge seen by the proxy no begin succeeds: it times out, closed |
| `Barrier.StaleBarrier` | kvstore/src/main/kvstore.c:815-840 | a begin over a barrier left up gets there when the proxy does not look in between |
| `BarrierBegin.BeginExactly` | kvstore/src/main/kvstore.c:804-862 | from every state in which a begin may be made, whatever the proxy does between the accesses: the barrier is up at the end exactly when the proxy has noticed register 3 down before it is raised and looks again after |
| `BarrierBegin.BeginFails` | kvstore/src/main/kvstore.c:850-862 | a begin that times out takes its request and marker back whatever the proxy does, and the proxy's next look ends its answer |
| `BarrierBegin.LeftUp` | kvstore/src/main/kvstore.c:804-962 | a barrier left up is reached: begin, success, hold timeout |
| `BarrierBegin.LeftUpFails` | kvstore/src/main/kvstore.c:804-862 | there a begin fails, however long it waits, when the proxy did not look while register 3 was down |
| `BarrierBegin.HeldExactly` | kvstore/src/main/kvstore.c:941-962 | from the setting of the hold time on, barrier and session last through short acknowledgements and early ticks; a tick gives both up exactly when the time is over, an acknowledgement releases exactly at the end |
| `BarrierBegin.ReleaseTakesEffect` | kvstore/src/ebpf_proxy/main.c:984-1013 | the proxy's first look after a release ends BUFFERING and its answer; what is to be flushed goes out once, with the next turn of the sender that may |
| `BarrierBegin.AckTakesEffect` | kvstore/src/ebpf_proxy/main.c:984-1013 | and it is an acknowledgement at the end that brings this about, RESUME with the marker included |
| `Barrier.Master.ReleaseBarrier` | kvstore/src/main/kvstore.c:877-901 | the master's fields and register 3 after a release, whether RESUME is sent, refused or not needed because no commit session is active |
| `Barrier.Master.CancelBarrier` | kvstore/src/main/kvstore.c:906-915 | the fields after a cancel; register 3 untouched |
| `Barrier.Master.NoteAppliedAck` | kvstore/src/main/kvstore.c:941-948 | register 3 is cleared only for a gated barrier whose end is reached |
| `Barrier.Master.TickBarrier` | kvstore/src/main/kvstore.c:954-962 | the fields after the timeout; register 3 and RESUME untouched |
| `ProxyCache.CacheCtx.ClearAll` | kvstore/src/ebpf_proxy/proxy_cache.c:81-90 | everything dropped and counted, the invalid mark kept |
| `ProxyCache.CacheCtx.AppendData` | kvstore/src/ebpf_proxy/proxy_cache.c:29-71 | the data is the last node and counted as taken in, or nothing is taken in; refused for good exactly when the cache is invalid or the bytes do not fit; counters exact |
| `ProxyCache.CacheCtx.ResetForNewSession` | kvstore/src/ebpf_proxy/proxy_cache.c:94-101 | valid and empty again, what was held counted as dropped, nothing taken in forgotten |
| `ProxyCache.CacheCtx.FlushTo` | kvstore/src/ebpf_proxy/proxy_cache.c:120-162 | node by node from the head, foreign sessions dropped, until a send fails |
| `ProxyCache.FlushAll` | kvstore/src/ebpf_proxy/proxy_cache.c:120-162 | with successful sends exactly the session's data in append order is sent and nothing is left |
| `ProxyCache.FlushSome` | kvstore/src/ebpf_proxy/proxy_cache.c:120-162 | with failing sends: what was sent followed by what is left of the session is what there was, and only foreign nodes are dropped |
| `ProxyCache.Overflow` | kvstore/src/ebpf_proxy/proxy_cache.c:29-60 | an append overflows exactly when the bytes do not fit, and in every run that follows nothing is taken in or sent before a new session |
| `ProxyCache.EveryRun` | kvstore/src/ebpf_proxy/proxy_cache.c:16-162 | over every run bytes accepted = sent + dropped + resident, resident at most 256 MiB, the high flag above low water and its absence below high water; once invalid, nothing is taken in or sent until a new session |
| `ProxySend.SendBatch` | kvstore/src/ebpf_proxy/main.c:312-403 | whatever `writev` answers, bytes written followed by bytes put back into the cache are the batch, in order; nothing is put back without an error |
| `ProxySend.Advance` | kvstore/src/ebpf_proxy/main.c:370-384 | the cursor moves past exactly the bytes written |

## Left out

- RDMA, kprobe and BPF loading, sockets, epoll, io_uring and coroutines: only their outcomes are inputs.
- INFO and MEMSTAT text, configuration, logging, statistics, sentinel failover: no hard property.
- The DOC engine: its fields are joined as text in the snapshot; DOC records are written and read but have no
  effect on the four string engines here. LOCK, UNLOCK, RENEW and DOC writes are not part of the replication stream.
- The array engine: a table with a hash index, a smaller case of what is covered. Its capacity of 2^20 keys is
  not modelled, so a load into a non-empty full array is not covered.
- BGREWRITEAOF and `persist_aof_rebase`: they reset offsets outside the slot tiling. The synchronous AOF modes.
- Time-outs of the Commit Gate are fault inputs; its message epochs and the HELLO exchange are not modelled.
- CommitSessions.NewSessionInv: capture has been closed, so the ring is empty, and nothing of the old session is left in
  the channel. Baselines sent again after a reconnect within a session, with capture open, are not covered.
- The proxy's control block and each master register access are single steps of the handshake; a proxy restart and
  the race inside the control block are not modelled.
- Linked chains (hash buckets, page lists, slot lists, cache and queue nodes) are sequences in list order, so
  aliasing between `next` pointers is not captured there. The red-black tree and the skip list keep their
  pointers, in a memory of cells that is one field.
- The allocator's class takes the kind of block from its caller; that the bytes in front of the pointer tell it is
  `SlabHeader`. Peak and call counters are not modelled.
- Barrier: `repl_barrier_begin` is modelled on values, one step per register access, because the proxy changes
  the registers in between.
- Backlog.Ringbuf.Reset: the offset must not be beyond the master's, which is what full resync passes.
- RbTree.Tree.Set: the node itself can be allocated, which the source does not check; a node given up half built is
  a leak and not modelled.
- RbWalk.Walk: below 2^127 nodes, which is where the fixed stack is enough.
- KvsdRoundTrip.RoundTrip: each dump and each load reads the clock once; keys are C strings below 4 GiB, and
  deadlines are at least a second from the end of the 64-bit clock.
- KvsdWriter.DumpCtx.DumpTo: every entry has a value; one whose value was lost in a failed overwrite has a null
  pointer, and the source takes its length.
- KvsdWriter.SuccessExactly: writes take all or nothing; after a short write that fails later the buffer is written
  again from its start, and that file is not compared with the snapshot.
- AofThreads.Persist.AppendPrepare: the busy wait for a free slot is the requirement that there is one.
- MasterCommit.Publisher.Dispatch: for a client that is captured; for others nothing is published, which is what
  PublishWrite and PublishSkip say.
- MasterCommit.Publisher.Parse: likewise.
- FramerLoops.MasterBulks: copies of long arguments can be allocated; a failed one makes the source drop the command as
  malformed.
- FramerLoops.MasterStep: likewise, and for the copy of an inline line, which is skipped.
- FramerLoops.MasterFrame: likewise.
- ProxyCommit.ProxyGate.TryMatch: the time-outs of a head that finds no partner are fault inputs.
- CommitRing.RingDecides: connections that were forgotten or turned replica before are not covered; of the gate's
  budget one connection's buffer stays free, since a command is briefly counted both as pending and as kept.
- FramerAgreement.AlikeRuns: one direction; after a step that differs the two may meet again further on.
- ProxySend.SendBatch: what the cache does with the bytes put back is the cache's own matter.
