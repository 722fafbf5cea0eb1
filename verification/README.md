# Verification of MpNetServer

MpNetServer is a multi-process TCP server. A parent process owns the client sockets; each worker
process talks to it through two lock-free rings in shared memory. This project models the parts of the
server whose correctness is not local to one function, and proves what they promise.

| file | what it models |
|---|---|
| `Basics.dfy` | definitions shared by several components |
| `Frames.dfy`, `RingLayout.dfy` | the bytes of a block, and how queued blocks lie in the ring |
| `RingSteps.dfy` | one producer in `shmq_push` and one consumer in `shmq_pop`, interleaved at every shared access |
| `SharedRing.dfy` | the same two calls in place on a byte array, in 32-bit arithmetic |
| `RingProgress.dfy` | what a push in the interleaved ring comes to |
| `RingQueues.dfy` | the rings as the queues of blocks that the session protocol uses |
| `ChildWakeup.dfy`, `ParentWakeup.dfy` | the two event loops around a ring and its notification pipe |
| `Sessions.dfy`, `SessionLaws.dfy`, `ChildCalls.dfy` | the OPEN/DATA/CLOSE/FIN protocol between parent and workers, what its steps do, and the worker's code |
| `Inbound.dfy` | reading, framing and edge-triggered polling of one client connection |
| `EndToEnd.dfy` | sockets, framing, rings and plugins in one system |
| `Outbound.dfy` | buffered partial sends, EPOLLOUT, and `send_pkg_to_client` |
| `IntrusiveList.dfy`, `FdTable.dfy` | `List.h`, the etin and close queues, `maxfd`, `count`, and the sweeps |
| `Dictionary.dfy` | the slot table of iniparser as a map |
| `IniText.dfy`, `IniReader.dfy` | INI lines: the parser's `sscanf` formats, and how a line reads in plain terms |
| `IniFile.dfy`, `IniLoading.dfy`, `IniCalls.dfy` | the loader and the printer, and their round trip |

How the pieces fit together:

- **Ring.** `RingSteps.Run` is the state after any schedule of producer and consumer steps. Each read or
  write of `head`, `tail` or a header field and each copied byte is one step; memory is sequentially
  consistent; the consumer may also write over the block it was handed; `exit` is the state `Halted`, an
  access outside the mapping would be `WildWrite` or `WildRead`. The invariant `RingSteps.Inv` says that
  the bytes between `tail` and `head` spell out exactly the frames pushed and not yet popped, and what each
  side may rely on at each of its program points. The ring needs `length >= page_size + 8`; callers never
  push a PAD block.
- **Sessions.** Both rings of a worker are queues of blocks here, which `RingQueues.RecvqIsTheRing` and
  `RingQueues.ParentReadsWhatWasPushed` justify. There are any number of workers. A connection is
  identified by its generation (how many `do_add_conn` calls preceded it); the code compares only the
  32-bit id derived from it, and keys sessions by fd alone. In the runs considered, no block is handled
  after 2^32 - 1 newer connections. A full ring may refuse a CLOSE (`DropLost`); the theorems hold over
  every run in which each connection so dropped had been closed by its worker before, and
  `Sessions.LostCloseExact` shows that this is exactly what they need.
- **Both together.** A step of `EndToEnd` is an event on a socket, the start of a `net_recv`, one of its
  pushes, its return, or a step of the session protocol; workers and peers go on during a `net_recv`. The
  protocol's part of such a run is a run of `Sessions` (`EndToEnd.RunProjects`).
- **Connections.** `Inbound` takes the plugin's `get_pkg_len` as a parameter that must be prefix-stable;
  `recv` returns the smaller of what was asked for and what is there. `Outbound` takes the kernel's
  answers to `send` as a script. The copy at src/net.c:400 is modelled as a move, since its source and
  destination may overlap.
- **INI.** `sscanf` follows section 7.19.6.2 of ISO C99 for the directives in use; character classes are
  those of the C locale. A dictionary is *expressible* if it has a section; every section is non-empty,
  stripped, lower-case, without value, and free of `:`, `]` and newlines; every other key lies in a present
  section and has a non-empty, stripped, lower-case name without `=` or newline that does not start with
  `[`, `#` or `;`; its value is a stripped string, possibly empty, without newline, `;` or `#`, that does not
  start with a quote or end with a backslash; and every printed line fits the loader's line buffer. Its
  keys may still be too long for the loader's other buffer, see below.

Nine properties one might expect do not hold of the code. Each is shown to fail and pinned down exactly:

- A ring that was popped until empty can still refuse a legal block, if it is short:
  `SharedRing.ShortRingRefuses` drives a new ring there and `SharedRing.DrainThenPush` excludes it otherwise;
  `SharedRing.RefusableExact` gives the bound, which three pages and the header meet.
- The parent can sleep over a non-empty send queue, because it drains the queue before it reads the pipe:
  `ParentWakeup.ParentMissesAWakeup`, and `ParentWakeup.SleepsExactlyOnOverlap` over all runs. The worker
  drains in the other order and cannot (`ChildWakeup.NoLostWakeup`).
- A refused CLOSE can give one client's packets to another's session: `Sessions.LostCloseHappens`, and
  `Sessions.LostCloseExact` over all runs.
- A packet that the size limit admits can end its connection, because the limit is the page size and the
  ring needs 13 bytes more: `Inbound.PageSizedPacketKills`, and `Inbound.ConnectionLives` over all runs.
- An end of stream can be missed: `Inbound.EndOfStreamForgotten`, and `Inbound.EndOfStreamExact` over all
  runs.
- EPOLLOUT can stay unarmed over waiting bytes when there is a send limit: `Outbound.JamHappens`,
  `Outbound.EventsLeaveAJam`, and `Outbound.ArmedExact` over all sequences of sends and events.
- A file with a syntax error can load, because storing an entry sets the count of errors back:
  `IniLoading.ErrorAccepted`, and `IniLoading.ErrorsExact` for every file of whole lines.
- The dump of a dictionary without sections does not load back as it was: `IniLoading.FlatDumpExact` says what
  comes back.
- Loading a dumped dictionary can overflow the buffer for `section:key`: `IniFile.LongKeyOverflows`, and
  `IniFile.DumpLoadRoundTrip` for every expressible dictionary.

Where comments and code differ, the model follows the code. A last line without a newline is rejected as
too long (iniparser/src/iniparser.c:669). The comment on `dictionary_set` says that a NULL value amounts to
deleting the key (iniparser/src/dictionary.c:211-216); the code keeps the key, and sections rely on that.

## Model

| member | source | states |
|---|---|---|
| Frames.EncodeDecode | src/shmq.h:50-56 | decoding an encoded block gives the block back; its length field is its length and its type byte its type |
| RingSteps.InitInv | src/shmq.c:50-61 | a fresh ring satisfies the ring invariant |
| RingSteps.ProducerKeeps | src/shmq.c:146-188 | every shared access of a push, from any reachable state, keeps the ring invariant |
| RingSteps.ConsumerKeeps | src/shmq.c:121-144 | every shared access of a pop, from any reachable state, keeps the ring invariant |
| RingSteps.PoppedArePushed | src/shmq.c:64-188 | in every interleaving the popped frames are a prefix of the pushed ones byte for byte, head and tail stay in the mapping, a wrapped ring has head at the start or a page below tail, no access is out of bounds, and the branch marked impossible is never taken |
| RingSteps.PadIsWritten | src/shmq.c:111-115 | in every interleaving, what head leaves behind at the end of the ring reads as a pad block of exactly that length, if a header fits |
| RingSteps.StepRefinesFifo | src/shmq.c:121-188 | every step appends the caller's frame, removes the oldest one, or leaves the queue unchanged; so a refused push changes nothing even after padding and wrapping |
| RingSteps.EmptyMeansEmpty | src/shmq.c:121-133 | a pop answers empty only at a moment when everything published had been popped |
| RingSteps.HeldBlockSurvives | src/shmq.c:135-183 | the block a pop hands out stays as pushed under any number of producer steps, although tail is past it |
| RingSteps.HeldBlockIsTheConsumers | src/service.c:114-119 | rewriting that block in place is a step of the runs: it keeps the ring invariant and touches neither the queue nor a push in progress |
| RingSteps.ArithmeticNeverWraps | src/shmq.c:64-188 | in every interleaving, every sum and difference either side computes fits a signed 32-bit word, for length + 2 pages below 2^31 |
| RingSteps.EveryRunDrains | src/shmq.c:121-144 | from every reachable state a consumer left alone pops exactly what remains: nothing published gets stuck |
| RingProgress.EveryPushDecides | src/shmq.c:78-188 | in every interleaving, a push that starts and is then left alone ends, and is accepted, refused, too large or fatal exactly as the two offsets say, with head where the block or the wrap puts it |
| RingProgress.RoomIsSeen | src/shmq.c:161-175 | a push that is still testing gets in once there is room, if the consumer then rests |
| RingProgress.TenTests | src/shmq.c:161-175 | a push that keeps finding the ring full gives up after ten tests, not before |
| RingProgress.CallEnds | src/shmq.c:78-188 | the same from every point inside a push |
| SharedRing.RefusableExact | src/shmq.c:78-175 | a drained ring can refuse a block of n bytes if and only if length < page_size + 2n + 7 (for pages of at least 25 bytes; smaller ones refuse less); never with three pages plus the header |
| SharedRing.DrainedRingAccepts | src/shmq.c:78-175 | wherever head can have stopped, an empty ring that is long enough in this sense accepts the block |
| SharedRing.DrainThenPush | src/shmq.c:121-188 | popping until empty and then pushing a legal block succeeds on every ring that is long enough |
| SharedRing.ShortRingRefuses | src/shmq.c:121-188 | on every other ring, at most two blocks bring a new ring to an empty state whose offsets refuse every block of n bytes |
| SharedRing.SharedQueue.constructor | src/shmq.c:50-61 | an empty ring with head and tail at 8 |
| SharedRing.SharedQueue.AlignTail | src/shmq.c:64-76 | tail goes to the start exactly when the end of the ring is unusable; the queue is unchanged |
| SharedRing.SharedQueue.Pop | src/shmq.c:121-144 | -1 exactly on an empty queue, and then tail has reached head; else the oldest frame's bytes, removed from the queue, with all 32-bit arithmetic in range |
| SharedRing.SharedQueue.TakeBlock | src/shmq.c:135-140 | the frame at tail is handed out by its own length field |
| SharedRing.SharedQueue.AlignHead | src/shmq.c:78-119 | head wraps exactly when the block does not fit before the end; exit exactly if tail is at the start then; queue and held block unchanged |
| SharedRing.SharedQueue.PadHeader | src/shmq.c:111-114 | writes type, length and id of a pad block and nothing else |
| SharedRing.SharedQueue.WaitForRoom | src/shmq.c:161-175 | gives up exactly if tail is above head by less than the block and a page |
| SharedRing.SharedQueue.CopyBlock | src/shmq.c:177-181 | the block's bytes at head, all others unchanged |
| SharedRing.SharedQueue.Append | src/shmq.c:177-183 | the frame is copied and published at the back of the queue |
| SharedRing.SharedQueue.Push | src/shmq.c:146-188 | all or nothing: the frame is appended exactly when accepted, and the outcome is the one the offsets determine |
| RingQueues.RingIsTheQueue | src/shmq.c:121-188 | in every interleaving, publishing appends the block the push was made from, a pop takes the first block and hands out bytes that read as it, nothing else changes the queue |
| RingQueues.RecvqIsTheRing | src/service.c:101-107 | a worker's receive queue in the protocol may be its ring: push and pop are the protocol's own steps on it |
| RingQueues.WorkerReadsWhatWasPushed | src/service.c:107-124 | the i-th frame a worker pops reads, in type, fd, id and payload, as the i-th block its parent pushed |
| RingQueues.ParentReadsWhatWasPushed | src/net.c:422-446 | the i-th frame the parent pops reads as the i-th block its worker pushed |
| RingQueues.UpBlockReads | src/net.c:217-223 | the blocks the parent builds read as OPEN, DATA and CLOSE of their connection |
| RingQueues.DownBlockReads | src/net_if.c:182-224 | the blocks a worker builds read as DATA and FIN of their connection |
| RingQueues.PushableIsLegal | src/net.c:378-384 | the packets `Inbound` hands on are exactly those whose block the ring does not call too large |
| ChildWakeup.NoLostWakeup | src/net.c:612-647 | in every run of parent and child, a child about to wait over a non-empty ring has a byte in its pipe or a push about to write one |
| ChildWakeup.ChildCatchesUp | src/net.c:612-647 | from every reachable point, a child left alone pops all there is and waits again, its pipe read dry if it was waiting |
| ParentWakeup.ParentMissesAWakeup | src/net.c:491-534 | on every ring with room for two blocks, a run that ends with the parent asleep over a queued block and nothing to wake it |
| ParentWakeup.SleepsExactlyOnOverlap | src/net.c:491-534 | over all runs on the byte-level ring, the parent is never asleep over work if and only if no read that ends the draining of the pipe finds an announced block still queued |
| ParentWakeup.ParentCatchesUp | src/net.c:491-534 | a parent that wakes up and is then left alone pops all there is and waits again, its pipe read dry |
| ParentWakeup.StepSleeps | src/net.c:645-647 | a single step puts the parent to sleep over work exactly if it is such a read |
| Sessions.SeqCountsGenerations | src/net.c:194-197 | the sequence counter gives the n-th connection the id of generation n, never 0 |
| Sessions.IdsDistinct | src/net.c:194-197 | any 2^32 - 1 consecutive ids are distinct |
| Sessions.MatchIsExact | src/net.c:427-436 | within that window, a worker's block matches exactly the connection it was made for, of the worker it came from |
| Sessions.StepKeeps | src/net.c:210-272 | every step of the parent or a worker keeps the protocol invariant over all queues, tables and byte streams, a lost CLOSE included if its worker had closed the connection |
| Sessions.SessionsAgree | src/service.c:62-128 | in every run, an OPEN a worker takes finds no session, and DATA or CLOSE finds none or the one with its own id |
| Sessions.StaleBlocksAreDropped | src/net.c:422-436 | in every run, a FIN or DATA block matches a connection if and only if its own connection is still there, and then it comes from the worker serving it |
| Sessions.RepliesArriveInOrder | src/net_if.c:119-206 | in every run, bytes taken by the socket, buffered, and queued for a connection are together exactly the bytes its worker had accepted into sendq |
| Sessions.PacketsArriveInOrder | src/service.c:91-113 | in every run, packets the plugin saw are a prefix of those framed for the connection, and while the session lives the rest is queued |
| Sessions.SessionsServe | src/service.c:91-99 | a session on an open connection is of the worker that serves it |
| Sessions.ClosingIsForgotten | src/net.c:438-441 | a connection on the close queue has no session left in its worker, now or after the queued blocks |
| Sessions.LostCloseExact | src/net.c:217-232 | along a run and all that may follow it, every block finds no session or its own if and only if each connection dropped with its CLOSE refused had been closed by its worker before |
| Sessions.LossDisagrees | src/net.c:217-232 | from every reachable state, any other lost CLOSE leads to an OPEN that meets a live session |
| Sessions.LostCloseHappens | src/net.c:217-264 | a run in which a packet of the second user of an fd reaches the session of the first |
| Sessions.DeathWithLostClose | src/net_if.c:124-140 | a failed write whose CLOSE is refused is one of the runs considered |
| Sessions.AnySplitIsAWrite | src/net_if.c:119-180 | every outcome of a send that keeps all bytes in order is one the protocol's runs consider |
| SessionLaws.BlockTakesEffect | src/net.c:422-446 | a block of a connection that is gone changes no connection; a FIN puts its own on the close queue; a reply's bytes go to the socket or wait behind those waiting, or the connection ends |
| SessionLaws.ClosedByWorkerCloses | src/net_if.c:208-224 | in every run, a connection its worker has closed with the FIN accepted is gone, on the close queue, or its FIN is still queued |
| SessionLaws.ClientGetsWhatWasSaid | src/net_if.c:119-206 | in every run, bytes sent, buffered and queued for an open connection are exactly those its worker sent on that session, in order |
| SessionLaws.ComeAndGo | src/net.c:210-272 | exactly which connections each step ends and begins, and how generations count |
| SessionLaws.OthersStay | src/net.c:274-296 | a connection that goes on changes by EPOLLOUT or by a block only |
| SessionLaws.RingsGet | src/net.c:210-272 | exactly which block each step puts on which worker's ring |
| SessionLaws.SessionsMove | src/service.c:62-89 | a worker's sessions change by OPEN, CLOSE and its own closes only |
| SessionLaws.WorkersQueue | src/net_if.c:182-224 | a worker queues replies under their session's id and a FIN when it closes, and nothing else |
| SessionLaws.PluginSees | src/service.c:91-113 | the plugin sees a packet exactly when it is taken and its fd has a session |
| ChildCalls.Child.HandleOpen | src/service.c:62-77 | a session is added exactly if the fd has none and the block has the right length |
| ChildCalls.Child.HandleClose | src/service.c:79-89 | the session is removed; the counter drops even if there was none |
| ChildCalls.Child.CloseClientConn | src/net_if.c:208-224 | session removed and FIN queued with the session's id; nothing for an unknown fd |
| ChildCalls.Child.SendBlockTo | src/net_if.c:182-206 | a block with the session's id goes last on the send queue |
| ChildCalls.Child.HandleProcess | src/service.c:91-99 | whatever the plugin calls, on any session, takes effect in order, then its verdict |
| ChildCalls.Child.TakeOne | src/service.c:107-127 | one turn does what the protocol's step does, then what the plugin does with the block |
| ChildCalls.Child.HandleRecvQueue | src/service.c:101-128 | the loop takes every queued block, the plugin reacting to each as it likes; the counter falls behind the table size by exactly the number of CLOSE blocks that met no session |
| ChildCalls.TurnIsARun | src/service.c:91-127 | a turn is the protocol's step on the block followed by exactly the plugin's calls that can still be met, in order, and its verdict |
| ChildCalls.LoopIsARun | src/service.c:101-128 | the whole loop of one worker is the run made of those turns, so all theorems about runs hold across it |
| Inbound.GreedyResumes | src/net.c:357-395 | for a prefix-stable plugin, cutting packets may be interrupted anywhere and resumed on the rest |
| Inbound.LoopIsGreedy | src/net.c:357-395 | the parse loop, with its cached length, cuts exactly what the greedy cut does, pushes only what a page holds with its header, and leaves less than a full buffer |
| Inbound.LoopEnds | src/net.c:357-395 | the loop ends normally if and only if the cut is not bad, the ring takes every packet of it, and the rest leaves room; the process exits if and only if a full buffer of unknown length is all that is wrong; else only the connection goes |
| Inbound.NetRecvEnds | src/net.c:342-405 | so for a read, which also ends the connection at the end of the stream |
| Inbound.ConnectionLives | src/net.c:342-405 | over every run in which the ring has room and nobody else ends the connection, all it has read decides whether it lives, is dropped, or takes the process with it; each packet must fit a page with its header |
| Inbound.BadLengthNeverExits | src/net.c:362-370 | over every run, a bad length ends its connection and never the process, which exits only over a full buffer whose length the plugin does not know |
| Inbound.PageSizedPacketKills | src/net.c:378-384 | a packet as long as the page, within the limit the parent sets, ends its connection undelivered |
| Inbound.FramingIsGreedy | src/net.c:298-405 | over all runs and splits into reads, packets delivered and bytes buffered are the greedy cut of the bytes the peer sent and the parent read, every delivered packet fits a page with its header, the cached length is the plugin's answer on the buffer, and the buffer is never full between calls |
| Inbound.InputIsNeverForgotten | src/net.c:298-340 | over all runs, unread bytes of a live connection imply an edge due or reported, or a place on the etin or close queue |
| Inbound.EventsDo | src/net.c:69-98 | arrivals, the peer's close, re-arming, reports, a FIN and a drop change the named fields only |
| Inbound.StepForgets | src/net.c:317-337 | a step that leaves the connection alive forgets the close exactly if it is a read of the last bytes that does not fill the buffer, with the close behind them and no other edge due |
| Inbound.EndOfStreamExact | src/net.c:298-340 | over all runs, the close is never forgotten if no read is of that kind, and while the connection lives only then; once forgotten, no read follows |
| Inbound.EndOfStreamForgotten | src/net.c:323-337 | a run on which the close is missed |
| Inbound.LoopLeavesRoom | src/net.c:362-370 | a parse loop that ends normally leaves less than max bytes |
| Inbound.Connection.DoReadConn | src/net.c:298-340 | nothing changes on a full buffer or a closed peer; else the bytes read are appended in order, and the fd is put on or taken off the etin queue by whether the buffer filled |
| Inbound.Connection.Parse | src/net.c:356-395 | the loop pushes the packets and leaves the rest that the parse function says |
| Inbound.Connection.ParseAndMove | src/net.c:356-402 | and the rest ends up at the front of the buffer |
| Inbound.Connection.NetRecvCall | src/net.c:342-405 | the call in place does exactly one read step of the runs, with its return code |
| EndToEnd.StepKeeps | src/net.c:342-405 | every step of the joined system keeps: what was framed for an open connection, with what is still to be pushed, is what its socket delivered |
| EndToEnd.RunProjects | src/net.c:342-405 | the protocol's part of every joint run is a run of the protocol, so its theorems hold there |
| EndToEnd.CallGoesOn | src/net.c:357-404 | a net_recv in progress can always push its next packet or return |
| EndToEnd.PluginsSeeTheStream | src/service.c:91-113 | over all joint runs, what a plugin saw of a connection is a prefix of the greedy cut of the bytes its peer sent; while the session lives, all that was read is seen or queued |
| EndToEnd.ExitHasAReason | src/net.c:366-370 | the parent exits only over a connection whose full buffer the plugin cannot make sense of |
| EndToEnd.ClosingIsNotPolled | src/net.c:90-98 | a connection on the close queue is off the etin queue |
| EndToEnd.GoneIsDead | src/net.c:210-233 | a connection that is gone has no living socket |
| Outbound.SafeTcpSendN | src/tcp.c:89-109 | the bytes taken are the first ones, as many as the short counts add up to before the first EAGAIN or hard error, interruptions aside; -1 if and only if a hard error comes before all is taken |
| Outbound.Sender.DoWriteConn | src/net.c:274-296 | bytes move from the front of the buffer to the socket, none lost or repeated |
| Outbound.Sender.Buffer | src/net_if.c:144-165 | new bytes go behind those waiting, and always fit the buffer |
| Outbound.Sender.SendOrKeep | src/net_if.c:132-180 | new data is offered to the socket only if nothing waits in front of it |
| Outbound.Sender.Keep | src/net_if.c:142-180 | when EPOLLOUT is armed, disarmed or left alone |
| Outbound.Sender.NetSend | src/net_if.c:119-180 | while the connection lives, sent plus waiting bytes grow by exactly the data; it dies exactly on a hard error; EPOLLOUT is armed if and only if bytes wait, except exactly when nothing waited before and the socket leaves more than the limit |
| Outbound.Sender.EventOut | src/net.c:588-595 | an EPOLLOUT event keeps all bytes and disarms exactly when none wait, or kills the connection after a hard error |
| Outbound.ArmedExact | src/net_if.c:119-180 | over any sequence of sends and events, EPOLLOUT is armed if and only if bytes wait that have not been waiting since a send which found none waiting and left more than the limit |
| Outbound.JamHappens | src/net_if.c:165-175 | such a send |
| Outbound.EventsLeaveAJam | src/net.c:588-595 | no event ever moves those bytes |
| Outbound.Serve | src/net_if.c:119-180 | the calls in place end exactly as the rules say, alive or dead, for every limit, with no byte lost, repeated or reordered while alive |
| Outbound.SendPkgToClient | src/net_if.c:182-206 | full blocks and a last one spell out a prefix of the package, all of it exactly if the call succeeds |
| IntrusiveList.PushTailRing | src/List.h:20-38 | pushing a node keeps a well-formed circular list, with the node last, and touches no other list |
| IntrusiveList.DelInitRing | src/List.h:41-59 | unlinking a member keeps a well-formed circular list of the others |
| FdTable.Table.constructor | src/net.c:450-472 | two empty queues, no fd in use |
| FdTable.Table.ListPushTail | src/List.h:35-38 | the pointer writes of list_push_tail |
| FdTable.Table.ListDelInit | src/List.h:55-59 | the pointer writes of list_del_init |
| FdTable.Table.AddToEtin | src/net.c:79-86 | the fd goes last on the etin queue unless it is on a queue |
| FdTable.Table.DelFromEtin | src/net.c:69-76 | the fd leaves the etin queue, the others keep their order |
| FdTable.Table.DelFromClose | src/net.c:61-67 | the fd leaves the close queue, the others keep their order |
| FdTable.Table.AddToClose | src/net.c:90-98 | the fd moves from the etin queue to the close queue; never on both |
| FdTable.Table.AddConn | src/net.c:166-208 | a fresh record on no queue with the next id of the sequence, never 0; count and maxfd updated |
| FdTable.Table.HighestBelow | src/net.c:235-240 | the highest used fd below, or -1 |
| FdTable.Table.DelConn | src/net.c:210-244 | the fd is unused, off both queues and out of count and maxfd; in mode 1 its worker is sent a CLOSE with its id; every other record is unchanged |
| FdTable.Table.SweepTimeout | src/net.c:602-611 | exactly the expired clients are dropped, although the bound shrinks during the sweep, and their workers told in fd order |
| FdTable.Table.SweepCrashed | src/net.c:631-636 | exactly the crashed worker's fds other than listeners are dropped, with a CLOSE for each |
| FdTable.Table.IterateClose | src/net.c:101-113 | visits exactly the fds queued at its start, in order, and frees each without a CLOSE |
| FdTable.Table.AcceptOne | src/net.c:246-264 | a new record, freed again without a CLOSE if its OPEN was refused |
| FdTable.Table.AcceptAll | src/net.c:246-272 | accepting connections leaves both queues and every used record alone |
| FdTable.AcceptsExact | src/net.c:246-272 | every connection accepted becomes a client of its own, with the next id in the order of arrival, and nothing else changes |
| FdTable.Table.VisitOne | src/net.c:120-128 | a visit either leaves the etin queue alone or removes just the visited fd; a listener's accepts each connection offered, a client that failed is dropped with a CLOSE, and nothing else changes |
| FdTable.Table.IterateEtin | src/net.c:115-129 | visits exactly the fds queued at its start, each once and in order, and keeps queued exactly those not drained or dropped; the table is what the visits make of it one after the other, and the clients that failed are reported in order |
| Dictionary.DictionaryHash | iniparser/src/dictionary.c:88-104 | the loop computes the 32-bit hash of the key |
| Dictionary.HasEmpty | iniparser/src/dictionary.c:263-268 | a table with fewer entries than slots has a free slot |
| Dictionary.MemDouble | iniparser/src/dictionary.c:38-49 | twice the room, old contents first, the rest zero |
| Dictionary.Dict.constructor | iniparser/src/dictionary.c:117-132 | an empty table of at least 128 slots |
| Dictionary.Dict.Find | iniparser/src/dictionary.c:181-191 | the hash filter never hides a key: a slot of the key, or proof that it is absent |
| Dictionary.Dict.Get | iniparser/src/dictionary.c:175-193 | the map's value, NULL included, or the default |
| Dictionary.Dict.Grow | iniparser/src/dictionary.c:249-261 | doubling changes neither the map nor the slots in use |
| Dictionary.Dict.Probe | iniparser/src/dictionary.c:263-268 | the wrapping probe terminates in a free slot, the next one if there are no holes |
| Dictionary.Dict.Set | iniparser/src/dictionary.c:221-275 | the map with the key set; without holes new keys keep insertion order |
| Dictionary.Dict.Unset | iniparser/src/dictionary.c:288-323 | the map without the key |
| Dictionary.RefinesMap | iniparser/src/dictionary.c:175-323 | any sequence of set, unset and get answers as a finite map would and leaves a table that stands for it; without unset, the slots in use are the keys in order of first set |
| IniText.SectionLine | iniparser/src/iniparser.c:575-580 | a printed section line is read back as that section |
| IniText.EntryLine | iniparser/src/iniparser.c:581-607 | a printed entry with a safe key and value, empty or not, is read back as that entry |
| IniText.CommentCharsExact | iniparser/src/iniparser.c:581-603 | an unquoted stripped value reads back right if and only if it contains neither comment character |
| IniReader.ParseLineReads | iniparser/src/iniparser.c:547-610 | every line, whatever is in it, reads as its first `=`, its quotes and its comment characters say |
| IniReader.QuotedLine | iniparser/src/iniparser.c:581 | what is between quotes is the value, comment characters included; a pair of the other quotes there is empty |
| IniReader.EmptyQuotesLine | iniparser/src/iniparser.c:586-594 | two quotes with nothing between them, alone or before a comment, are the empty value |
| IniReader.CommentedLine | iniparser/src/iniparser.c:583 | a comment character ends an unquoted value, the empty one included |
| IniReader.PlainValueLine | iniparser/src/iniparser.c:583 | any other value reads as it stands, whatever the blanks around `=` |
| IniReader.ErrorExact | iniparser/src/iniparser.c:605-608 | a line that is no comment or section is an error if and only if it has no `=` or nothing before it |
| IniFile.DumpLoadRoundTrip | iniparser/src/iniparser.c:206-268 | loading the dump of an expressible dictionary gives the same map if and only if every key, section included, has at most 1024 characters; otherwise the loader overflows its buffer |
| IniFile.LongKeyOverflows | iniparser/src/iniparser.c:700-704 | an expressible dictionary with one section and one entry on which it does |
| IniLoading.LongLine | iniparser/src/iniparser.c:669-677 | a line of 1023 characters or more is rejected |
| IniLoading.LastLine | iniparser/src/iniparser.c:664-677 | so is a last line without newline, except that a single character is ignored |
| IniLoading.Continuation | iniparser/src/iniparser.c:684-691 | a line that ends with a backslash reads as one with the next |
| IniLoading.ErrorsExact | iniparser/src/iniparser.c:692-725 | a file of whole lines is rejected for syntax if and only if no section or entry follows its last error |
| IniLoading.ErrorAccepted | iniparser/src/iniparser.c:697-712 | a file with an error that loads |
| IniLoading.FlatDumpExact | iniparser/src/iniparser.c:215-223 | a dictionary without sections comes back with a colon before every key and a text for a missing value |
| IniLoading.DumpFormat | iniparser/src/iniparser.c:206-268 | the text of a section with one entry, character by character |
| IniLoading.SectionPrints | iniparser/src/iniparser.c:244-254 | a section is looked up in lower case and printed as it is called |
| IniLoading.NullPrintsEmpty | iniparser/src/iniparser.c:259-263 | an entry without value prints as an empty one |
| IniCalls.Strstrip | iniparser/src/iniparser.c:74-92 | the string without blanks at both ends, for what fits the static buffer |
| IniCalls.Strlwc | iniparser/src/iniparser.c:44-58 | the string in lower case, cut to the buffer |
| IniCalls.GetNSec | iniparser/src/iniparser.c:112-127 | the number of keys without a colon |
| IniCalls.GetSecName | iniparser/src/iniparser.c:143-163 | the n-th of them in slot order, or NULL |
| IniCalls.DumpEntries | iniparser/src/iniparser.c:256-265 | the lines of one section's entries in slot order |
| IniCalls.DumpSectionIni | iniparser/src/iniparser.c:244-268 | the text of one section, empty if it is not there, or the overflow of its buffer exactly for a name of 1024 characters or more |
| IniCalls.DumpFlatIni | iniparser/src/iniparser.c:215-223 | the text of a dictionary without sections |
| IniCalls.DumpIni | iniparser/src/iniparser.c:206-230 | the text of the dictionary; if it is expressible no buffer overflows, and the text loads back as the same map unless a key is too long |
| IniCalls.StoreInto | iniparser/src/iniparser.c:692-716 | one line's effect on section, dictionary and error count; an overflow exactly if section, colon and key exceed 1024 characters |
| IniCalls.LoadLineInto | iniparser/src/iniparser.c:664-717 | one turn of the loop: length check, trimming, continuation, then the line |
| IniCalls.IniLoad | iniparser/src/iniparser.c:629-730 | the dictionary returned stands for the text, NULL exactly when the text is rejected, an overflow exactly when some key does not fit |

## Left out

- Socket setup, accept and connect wrappers, `epoll_ctl`, `mmap`, signals, fork, logging, plugin loading and clocks: foreign calls; their effects are parameters or steps.
- Worker restart: the session protocol is stated for one lifetime of each worker; a restart rebuilds both rings.
- Memory models weaker than sequential consistency, and allocation failure.
- UDP, multicast and asynchronous connects in `net_loop`: they only pass data to the plugin.
- A push of `net_recv` that ends the process (`SharedRing`'s outcome `Exit`): `Inbound` counts it as a refusal.
- `net_recv` in the worker (`is_parent == 0`): only the parent's branch is modelled.
- Other errors of `recv` than EAGAIN: the code treats them alike, and bytes the kernel then discards are not modelled.
- Reading the byte before the line buffer when a line of an INI file is all blank (iniparser.c:685): taken as not a backslash.
- `getint`, `getdouble`, `getboolean`, `getseckeys` and the debugging dumps of iniparser, `src/bindconf.c` and `src/config.c`: each converts or lists values of the dictionary and keeps no state of its own.
- How often a full ring refuses a CLOSE: `Sessions` lets it refuse any.
- Inbound.Connection.NetRecvCall: after -1 or exit only the pushed packets are described, because the connection's buffer is gone.
- The parent's other worker queues and events between draining a queue and reading its pipe: they touch neither.
- Outbound.Sender.Die: does not model `close`, only the buffer and the interest set.
