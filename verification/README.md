# Three servers and their load clients, verified

Three TCP servers answer the same request: four octets that say how long the payload is, the payload, and back
come four octets with the number of bytes received. One server handles one client at a time, one multiplexes
with `poll`, one hands each readable connection to a pool of child processes. Load clients send the requests;
a controller tells the clients what to send and where. This project models all of them and proves what they keep.

| Part | Modules |
|---|---|
| Hand-off between the process server's parent and children, as a transition system over all interleavings | `Protocol`, `Invariant`, `Steps`, `Safety`, `Fairness`, `Schedules`, `Deadlock`, `Waiting` |
| Its refinement of a server that answers whole requests in one step, and that the answer comes | `ClosedLoop`, `Refinement`, `Answering`, `Budget`, `Departed`, `Promptness` |
| The parent's table and loop, in place and as the transition system sees them; a child's whole turn | `Slots`, `ProcessParent`, `SweepLink`, `Iteration`, `ChildTurn` |
| The poll server's tables and event loop as a map | `PollServer` |
| Reading and writing streams in pieces | `Wire` |
| Framing: one specification, three receive loops, one client | `Framing`, `ChunkFraming`, `LoadClient` |
| The controller's commands | `Controller` |
| Counting and network-order integers | `Counting`, `Bytes` |

`NUM_CHILD_PROCESSES` and `MAX_CONNECTIONS` are the arbitrary positive numbers `workers` and `capacity`; the
program sets them to 8 and 5. A connection has an identity of its own beside its descriptor number, which is reused.

## Results worth knowing

- **Deadlock.** The hand-off can lock up for good if and only if there are at least three more connection slots
  than children (`DeadlockBound`), and can come to depend on clients alone if and only if there are at least two
  more (`HostageBound`). As configured neither can happen, and every schedule of the children ends the parent's
  wait within a number of steps read off the state (`EveryScheduleUnblocks`).
- **Answers.** A whole request can be left lying with nothing to be done for it if and only if there are more
  slots than children (`StarvedBound`). As configured, under any load of clients that do not leave, it gets its
  one reply or the server has a step to take, and the server takes no more steps than the state and the bytes
  brought in pay for (`AnsweredUnderLoad`, `EveryRequestAnswered`). That takes that no connection still open
  belongs to a client that has left; wherever the parent polls, its steps are bounded if and only if this is so
  (`BoundedIffPresent`).
- **Header reads.** The poll server and the children read the length with one `recv` that may return fewer than
  four octets, and send the reply with one `send` that may move fewer. A lone request is consumed and counted
  exactly if and only if that read returns all four (`ExactIffHeaderWhole`), and answered in full if and only if
  the send moves all four as well (`ServedIffWhole`); `SplitHeaderGoesWrong` and `ShortSendGoesUnnoticed` are
  requests that go wrong. The one-to-one server asks for `MSG_WAITALL`, repeats its sends and has no such conditions.
- **Payload reads.** The 8-byte loops stop at the end of the payload under every fragmentation if and only if
  the payload is empty or nothing follows it (`StopsIffNothingFollows`), and stay within 7 bytes of it if and
  only if the length is at least 8 below 2^32 (`BoundIffNoWrap`). The one-to-one server has neither
  limit (`PipelinedFrames`).
- **Documentation.** `send_start` and `send_stop` are documented to return -1 on failure
  (client-controller/include/connection.h:14, :26). In the code they return what the last connection's write
  returned (`StartMissesFailure`). The model follows the code.
- **The client's data buffer** is allocated by the size as it came off the wire (client/src/run.c:192): on a
  little-endian host it is too small for the data exactly when `DataFitsIff` says so, as for 2^24 bytes.

## Assumptions about the system underneath

- `poll` reports nothing on a zero or negative descriptor, POLLIN only where asked for and readable, and
  POLLHUP or POLLERR only for a peer that is gone; it sees the pipe readable exactly when it is not empty.
- `accept` returns a positive number that is not open in that process. Closed numbers may come back.
- Semaphores start at the values of process-server/src/setup_teardown.c:114-117 and are atomic. So are `sendmsg`,
  `recvmsg`, and reads and writes of one `int` on the pipe.
- Reads and writes move what a script says, at least one byte for a read. All fragmentations are all scripts.
- In the transition system the reply's one send moves all four octets (`ServedIffWhole` shows that this is needed).
- In the refinement a client asks again only after taking its reply, and the first fragment of a request carries
  its whole header. The second half is what `ExactIffHeaderWhole` shows to be needed.

## Model

| member | source | states |
|---|---|---|
| Steps.InitHolds | process-server/src/setup_teardown.c:105-144 | the freshly created semaphores, empty socket and pipe, idle children and empty table satisfy the joint invariant |
| Steps.StepKeepsInv | process-server/src/process_server.c:283-333 | every step of parent, children and clients keeps the joint invariant of tokens, ownership, pairing, table and parent position |
| Steps.ReachableHasInv | process-server/src/process_server.c:303-330 | the joint invariant holds in every reachable state, for any number of children and slots |
| Steps.PollKeepsInv | process-server/src/process_server.c:303-323 | whatever poll reports within its contract, the branch it leads to starts with the invariant intact |
| Steps.AcceptKeepsInv | process-server/src/process_server.c:357-390 | accepting a possibly reused number keeps the invariant: nobody still holds that number |
| Steps.ReenableKeepsInv | process-server/src/process_server.c:423-429 | re-enabling hands ownership from the parent's hand back to the polled table |
| Steps.ScanRemoveKeepsInv | process-server/src/process_server.c:451-455 | removal in mid-sweep keeps the invariant, with other connections out at children |
| Steps.SendKeepsInv | process-server/src/process_server.c:444-448 | sending before negating keeps the invariant through the window slot |
| Steps.NegateKeepsInv | process-server/src/process_server.c:448-456 | the sign flip closes the window, wherever the message has got to by then |
| Steps.ChildKeepsInv | process-server/src/process_server.c:560-694 | every action of a child keeps the invariant |
| Safety.TokenConservation | process-server/src/process_server.c:494-503 | one token per semaphore group in every reachable state, so socket and pipe hold at most one message, writers find them empty and recvmsg finds exactly one |
| Safety.OwnershipPartition | process-server/src/process_server.c:434-460 | each live connection is in exactly one of: polled, in the socket, with one child, in the pipe, in the parent's hand |
| Safety.HeldIsLive | process-server/src/process_server.c:434-460 | a number in the socket, with a child, in the pipe or in hand is that of exactly one live connection, which is not polled meanwhile |
| Safety.OneReceiver | process-server/src/process_server.c:584-694 | no two children receive from one connection, nor is a connection with a child also queued, notified or in hand |
| Safety.NoStaleCompletion | process-server/src/process_server.c:408-432 | a number read from the pipe flips exactly one slot, and it still names the connection it was dispatched for, under any reuse of numbers |
| Safety.CompletionIsCarried | process-server/src/process_server.c:763-781 | what a child puts in the empty pipe is the number and identity of the connection it received |
| Safety.CloseIsSafe | process-server/src/process_server.c:508-529 | the parent closes only enabled slots, whose connection nobody else holds |
| Safety.SlotAccounting | process-server/src/process_server.c:357-406 | the counter is the number of open connections of either sign, descriptors are distinct, listening is on iff there is room, and the slot search before an accept finds a free one |
| Fairness.StepSlack | process-server/src/process_server.c:303-330 | free slots plus disabled slots drop by one when an iteration takes the accept or pipe branch, rise by one when the sweep disables or frees a slot, and change in no other way |
| Fairness.RunSlack | process-server/src/process_server.c:303-330 | over any run: slack at the end plus bypasses is slack at the start plus refills |
| Fairness.SlackBounds | process-server/src/process_server.c:303-330 | the slack never leaves 0..MAX_CONNECTIONS |
| Fairness.BypassBound | process-server/src/process_server.c:303-330 | at most MAX_CONNECTIONS iterations bypass the client sweep between two refills, whatever children and clients do |
| Fairness.SweepIsNext | process-server/src/process_server.c:323-329 | once the slack is used up the next poll can only lead to the client sweep |
| Deadlock.DeadlockBound | process-server/src/process_server.c:462-506 | a state in which parent and children all wait for each other is reachable iff MAX_CONNECTIONS >= NUM_CHILD_PROCESSES + 3, and with clients that keep to the protocol just the same |
| Deadlock.HostageBound | process-server/src/process_server.c:462-506 | a state in which the parent waits and no child can step without client input is reachable iff MAX_CONNECTIONS >= NUM_CHILD_PROCESSES + 2, and with clients that keep to the protocol just the same |
| Deadlock.StuckRun | process-server/src/process_server.c:763-781 | from a stuck state every run stays stuck and consists of client actions only |
| Deadlock.ParentMovesOtherwise | process-server/src/process_server.c:408-432 | at every other position the parent has a step, and poll returns whenever a completion is in the pipe |
| Deadlock.StuckReachable | process-server/src/process_server.c:494-503 | a run of server and closed-loop clients to the stuck state: one number in the pipe, one message in the socket, all children at the pipe semaphore, one slot in the parent's hand |
| Waiting.BoundedWait | process-server/src/process_server.c:494-497 | while the parent waits, children together take no more steps than ranks and unread bytes add up to, plus bytes that still arrive |
| Waiting.EveryScheduleUnblocks | process-server/src/process_server.c:494-497 | with at most one slot more than children every schedule of children alone ends the parent's wait: it never gets caught and its length is bounded |
| Refinement.MoveRefines | process-server/src/process_server.c:637-694 | each step with closed-loop clients is one step of the atomic server on one session, a new session, or invisible |
| Refinement.RefinesAtomicServer | process-server/src/process_server.c:672-691 | every run with closed-loop clients, seen through its sessions, is a run of a server that answers whole requests in one step with their length; whatever lies on the connection of a client that is there is nothing or its one reply, so no request has a second |
| Refinement.NoSurplus | process-server/src/process_server.c:686-691 | on a connection whose client is there lies nothing, or exactly the four octets it asked for |
| Refinement.ReplyIsService | process-server/src/process_server.c:686-691 | the reply is the one step in which a wholly arrived, unanswered request becomes answered with its length on its own connection |
| Refinement.DispatchIsFresh | process-server/src/process_server.c:442-448 | a connection about to be dispatched carries an unread request that no child serves and no message announces, although children notify before they reply |
| Refinement.NoSecondDispatch | process-server/src/process_server.c:672-691 | over whole runs: what the parent is about to dispatch is an unanswered request that no child is serving, so there is no second dispatch before the reply |
| Refinement.NoClientDropped | process-server/src/process_server.c:451-455 | over whole runs: the parent removes only connections whose client has left |
| Answering.MoveKeepsKept | process-server/src/process_server.c:357-390 | no move of server or clients loses a client: each one that has not left keeps a number in the parent's table |
| Answering.VisitedIsKept | process-server/src/process_server.c:508-529 | over whole runs: a client that has not left is still connected |
| Answering.UnansweredProceeds | process-server/src/process_server.c:303-330 | with no more slots than children, in every world of every run: while a whole request is unanswered some step other than turning to a new client is enabled |
| Answering.StarvedVisited | process-server/src/process_server.c:584-615 | with one slot more than children: a run after which a whole request lies in the socket's connection while every child waits for a slow client |
| Answering.StarvedBound | process-server/src/process_server.c:303-330 | a whole request can be left with no step but turning to new clients iff MAX_CONNECTIONS >= NUM_CHILD_PROCESSES + 1 |
| Budget.ServerSpends | process-server/src/process_server.c:303-330 | as long as no connection still open is a departed client's, every step of parent or child lowers the credit, accepts included |
| Budget.RunSpends | process-server/src/process_server.c:564-579 | however the server is scheduled and whatever clients do but leave, it takes no more steps than the credit of the first state and the bytes brought in |
| Budget.AnsweredUnderLoad | process-server/src/process_server.c:672-691 | with no more slots than children, whatever clients ask and take but leave: a whole request has its one reply, its length, in some world of the run, or it stands at the end, a step other than turning to a new client is enabled, and credit is left |
| Budget.EveryRequestAnswered | process-server/src/process_server.c:672-691 | with clients silent: a whole request has its one reply at the end of the run, or there is a step to take and credit left; so the reply comes within the credit |
| Departed.BoundedIffPresent | process-server/src/process_server.c:442-455 | wherever the parent polls, with no more slots than children: the server's steps while clients are silent are bounded iff no connection still open belongs to a client that has left |
| Departed.LingeringStep | process-server/src/process_server.c:442-456 | with such a connection open, and not about to be removed, there is always a step that leaves it so |
| Departed.DepartedVisited | process-server/src/process_server.c:451-455 | such a world is visited, one client connecting and leaving, and has server runs of every length |
| Promptness.FirstSweepDispatches | process-server/src/process_server.c:303-330 | a readable connection is sent to the children by the first sweep from then on whose poll reports what is readable, at most MAX_CONNECTIONS iterations on the other branches later, whatever others do |
| SweepLink.SweepIsAtomic | process-server/src/process_server.c:434-460 | a sweep interleaved with anything leaves the table, sends the numbers in the order, and closes the descriptors that the sweep routine does in one go; by the flags: POLLHUP or POLLERR removes, readable or not, POLLIN alone dispatches, neither leaves alone |
| Iteration.ListenComesFirst | process-server/src/process_server.c:311-316 | one whole iteration, whatever others do: a client reported at the listen socket is accepted even if the pipe holds a number; accepting is all the parent can do, it happens once, into the first free slot, and nothing is taken from the pipe, sent or closed |
| Iteration.PipeComesSecond | process-server/src/process_server.c:317-322 | otherwise a number in the pipe is taken, exactly the slot that holds its negation is flipped, and nothing is accepted, sent or closed |
| Iteration.ClientsComeLast | process-server/src/process_server.c:323-329 | otherwise every entry is treated by its flags, and nothing is accepted or taken from the pipe |
| ChildTurn.WholeTurn | process-server/src/process_server.c:560-582 | a child's whole turn by its effects, in order: READ, message, WRITE; header and pieces; pipe semaphore, the parent's number, log semaphore and back, the count in four octets on the connection it read |
| ChildTurn.CountsAlike | process-server/src/process_server.c:655-668 | what a child of the transition system counts in a turn is what the receive routine counts on a stream cut where its reads were cut |
| Slots.FreeIndexIsFree | process-server/src/process_server.c:392-406 | while there is room the search returns a free slot, so its default never names a live one |
| Slots.FreeIsFirst | process-server/src/process_server.c:392-406 | the search takes the first free slot, and the first of all when none is free |
| Slots.SweepTreats | process-server/src/process_server.c:439-457 | by the flags poll set: hung up or in error, an entry is freed, closed and not sent, readable or not; readable alone it is sent, disabled and kept; otherwise it stays; entries not reached are untouched |
| Slots.AcceptKeeps | process-server/src/process_server.c:374-383 | accepting adds exactly the new descriptor and keeps counter, events, distinctness and listen switch in agreement |
| Slots.RemoveKeeps | process-server/src/process_server.c:519-528 | removing takes exactly that descriptor out and turns listening on |
| Slots.ReenableIsOneFlip | process-server/src/process_server.c:423-429 | over distinct descriptors the loop through all slots flips one |
| Slots.NegateReenable | process-server/src/process_server.c:448-456 | negating and re-enabling a slot give the table back |
| Slots.LiveIsOpen | process-server/src/process_server.c:377-383 | as many descriptors as occupied slots |
| ProcessParent.Parent.constructor | process-server/src/setup_teardown.c:198-256 | nobody connected, listening on, all four views in agreement; listen socket and pipe in the first two entries, asking for input |
| ProcessParent.Parent.GetPollfdIndex | process-server/src/process_server.c:392-406 | the index of the first free entry, 2 when there is none |
| ProcessParent.Parent.AcceptNewConnection | process-server/src/process_server.c:357-390 | the whole new table, addresses, counter and listen switch, in a slot that was free; nothing changes when accept fails |
| ProcessParent.Parent.ReadPipeReenableFd | process-server/src/process_server.c:408-432 | the semaphore is posted even when the read fails; the table becomes the re-enabled one |
| ProcessParent.Parent.RemoveConnection | process-server/src/process_server.c:508-529 | entry and address cleared, counter down, that descriptor closed, listening on |
| ProcessParent.Parent.SendToChild | process-server/src/process_server.c:462-506 | what is sent, taken from WRITE and posted to READ in each outcome: delivered; -1 with the token gone when sendmsg fails; -1 when the wait fails; 0 with nothing sent when it is interrupted |
| ProcessParent.Parent.VisitEntry | process-server/src/process_server.c:441-456 | one turn of the sweep: dispatched and negated, removed with its address, or revents reset; -1 leaves the table alone |
| ProcessParent.Parent.HandleSocketAction | process-server/src/process_server.c:434-460 | every entry treated by its flags, with its address, complete or up to the first dispatch that fails; the numbers delivered in order, the semaphores' use and the descriptors closed; the first two entries kept |
| ProcessParent.AllDelivered | process-server/src/process_server.c:494-506 | without interruptions what is delivered is what the sweep dispatches |
| ProcessParent.Parent.PollIteration | process-server/src/process_server.c:303-330 | listen socket before pipe before clients, by their flags; each branch's whole effect; poll writes nothing but revents into the first two entries |
| ProcessParent.Parent.RunPollLoop | process-server/src/process_server.c:303-332 | over any script of iterations table and open descriptors go through the states of the simple form, -1 exactly if one fails; listen socket and pipe stay in their entries and the pipe asks for input all along |
| PollServer.Server.constructor | poll-server/src/poll_server.c:184-211 | the empty book, with the listen socket that was given |
| PollServer.Server.Size | poll-server/src/poll_server.c:296-301 | the counter is the size of the book and at most MAX_CONNECTIONS; listening is on iff there is room; descriptors in the book are positive |
| PollServer.Server.GetConnIndex | poll-server/src/poll_server.c:310-323 | the first free slot, 0 when there is none |
| PollServer.Server.PollAccept | poll-server/src/poll_server.c:277-308 | the three tables, counter and switch go on listing one book, with the new descriptor and address inserted; unchanged when accept fails |
| PollServer.Server.RemoveConnection | poll-server/src/poll_server.c:453-476 | the book loses exactly that descriptor |
| PollServer.Server.VisitEntry | poll-server/src/poll_server.c:332-346 | one turn of the sweep on tables, book and services |
| PollServer.Server.PollComm | poll-server/src/poll_server.c:325-350 | every entry treated by its flags: hung up or in error it is deleted and not served, readable or not; readable alone it is served and kept; otherwise it stays; complete or up to the first entry on which communication fails |
| PollServer.Server.PollRound | poll-server/src/poll_server.c:230-249 | one iteration does to the book what the abstract round does and serves each descriptor once iff it is in the book and just readable; it returns -1 exactly where the abstract round breaks off, and then has served no other and lost none that has not hung up |
| PollServer.Server.ExecutePoll | poll-server/src/poll_server.c:213-253 | over any run, up to the first round that breaks off: the book is the abstract server's, in every state on the way within capacity, and each descriptor is served as often as the abstract server serves it; -1 exactly when some round breaks off, with what that one leaves |
| PollServer.InsertBook | poll-server/src/poll_server.c:293-301 | the table update of an accept is insertion into the book |
| PollServer.DeleteBook | poll-server/src/poll_server.c:467-475 | the table update of a removal is deletion from the book |
| PollServer.ClosedIsHungUp | poll-server/src/poll_server.c:340-345 | the sweep over slots closes just the descriptors of the book that hung up |
| PollServer.SentIsReady | poll-server/src/poll_server.c:333-339 | the sweep over slots serves each readable descriptor of the book once and nothing else |
| PollServer.ReportsByFlags | poll-server/src/poll_server.c:333-345 | the abstract round by the flags: POLLHUP or POLLERR removes a descriptor, readable or not; POLLIN alone serves it |
| PollServer.SweepRound | poll-server/src/poll_server.c:325-350 | the sweep over slots, complete or broken off, against the round on the book |
| Wire.WriteFully | client-controller/src/util.c:12-25 | the loop ends and moves what the fragmentation-free description says |
| Wire.Written | client/src/util.c:12-26 | all data goes out in order under any short writes, or a write failed; no faults, no failure |
| Wire.FailedLeavesPrefix | client/src/util.c:12-26 | after a failure a proper first part of the data is on the stream |
| Wire.WrittenUses | client/src/util.c:12-26 | write_fully fails exactly if a write does: the last entry of the script it used is a failure or an interruption |
| Wire.ReadFully | client/src/util.c:28-42 | the buffer's first `size` places are the stream's next bytes, the rest is untouched; without faults it succeeds iff that many bytes come; on any link it fails exactly if a read does, and hangs only on an exhausted stream |
| Wire.ReadEach | client/src/util.c:28-42 | reads of given sizes cut the stream into consecutive blocks of those sizes |
| Wire.EachArrives | client-controller/src/util.c:12-25 | a sequence of writes without failure puts the blocks on the stream in order, without gaps |
| Wire.WriteEach | client-controller/src/util.c:12-25 | block after block through write_fully, each attempted whatever became of those before it |
| Wire.LoopsCompose | client/src/util.c:12-42 | a method that writes any blocks with write_fully and reads them back with read_fully in the same sizes: under any schedules of short writes and short reads it ends with the same blocks and nothing left |
| Framing.ReceiveMessage | one-to-one/src/one_to_one.c:163-221 | without faults the outcome, consumption and reply of the specification in every fragmentation, the counter never below zero; on any link an interrupted read is a termination, a failing read or send an error, closed the end of the stream or a send of nothing, and success just what the specification says |
| Framing.ReceivePayload | one-to-one/src/one_to_one.c:186-199 | exactly the announced bytes, or closed or waiting where the stream is shorter; on any link the result is explained by the last read |
| Framing.SendReply | one-to-one/src/one_to_one.c:209-218 | all four octets under any short sends that make progress; otherwise a first part of them, closed on a send of nothing and an error on a failing one |
| Framing.HandleClient | one-to-one/src/one_to_one.c:244-259 | without faults the whole stream is served as the specification says, and the loop ends; on any link what is sent is a first part of those replies in order, and the result is an error, a termination or success exactly as the last call used says |
| Framing.OneExplanation | one-to-one/src/one_to_one.c:171-218 | the scripts used and the end of the stream decide the result: no two results but success are explained alike |
| Framing.OneFrame | one-to-one/src/one_to_one.c:163-221 | one frame consumes 4 + n bytes and is answered with n, whatever follows |
| Framing.FrameOctets | client/src/handle.c:55-64 | a frame's first four octets spell the length, high one first, and the payload follows |
| Framing.PipelinedFrames | one-to-one/src/one_to_one.c:244-259 | k frames in a row are consumed entirely and answered with their k lengths in order |
| Framing.CountsOctets | one-to-one/src/one_to_one.c:206-218 | the k-th four octets replied spell the k-th length, high one first |
| ChunkFraming.DrainLoop | process-server/src/process_server.c:655-668 | the 8-byte loop with its 32-bit count computes `Drain` and ends while reads make progress |
| ChunkFraming.PollRecvAndLog | poll-server/src/poll_server.c:352-411 | reception and reply as described by `PollReception`, errors included |
| ChunkFraming.ChildReceiveRespond | process-server/src/process_server.c:637-694 | reception and reply as described by `ChildReception`, errors included |
| ChunkFraming.DrainBound | poll-server/src/poll_server.c:383-395 | every normal exit has enough bytes or the end of stream, the count is what was consumed, and it exceeds the request by at most 7 |
| ChunkFraming.BoundIffNoWrap | process-server/src/process_server.c:656-668 | the bound of one chunk's overrun holds on all streams iff the length is at least 8 below 2^32 |
| ChunkFraming.DrainExact | process-server/src/process_server.c:659-668 | with only this payload on the stream every fragmentation ends with exactly its bytes, for every length below 2^32 |
| ChunkFraming.ReceptionUses | poll-server/src/poll_server.c:367-395 | a reception ends normally only over reads that all worked, waits only on an open stream, and breaks off only at a fault |
| ChunkFraming.ExactIffHeaderWhole | process-server/src/process_server.c:704-710 | a lone request is consumed exactly and counted right iff the header read returned four octets |
| ChunkFraming.SplitHeaderGoesWrong | process-server/src/process_server.c:704-710 | a request, its fragmentation and the wrong count it is answered with |
| ChunkFraming.ReplyIsOneSend | process-server/src/process_server.c:686-691 | as many octets of the reply are out as the one send moved, and only a fault is noticed |
| ChunkFraming.ServedIffWhole | process-server/src/process_server.c:687-691 | a lone request is consumed, counted and answered with all four octets of its length iff the header read and the reply's send each moved all four octets |
| ChunkFraming.ShortSendGoesUnnoticed | poll-server/src/poll_server.c:403-408 | a short send of the reply that the server takes for success |
| ChunkFraming.PollAndChildAgree | poll-server/src/poll_server.c:367-395 | poll server and child receive alike on every fault-free stream, though their loops start differently |
| ChunkFraming.ThreeServersAgree | poll-server/src/poll_server.c:367-404 | on a request whose header arrives whole, under any fragmentation and short sends, all three servers consume it exactly and answer with the octets of its length: one with all four, two with as many as one send moves |
| ChunkFraming.StopsIffNothingFollows | poll-server/src/poll_server.c:386-395 | the payload loop stops at the end of its request in all fragmentations iff the payload is empty or nothing follows |
| LoadClient.Cycle | client/src/handle.c:25-91 | one frame goes out, and the result is the number that the next four octets spell, high one first |
| LoadClient.Request | client/src/handle.c:55-64 | the frame goes out, size first |
| LoadClient.Response | client/src/handle.c:66-71 | the next four octets, as the number they spell, high one first |
| LoadClient.Answer | client/src/handle.c:55-71 | each server's own routine answers the client's frame with the four octets of its length |
| LoadClient.Exchanged | client/src/handle.c:55-71 | client and server routines run against each other's streams: with each of the three servers `server_resp` ends up equal to `data_size` |
| Controller.Connections.SendStart | client-controller/src/connection.c:11-22 | START is attempted on every connection and `started` is set; the result is that of the last write |
| Controller.Connections.SendStop | client-controller/src/connection.c:24-35 | STOP is attempted on every connection and `started` is cleared; the result is that of the last write |
| Controller.CommandOctets | client-controller/src/connection.c:8-9 | START goes out as the octets 0, 1 and STOP as 0, 2 |
| Controller.EncodedOctets | client-controller/src/connection.c:41-63 | a job's octets: port, size of the IP with its zero, IP, size of the data, data; each number high octet first |
| Controller.StartMissesFailure | client-controller/src/connection.c:11-22 | two connections, a START that the first does not get and the second gets as 0, 1, and result 0 |
| Controller.Connections.SendData | client-controller/src/connection.c:37-65 | all five fields are attempted on every connection whatever failed elsewhere; -1 iff some write failed |
| Controller.EveryIntactConnectionIsServed | client-controller/src/connection.c:37-65 | a connection with no failed write of its own receives the full encoding |
| Controller.ToldScript | client-controller/src/connection.c:11-65 | send_start, send_data and send_stop together emit the script of any number of jobs, under any short writes |
| Controller.ScriptOctets | client-controller/src/connection.c:8-35 | a conversation begins 0, 1 if it has a job and ends 0, 2 |
| Controller.ParseEncoded | client/src/run.c:173-197 | decoding an encoded job gives its port, IP string, length and data, and leaves what follows |
| Controller.ParseByOctets | client/src/run.c:153-170 | a stream decodes to START only if it begins 0, 1, with the port that the next two octets spell; to STOP exactly if 0, 2; any other pair is unknown |
| Controller.EncodedParse | client/src/run.c:148-197 | whatever decodes to START was its encoding: no other bytes decode to it |
| Controller.Client.ReadData | client/src/run.c:173-197 | the fields read in pieces are the fields parsed at once, and the data buffer has the size that the undecoded octets spell; on any link success means just that, and an error comes exactly from a read that fails |
| Controller.DataFitsIff | client/src/run.c:189-194 | the buffer allocated by the undecoded length holds the data on a big-endian host always, on a little-endian one iff the length's octets do not spell less from the end |
| Controller.DataDoesNotFit | client/src/run.c:192-194 | a length of 2^24 for which one byte is allocated |
| Controller.IpFitsIff | client/src/run.c:181-187 | size + 1 in 32 bits is enough for the IP and its terminator iff the size is not 2^32 - 1 |
| Controller.Client.HandleController | client/src/run.c:148-171 | one command in any fragmentation: its settings, its verdict and whether threads start; on any link a normal result means that command was there whole, and an error a failing read, an unknown command or threads that do not start |
| Controller.Client.RunController | client/src/run.c:106-138 | in any fragmentation threads are started with the settings that the stream spells, in order, and the loop ends as it should; on any link with a first part of them, and all if it ends normally |
| Controller.ScriptRoundTrip | client/src/run.c:106-197 | for any number of jobs the client runs exactly those jobs and ends normally, with no byte of what follows taken |
| Controller.Conversation | client-controller/src/connection.c:11-65 | from the controller's writes to the client's threads: exactly the jobs, nothing left over |
| Controller.OnlyWholeJobs | client/src/run.c:173-197 | a conversation cut short inside a job runs the jobs before it and no part of that one |
| Bytes.Be32RoundTrip | client/src/handle.c:55-71 | network order and back is the identity on 32-bit lengths |
| Bytes.Be32Injective | client/src/run.c:181-190 | four octets are determined by the number they spell |
| Bytes.Octets | client/src/handle.c:55-71 | htons and htonl put the high octet first |
| Bytes.AllOnes | client/src/run.c:179-189 | the largest two- and four-octet numbers are 65535 and 4294967295 |

## Left out

- Signals: in the transition system an interrupted `sem_wait` does not occur; its handler also ends the loops, and the runs modelled go up to then. `ProcessParent.Parent.SendToChild` says what the interrupted call itself does.
- System-call failures and dying children in the transition system: they end the loops and may strand a token. The parent's routines and the receive loops do model them.
- AnsweredUnderLoad: no client leaves during the run, and at its start no connection still open is a departed client's; `BoundedIffPresent` shows that the second is needed.
- HandleClient: `check_fd`'s select and its shutdown flag appear only as an interrupted read.
- DrainBound: requires the length to be at least 8 below 2^32, which `BoundIffNoWrap` shows to be exact.
- SendReply: a send of nothing ends the message as closed, as in the code.
- ChildReceiveRespond: the log entry and the notification between reception and reply are steps of `Protocol`, not of this method.
- PollServer.Server.VisitEntry: whether communication on the entry fails is a parameter, and a request served is an entry in a log; what is received and sent is `PollRecvAndLog`.
- PollComm: as VisitEntry, with the set of descriptors on which communication fails as the parameter.
- Header value after end of stream in the poll server and the children: it is whatever the variable held; only the count 0 is claimed.
- ReadData: stores the data whole; what the program does where `DataFitsIff` or `IpFitsIff` says that a buffer is too small is not modelled.
- ReadFully: at end of stream the loop never ends, which the model reports as `Hung`; termination is claimed for reads that make progress.
- RunController: poll's timeouts, and `&&` where a bit test of revents is meant; the model handles the next command when there is one.
- HandleController: a failure of thread creation is a parameter, threads themselves are not modelled.
- Memory: buffers of the 8-byte loops are not modelled byte by byte, only how many bytes reach them.
- The transition system works on values; `ProcessParent` is the parent in place. They share the table functions of `Slots`; `SweepLink` and `Iteration` say of the interleaved iteration what the routines' contracts say of theirs.
- Helper methods without a counterpart in the code (`VisitEntry`, `PollRound`, `Iterate`, `ReceivePayload`, `SendReply`, `ReceiveAndReply`, `SendFields`, `Request`, `Response`) are parts cut out of their functions.
- In the transition system a `recv` returns all that is there up to what was asked; arbitrary splits come from how client bytes are delivered.
- Sockets, bind, listen, fork, pipes, semaphore creation, `getpeername`, printing, timestamps and the log file's contents: calls into the system.
- Teardown, the server lifecycle switch, option parsing, the controller's own accept loop and the CSV logger are not modelled.
