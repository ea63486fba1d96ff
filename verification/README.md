# A verified model of the BG96 driver

This Dafny project models three stateful parts of the Mbed OS driver for the Quectel BG96
modem and proves what they keep over whole runs. `dafny verify dfyconfig.toml` checks all of it.

**The socket engine** (`Modem`, `Engine`, `Driver`, `System`, `Transmit`, `Receive`, `Timeouts`,
`Polling`, `Layout`, `Notices`, `Results`, `Listeners`, `Machine`, `Drain`, `Refinement`). `BG96Interface` has five socket slots. An
application thread and an event-queue thread share them under one lock; sends go out in
1500-byte chunks, reads are polled with a timeout counter, and a bounded counter keeps the
queue alive.
`Driver.dfy` is the class with its arrays, updated in place; each method is proved against the
slot functions of `Engine.dfy`, and `Refinement.Perform` proves that the class carries out
the transition system of `System.dfy`, whose runs interleave API calls, modem activity and
passes of `g_eq_event` freely. `Machine.dfy` splits the two threads into steps around the
lock, the failing `trylock` and every access to `scheduled_events`.

**The MQTT subscriptions** (`Topics`, `Registry`): the topic matcher, which truncates character
buffers in place, the singly linked list on the heap, and the task that looks up handlers.

**Files** (`Files`): the byte loops of upload and download with their 16-bit index, replacing a
file, and the round trip.

## Assumptions

- The modem and its parser are parameters: every call is given the answers it will get, and
  results hold for all of them. A poll hands over at most the bytes asked for; bytes of a poll
  whose closing OK is missing, and bytes `BG96::open` reads and throws away, are counted as lost.
  An upload opens for a new name only.
- `socket_connect` returns only if the reads that follow a successful open end with one that
  returns 0; a failing read keeps them going.
- A transmit buffer is not changed during its transfer, nor a receive buffer while the driver may
  still write to it, which on a slot that has listened is also after `socket_close`; each socket
  has its own receive buffers and one application thread at a time.
- Call-backs do not call back into the driver. `_eq_schedule` is one atomic step and `call_in`
  succeeds. What happens without the lock (open, listen, attach, connect) does not come
  in the middle of one pass over the slots.
- The error codes of `nsapi_types.h`, which is not part of this model, have their Mbed OS values.
- The modem ids `m_tx_socketID` and `m_rx_socketID`, always the slot's own number where they are
  used, are not stored; `stream`, `wire` and the like start anew at `socket_open`.

## Where the code departs from its comments

The model follows the code. In each case there is a lemma with the input that shows it, or the
exact condition under which the promise holds.

- `BG96::send` is documented to be true on success; it is true when the command or the write
  fails (`Modem.SendIsRightExactlyWhenHonest`, `Transmit.AirExactlyWhenHonest`).
- `socket_send` returns a `uint32_t` total as `int`: right up to 2147483647
  (`Transmit.ReportedValue`, `Transmit.Conservation`).
- `goSlow` is carried from one slot to the next within a pass, so a listening socket can time out
  another socket's read (`Polling.CountKeptExactlyWhenNotSlow`, `Receive.ReadsTimeOutExactly`,
  `Listeners.AnOrdinaryReadTimesOutEarly`).
- A socket with `m_rx_disTO` is polled in every state. Data that comes before the last data was
  fetched is counted on top of it, past the end of the buffer if need be, and stored over it
  (`Listeners.SecondDataLiesOverTheFirst`, `Listeners.TheFirstByteIsLost`). Neither `socket_close`
  nor `socket_open` clears the flag, so on a reused slot bytes are read into the old buffer before
  anybody asks (`Listeners.AReusedSlotReadsUnasked`), and the old call-back is made
  (`Notices.ReceiveCallBacks`). Reads are laid out as the stream, whatever
  it brings, exactly in the runs without such a poll that brings data or writes over what was not
  fetched (`Layout.LaidOutExactly`); a slot that never listens has none.
- `socket_connect` takes a success of its third attempt for a failure
  (`Driver.BG96Interface.SocketConnect`).
- `findSubscriptionByTopic` answers with the last node when nothing matches, so a second
  topic is never subscribed, a stray message runs the last handler, and a stray unsubscribe gives up
  the last subscription (`Registry.FoundExactly`, `Registry.SubscribeIsLostExactlyWhen`,
  `Registry.StrayMessageRunsTheLastHandler`, `Registry.UnsubscribeAsksForThePath`).
- `subscribe` leaves `next` as `malloc` gave it; the list is one exactly if that was NULL, or if
  nothing was appended (`Registry.BG96MQTTClient.Subscribe`).
- On a topic without '/', as `temperature`, the loops of `matchTopic` leave their buffer at its
  front, and the rewriting of a received topic writes through a NULL pointer
  (`Topics.WalkStaysInsideExactly`, `Topics.ATopicOfOneLevelIsWalkedOff`, `Topics.Rewrite`). Such a
  topic is taken into an empty list, and then no lookup stays inside
  (`Registry.OneLevelTopicSpoilsLookups`).
- `matchTopic` accepts a filter's topics one level down only (`Topics.MatchIsMqttOneLevelDown`).
- The upload loops never end for more than 65535 bytes (`Files.UploadLoopEndsExactly`);
  `send_file` reports success whatever size the modem stored (`Files.BG96.SendFile`).

## Model

| member | source | states |
|---|---|---|
| Modem.Send | BG96/BG96.cpp:670-687 | the answer agrees with the modem having taken the chunk exactly on the branches named honest: the command went through, and the prompt was followed by a write, or neither prompt nor confirmation came |
| Modem.Recv | BG96/BG96.cpp:732-754 | a count is returned for a header that is empty or closed by OK, a negative one as it is; DEVICE_ERROR exactly when there was no header, a missing OK, or that very count |
| Modem.PollsToldApart | BG96Interface.cpp:915-930 | a poll fails on the error code alone, whatever brought it; any other count that is not positive counts as nothing there |
| Modem.TheLoopEnds | BG96/BG96.cpp:608-610 | with a modem that hands over all it has and confirms it, the reads after an open end after one for each 20 bytes or part of them, and one more |
| Modem.NothingIsLeft | BG96/BG96.cpp:608-610 | if the modem hands over all it has, the reads after an open leave nothing of what came before |
| Modem.SendIsRightExactlyWhenHonest | BG96/BG96.cpp:677-682 | claiming and accepting agree if and only if the exchange is honest, and an accepted chunk is always claimed |
| Driver.BG96Interface.constructor | BG96Interface.cpp:160-181 | five free, idle slots that never listened and an empty queue, whatever the memory held |
| Driver.BG96Interface.EqSchedule | BG96Interface.cpp:1041-1047 | one more call-back and one more count, unless five are counted |
| Driver.BG96Interface.TxEvent | BG96Interface.cpp:950-981 | the record, pointer and payload after one attempt, and that no other slot changes |
| Driver.BG96Interface.RxEvent | BG96Interface.cpp:908-942 | the record and buffer after one poll, and that no other slot changes |
| Driver.BG96Interface.SocketOpen | BG96Interface.cpp:540-574 | the lowest free slot is opened; NO_SOCKET exactly when there is none, and then nothing changes |
| Driver.BG96Interface.SocketClose | BG96Interface.cpp:581-617 | a live slot becomes free and idle, a free handle is refused, other slots stay |
| Driver.BG96Interface.SocketSend | BG96Interface.cpp:745-808 | result, slot and queue for each state the transfer can be in; other slots stay |
| Driver.BG96Interface.SocketRecv | BG96Interface.cpp:835-900 | result, slot and queue for each state the read can be in; other slots stay |
| Driver.BG96Interface.OpenRemote | BG96/BG96.cpp:606-612 | after a success, all that the reads up to the first empty one move is gone, and nothing else has changed |
| Driver.BG96Interface.SocketConnect | BG96Interface.cpp:636-667 | OK exactly when one of the first two attempts succeeds, with the call-back then made; the bytes thrown away after any success |
| Driver.BG96Interface.SocketListen | BG96Interface.cpp:416-432 | an unconnected socket is marked and the queue woken; a connected one is refused |
| Driver.BG96Interface.SocketAttach | BG96Interface.cpp:389-395 | the call-back of that socket alone is replaced |
| Driver.BG96Interface.RunFirstLoop | BG96Interface.cpp:1003-1017 | the in-place loop computes the fold over the slots with the carried slow flag |
| Driver.BG96Interface.SecondLoop | BG96Interface.cpp:1019-1031 | every slot has its pending call-backs made |
| Driver.BG96Interface.GEqEvent | BG96Interface.cpp:990-1038 | slots and queue after a call-back that gets the lock, and after one that does not |
| Refinement.Create | BG96Interface.cpp:160-181 | a new driver is in an initial state of the transition system |
| Refinement.Perform | BG96Interface.cpp:540-1047 | every call on the class is a step of the transition system, on slots, queue and returned value, and leaves the class ready for the next |
| Refinement.PerformMissed | BG96Interface.cpp:990-1001 | a call-back that does not get the lock leaves the slots alone and does to the queue what the three steps of the event-queue thread do |
| System.DispatchAt | BG96Interface.cpp:1003-1031 | a pass serves each slot once; nothing but the slow flag passes between slots |
| System.ServeHalves | BG96Interface.cpp:1004-1031 | within a slot, sending and receiving do not touch each other |
| System.ConnectEmptiesTheModem | BG96Interface.cpp:649-655 | a successful open empties such a modem, on the third attempt as well; without one nothing is touched; what is thrown away counts as lost |
| System.DispatchReady | BG96Interface.cpp:1003-1031 | after a pass no poll can write past a buffer and no transfer can read past its data |
| Transmit.ChunkShape | BG96Interface.cpp:965-974 | the payloads of a transfer make up its data, all but the last are 1500 bytes, and their number is the size over 1500 rounded up |
| Transmit.Attempted | BG96Interface.cpp:950-981 | an attempt sends exactly the next payload or changes nothing, however rejections are interleaved, and the last one completes the transfer |
| Transmit.ExactlyOnce | BG96Interface.cpp:745-981 | in every run: the payloads taken are all chunks of the reported transfers in order, then the first chunks of the one in flight; each reported transfer was reported by one call with its size |
| Transmit.PositiveMeansReported | BG96Interface.cpp:758-807 | a call adds its result to the reports or returns nothing positive, so a positive result is one report; a call that reports an earlier transfer sends nothing |
| Transmit.RunReturns | BG96Interface.cpp:745-808 | the positive results of the calls over a run are the positive ones among the reports, in order |
| Transmit.Conservation | BG96Interface.cpp:745-981 | over any stretch of any run in which the socket is not closed, bytes taken by the modem equal the sum of positive results plus the change in bytes not yet reported, if and only if every total reported in it is below 2^31 |
| Transmit.ReportedValue | BG96Interface.cpp:794 | the total survives the conversion to int if and only if it is below 2^31 |
| Transmit.AirExactlyWhenHonest | BG96/BG96.cpp:677-682 | what the modem accepted is what the driver believes if and only if every exchange of the session was honest |
| Receive.MovedOnce | BG96/BG96.cpp:732-754 | bytes of a successful poll are the next of the stream and lie at the start of the buffer; all bytes moved are accounted for |
| Receive.PolledOnce | BG96Interface.cpp:908-942 | a poll leaves a read waiting or ends it, with its bytes in the buffer of the starting call |
| Receive.EndsOnce | BG96Interface.cpp:908-942 | what ends a read has not ended it before |
| Receive.ReadsAreTheStream | BG96Interface.cpp:835-942 | in every run in which a slot never listened, whatever the others do: its reported reads, in order, with the waiting one are all that was delivered; each ended when its timer or data said so, within size and buffer of the starting call; this is the consumed stream if and only if nothing was lost |
| Receive.ReadsTimeOutExactly | BG96Interface.cpp:915-941 | in every such run a read that reports 0 ended on its 601st empty poll in a row or earlier, and earlier if and only if a pass met the slow flag up at its slot right before the last poll, and that was not the 600th |
| Receive.FreeSlotsArePristine | BG96Interface.cpp:556-565 | a slot that never listened is free exactly when it is idle, unconnected, unpolled, with id -1 |
| Timeouts.TimerCountsEmptyPolls | BG96Interface.cpp:915-941 | without listeners the timer of a read in progress is the number of empty polls since its start or the last failed poll, at most 600 |
| Timeouts.ReadsTakeTheirTime | BG96Interface.cpp:930-936 | without listeners a read that reports 0 ended on its 601st empty poll in a row |
| Timeouts.NeverSlow | BG96Interface.cpp:1004-1017 | without listeners the slow flag is never raised |
| Layout.AlikeRun | BG96Interface.cpp:835-1038 | what happens does not depend on the bytes: a run with other contents is possible too, and is disturbed by the same polls |
| Layout.DisturbanceShows | BG96Interface.cpp:1004-1024 | after a poll nobody waits for that brings data, or covers data, the layout is wrong if the bytes still to come differ from those already read |
| Layout.LaidOutExactly | BG96Interface.cpp:835-1024 | for any socket in any run: reads are laid out as delivered at every point, whatever bytes arrive, if and only if no pass polls it outside READ_ACTIVE and gets data or moves bytes over unfetched ones |
| Notices.FlagsAreTheApplications | BG96Interface.cpp:389-432 | in every run the call-back, listening and connected flags of a live socket are what the application last set with success since the socket was opened, and a read goes on with those at the call that started it |
| Notices.TransmitCallBacks | BG96Interface.cpp:766-807 | in every run: the transmit call-backs made on a socket are as many as its transfers given to the modem to the end that were started with a call-back attached, whether they ended in a pass or in socket_send |
| Notices.RxHalfCalls | BG96Interface.cpp:1004-1024 | whoever listens and whatever the slow flag: a pass makes one receive call-back if the slot's poll brings data, or is the empty one too many, for a read with a call-back, and none otherwise |
| Notices.ReceiveCallBacks | BG96Interface.cpp:835-1024 | over any stretch of any run: one call-back for each poll that ends a read with a call-back in effect, in a pass or within socket_recv, one for each connection made with one attached, and no others |
| Results.SendAnswers | BG96Interface.cpp:745-807 | nothing to send is answered with 0; WOULD_BLOCK is said exactly by the calls that leave a transfer in progress, without effect if they found one; every other call reports |
| Results.RecvAnswers | BG96Interface.cpp:835-899 | the same for socket_recv |
| Results.CallsReportOrBlock | BG96Interface.cpp:745-899 | over any stretch of any run, for sending and receiving: the results of the calls that leave nothing to the background are the reports, one for one and in order, and all other results are WOULD_BLOCK |
| Results.RecvResultsAreTheReads | BG96Interface.cpp:835-899 | on an undisturbed socket: but for the WOULD_BLOCKs the results of socket_recv are those of the reads reported, in order, and the positive ones add up to their bytes |
| Polling.AlwaysSteady | BG96Interface.cpp:990-1038 | in every run, with any listeners: between operations only resting states are seen, ids are -1 or the slot's own, and no polled timer passes 24000 |
| Polling.OpenTakesTheLowestFreeSlot | BG96Interface.cpp:547-567 | socket_open fails if and only if all five are live, else takes the lowest free slot, fresh, and leaves the others |
| Polling.SlowExactly | BG96Interface.cpp:1004-1017 | the flag is up at a slot if and only if some lower slot's poll passed the limit and no active transmission lies between |
| Polling.CountKeptExactlyWhenNotSlow | BG96Interface.cpp:1007-1010 | an ordinary read keeps its count of empty polls if and only if no lower slot raised the flag; otherwise it is one empty poll from its end |
| Polling.MoreExactly | BG96Interface.cpp:1003-1017 | whoever listens, the first loop asks for another pass if and only if some slot's poll did not end a read, or some transfer in progress has not ended |
| Polling.ActiveIsRescheduled | BG96Interface.cpp:1033-1034 | whoever listens, a socket active after a pass makes it reschedule |
| Polling.DispatchIsPointwise | BG96Interface.cpp:1003-1034 | without listeners a pass is five independent steps, makes one call-back per event it ends, and reschedules if and only if a socket is still active |
| Listeners.AnOrdinaryReadTimesOutEarly | BG96Interface.cpp:1007-1010 | a run in which an ordinary read ends on its third empty poll, the flag having been up at the second |
| Listeners.SecondDataLiesOverTheFirst | BG96Interface.cpp:921-928 | whatever the buffer, a further poll's data is counted on top of what was there and replaces it at the start of the buffer |
| Listeners.TheFirstByteIsLost | BG96Interface.cpp:1004-1024 | a run, for a buffer of any size, in which bytes 7 and 8 arrive and two bytes are reported of which the first is 8 |
| Listeners.AReusedSlotReadsUnasked | BG96Interface.cpp:556-610 | a run in which a slot that once listened is held by somebody who has asked for nothing, and the new connection's byte lies in the old buffer and will be reported by the next call |
| Machine.TraceIsARun | BG96Interface.cpp:745-1047 | every interleaving of the threads' steps is a run of the sockets, so the results above hold at each step |
| Machine.SchedulesExactly | BG96Interface.cpp:416-899 | a call schedules if and only if it starts something for the background or sets listening |
| Machine.ScheduledUpToFive | BG96Interface.cpp:1041-1047 | each call of _eq_schedule adds a call-back until five are pending, and none after that |
| Machine.ServedCallBack | BG96Interface.cpp:990-1038 | the five steps of a call-back that gets the lock, undisturbed, are one pass and its effect on the counter |
| Machine.FailedCallBack | BG96Interface.cpp:992-1001 | the three steps of one that does not leave everything but the counter and the queue |
| Machine.NewlyActiveSchedules | BG96Interface.cpp:773-778 | a call that makes a socket active schedules |
| Machine.MoveKeepsAlert | BG96Interface.cpp:990-1047 | each step of either thread keeps the counter exact and somebody on the way to every active socket |
| Machine.NoLostWakeUp | BG96Interface.cpp:990-1047 | under every interleaving, failed trylocks included, scheduled_events is the number of pending call-backs plus the one being entered, at most 5, and an active socket with an idle queue thread has a call-back pending |
| Drain.PassFalls | BG96Interface.cpp:1003-1034 | a benign pass lowers the remaining work if any socket is active and leaves it otherwise |
| Drain.MoveFalls | BG96Interface.cpp:990-1047 | every step of the event-queue thread lowers the measure, every entered call-back the number still to come; arriving bytes change neither |
| Drain.TheQueueDrains | BG96Interface.cpp:908-1047 | after any run without listeners, from any point of the event-queue thread, with a silent application, a benign modem and bytes arriving at any time: at most the remaining work plus five call-backs are entered, that thread takes boundedly many steps, and it can always take one until no call-back is pending, no socket active and every started transfer given to the modem whole |
| Topics.WalkStaysInsideExactly | MQTT/BG96MQTTClient.cpp:306-315 | the walk back through a topic stays inside the buffer if and only if the topic has a '/', and then stops at the last |
| Topics.ATopicOfOneLevelIsWalkedOff | MQTT/BG96MQTTClient.cpp:306-315 | a topic on which it does not |
| Topics.Truncate | MQTT/BG96MQTTClient.cpp:306-315 | for every topic: the loop leaves the topic up to its last '/' as the C string of the buffer, or has left the buffer, and which |
| Topics.MatchTopic | MQTT/BG96MQTTClient.cpp:291-327 | an answer if and only if both topics have a '/', and then whether they have the same path |
| Topics.PathIs | MQTT/BG96MQTTClient.cpp:306-316 | the path is the only prefix ending in '/' with no '/' after it |
| Topics.Rewrite | BG96/BG96.cpp:1401-1405 | with a '/' in the topic the global buffer holds its path and a '#'; without one there is nowhere to write |
| Topics.RewritingKeepsThePath | BG96/BG96.cpp:1401-1407 | rewriting keeps the path and is idempotent |
| Topics.MatchIsMqttOneLevelDown | MQTT/BG96MQTTClient.cpp:291-327 | for a filter p/# with no other wildcard, a match is a match under section 4.7.1.2 of MQTT 3.1.1 with a topic exactly one level below p, and conversely |
| Topics.RewrittenIsTheFilterBelow | BG96/BG96.cpp:1401-1405 | the last level of a received topic p/x becomes '#', which makes it the filter p/#: for MQTT it matches p and all below it, at any depth, and nothing else |
| Topics.EverythingBelowMatches | BG96/BG96.cpp:1401-1405 | every topic below p, however deep, matches it |
| Registry.FoundExactly | MQTT/BG96MQTTClient.cpp:329-340 | the search finds the first match whenever there is one and is a correct lookup if and only if there is one |
| Registry.RunsKeepPathsDistinct | MQTT/BG96MQTTClient.cpp:256-289 | any run of subscribe and unsubscribe keeps paths distinct; from an empty list there is never a second entry |
| Registry.SubscribeIsLostExactlyWhen | MQTT/BG96MQTTClient.cpp:268-273 | subscribing has its effect if and only if the list is empty or has the path |
| Registry.UnsubscribeRemoves | MQTT/BG96MQTTClient.cpp:277-289 | the first entry with the path is gone and the others are as they were, or, when none had it, the last is gone; no entry has the path afterwards |
| Registry.UnsubscribeAsksForThePath | MQTT/BG96MQTTClient.cpp:277-289 | the modem is asked to give up the path unsubscribe was called with if and only if somebody subscribed to it; otherwise the last entry's |
| Registry.InsideExactly | MQTT/BG96MQTTClient.cpp:329-340 | a lookup stays inside its buffers if and only if the topic and every entry compared with it have a '/' |
| Registry.SlashesKeepInside | MQTT/BG96MQTTClient.cpp:329-340 | with a '/' in every topic no comparison of a lookup leaves its buffer |
| Registry.OneLevelTopicSpoilsLookups | MQTT/BG96MQTTClient.cpp:256-275 | a topic without '/' goes into an empty list unseen, and every lookup after that leaves a buffer |
| Registry.FoundByRewritten | MQTT/BG96MQTTClient.cpp:433 | looking up the rewritten topic finds what the original would |
| Registry.MessageReachesItsHandler | MQTT/BG96MQTTClient.cpp:427-439 | with distinct paths a message runs exactly the handler subscribed to its path |
| Registry.StrayMessageRunsTheLastHandler | MQTT/BG96MQTTClient.cpp:433-436 | the handler run is the right one if and only if somebody subscribed to the path; otherwise it is the last |
| Registry.DeliveredOneByOne | MQTT/BG96MQTTClient.cpp:427-449 | what comes of a sequence of messages is what comes of its parts, in order |
| Registry.OnlyCompletesCount | MQTT/BG96MQTTClient.cpp:428-447 | nothing comes of what lacks a topic or a text |
| Registry.EveryMessageReachesItsHandler | MQTT/BG96MQTTClient.cpp:427-439 | with distinct paths, a sequence of messages whose paths are all subscribed with handlers runs one handler each, in order, with that message, and it is the one of the message's path |
| Registry.BG96MQTTClient.SetSubscriptions | MQTT/BG96MQTTClient.h:179 | a list built elsewhere is taken over as it is |
| Registry.BG96MQTTClient.GetNextMessageId | MQTT/BG96MQTTClient.h:182 | ids are handed out in order |
| Registry.BG96MQTTClient.FindSubscriptionByTopic | MQTT/BG96MQTTClient.cpp:329-340 | whether a comparison leaves its buffer; if none does, the walk over the heap returns the node the specification names, always one of the list |
| Registry.BG96MQTTClient.AppendSubscription | MQTT/BG96MQTTClient.cpp:342-354 | the node joins at the end, the others keep order and contents, and the result is a NULL-ended acyclic list if and only if the node's link was NULL |
| Registry.BG96MQTTClient.RemoveSubscription | MQTT/BG96MQTTClient.cpp:356-378 | exactly that node leaves; order, contents and acyclicity stay |
| Registry.BG96MQTTClient.Subscribe | MQTT/BG96MQTTClient.cpp:256-275 | the entries afterwards, with quality of service and id, what the modem is asked for, and that they form a NULL-ended list if and only if the list was not empty or the new node's link was NULL |
| Registry.BG96MQTTClient.Unsubscribe | MQTT/BG96MQTTClient.cpp:277-289 | the list afterwards and what the modem is asked for are the specification's, and the result tells an empty list from the modem's answer |
| Registry.BG96MQTTClient.MqttTask | MQTT/BG96MQTTClient.cpp:420-449 | the handlers run are those the specification names, message by message, as long as no lookup leaves a buffer, and when one does |
| Files.UploadLoopEndsExactly | BG96/BG96.cpp:1501-1505 | the loop with its 16-bit index ends if and only if the size is at most 65535 |
| Files.BG96.PutAll | BG96/BG96.cpp:970-973 | the modem is sent exactly the buffer |
| Files.BG96.SendFile | BG96/BG96.cpp:924-989 | when it answers 1, in terms of the modem's answers; when the file is then exactly the string and its NUL; that without leave an existing file is untouched; what a failure leaves; that no other file changes |
| Files.BG96.UploadFile | BG96/BG96.cpp:1484-1521 | result and size for each way the modem can answer, and the files afterwards |
| Files.BG96.DownloadFile | BG96/BG96.cpp:1523-1558 | success exactly when the announced size is the file's and both answers came; then the buffer is the file and nothing beyond it is written |
| Files.FSImplementation.FileSize | File/FSImplementation.cpp:101-112 | the size of an existing file that was answered for, else 0 |
| Files.FSImplementation.Upload | File/FSImplementation.cpp:140-151 | success exactly for a new name stored whole, and then the file is the buffer |
| Files.FSImplementation.Download | File/FSImplementation.cpp:153-164 | a positive size comes with exactly the file's bytes |
| Files.FSImplementation.RoundTrip | File/FSImplementation.cpp:140-164 | whatever is uploaded successfully under a new name comes back with the same size and bytes |

## Left out

- AT-command formatting, UART, parser timeouts, pins, reset, sleeps and real time: hardware and library behaviour, present only as the answers given to each call.
- Network registration, PDP activation, DNS, signal strength and address queries; `setsockopt` and `getsockopt`: scripts with little state.
- `disconnect`, which cancels an event by the wrong kind of id: not part of a socket's run.
- `socket_sendto` and `socket_recvfrom`: a check and a call of the modelled functions.
- `m_rx_total_cnt` and `m_rx_asked_size`: never read.
- A non-atomic gap between the increment of `scheduled_events` and `call_in`, and a failing `call_in`.
- Re-entrant call-backs, and a `socket_open` in the middle of a pass.
- Failing allocations.
- Driver.BG96Interface.SocketAttach: the data pointer handed to the call-back is not stored.
- Registry.RunsKeepPathsDistinct: runs are of the lists as sequences; a link left over from malloc is in the contract of `Registry.BG96MQTTClient.Subscribe` only.
- Registry.BG96MQTTClient.Subscribe: the `param` handed to the handler is not stored.
- Registry.BG96MQTTClient.Unsubscribe: the release of the node and its topic is left out.
- MQTT configuration, connection and publishing; the TLS socket; GNSS parsing; file handles.
- `_fs_error`: the successful paths store an uninitialised value in it.
- Registry.BG96MQTTClient.MqttTask: the two-second waits and the `_running` flag are left out; the task runs over the messages received before it is stopped.
- Files.BG96.DownloadFile: the checksum handed back is left out.
- Files.FSImplementation.Download: the checksum handed back is left out.
- Files.BG96.SendFile: the checksum, which the code does not look at, is left out.
