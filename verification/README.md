# Verified models of four kernel drivers

This project models the console, socket, network-store and PCI code of the kernel as state machines, and proves what
their comments, tests and callers rely on. The code around the drivers (lwIP, the Io layer's pending engine, the
dispatcher, the object manager) appears only as arbitrary answers and arbitrary events.

* **Console driver** (`drivers/condrv.c`). `CondrvBroker` is one console as a value, with every atomic step of the
  request broker; `CondrvDriver` is the same driver in place, list by list, proved against those steps;
  `CondrvWorld` puts any number of consoles, files and processes around it, with the clients blocked in
  `CondrvForward`, and `CondrvHolders`, `CondrvSteps` and `CondrvRuns` prove the reference and binding audit over every
  run; `CondrvReads` treats the order of blocking reads; `CondrvOutcomes` and `CondrvArms` say what each step comes to,
  field by field.
* **Socket driver** (`drivers/afd.c`). `AfdStream` is the receive ring and its window credit, `AfdSend` the send side,
  `AfdSockets` the legs that complete parked work, `AfdCallbacks` what lwIP's callbacks record and the
  connect verb, `AfdCredit` the window over the whole table, `AfdPeek` when a peek takes data, `AfdSpin` when the drain
  does not end, `AfdPoll` the polls, `AfdCancel` sweeps and close, `AfdEvents` the
  event-select latch; `AfdOutcomes`, `AfdPollOutcomes` and `AfdCancelOutcomes` say what their verbs, legs and callbacks
  come to, field by field. `AfdDriver` is one object with the driver's loops, including the readiness drain.
* **Network store** (`drivers/nsi.c`). `NsiTables` builds the rows of one snapshot, `NsiVerbs` has the three verbs over
  it, writing the caller's buffer; `NsiRows` and `NsiOutcomes` say which rows a table has and which bytes a verb returns,
  offset by offset.
* **PCI** (`drivers/pci.c`). `Pci` has the capability walk and the MMIO window.

`NtKernel` and `Lists` hold what they share. A step is a stretch of driver code that runs without giving up the
processor, which is what the drivers themselves rely on. A client blocked in `CondrvForward` is a frame, and, as the
comment at drivers/condrv.c:273-275 demands, the open or binding it came through stays until it wakes.

Where a comment and the code differ, the model follows the code; where two of its paths disagree, the model has both:

* The receive ring holds two windows (`AFD_RING_CAPACITY`, drivers/afd.c:170); the comment at drivers/afd.c:936 says
  four. One window is all the credit argument needs (`AfdStream.RunKeepsCredit`).
* The protocol header says a read-complete reply answers the oldest delivered read (drivers/condrvproto.h:27-31). The
  code answers the head of the read queue, which an abort can turn into a read that was never delivered;
  `CondrvReads.AbortExposesDeferredRead` says exactly when, `CondrvReads.PromiseBreaks` shows a run.
* A comment in the poll completer says a socket listed twice reports once; it can also report not at all,
  exactly when no ready socket's first entry asks for a bit that is up (`AfdPoll.ReadyPollReportsExactly`).
* A receive that finds a refused connection and no data fails when answered inline and returns zero bytes when it was
  parked first (`AfdSockets.RecvPathsAgreeExactly`, `AfdSockets.FlatReadPathsAgreeExactly`); lwIP's abort gets there
  (`AfdCallbacks.AbortSplitsReceives`).
* The comment at drivers/afd.c:142 says a peek is always served inline. One that cannot be answered at once parks, and
  its completion takes the data: always on a datagram socket, and on a stream that has neither data nor a FIN nor an
  error yet (`AfdPeek.PeekKeepsDataExactly`).
* The send loop of the readiness drain never ends on a socket that has a connect outstanding and, as long as lwIP refuses
  nothing, more parked than fits into lwIP's buffer (`AfdSpin.SpinsForeverExactly`); grafting a connection onto a
  connecting acceptor and sending on it gets there (`AfdSpin.ConnectGraftSendSpins`).
* An error that reaches a connection nobody has claimed survives a mint (`AfdCallbacks.MintAfterCallback`) and is lost in
  a graft, unless the acceptor shows the same error already (`AfdCallbacks.GraftLosesErrorExactly`).
* A graft leaves the acceptor's window debt in place, so one that lost its connection and was read from after that
  breaks the window sum (`AfdCredit.LegPaidExactly`, `AfdCredit.ReadAfterLossOwes`).
* A poll delay may be the value that means "no deadline" while a deadline exists (`AfdPoll.DelaySentinelsExactly`,
  `AfdPoll.DelayCollides`).

The methods are proved equal to the value steps. The lemmas named `...Outcome` and their like say what those steps are,
without naming the functions that define them: ids, statuses, bytes, counters and positions, each from the state before.

Run `dafny verify dfyconfig.toml` to check everything.

## Model

| member | source | states |
|---|---|---|
| CondrvRuns.BrokersHold | drivers/condrv.c:417-694 | in every reachable world, for every console: an unfinished request is in exactly one of the two queues or `current`, is completed at most once and only after leaving them, `current` is never a blocking read, the read queue holds only blocking reads, and a waiting client's request is either in its place or done |
| CondrvRuns.AuditHolds | drivers/condrv.c:265-317 | in every reachable world no driver assertion has failed, clientCount is the console and screen-buffer opens plus the bound processes, refCount adds the Server open, and a console exists exactly while somebody holds it |
| CondrvSteps.NextSound | drivers/condrv.c:717-954 | every step of every client, server and process keeps the audit, custody, order and wakeup invariants together |
| CondrvSteps.CreateSound | drivers/condrv.c:717-902 | every arm of Create, with each allocation failing or not, keeps them |
| CondrvSteps.CloseSound | drivers/condrv.c:944-954 | Close keeps them: the Server open gives back the reference it held past Cleanup |
| CondrvSteps.BindPidSound | drivers/condrv.c:1082-1120 | the caller adopting another process's console, or being refused, keeps them |
| CondrvRuns.AbandonedFetch | drivers/condrv.c:537-548 | once the reference is minted and no client is left, nothing is queued, the handle is signaled and every fetch answers INVALID_HANDLE |
| CondrvRuns.AbandonedForever | drivers/condrv.c:371-379 | that state is never left while the console lives, whatever all processes do |
| CondrvBroker.AppendKeeps | drivers/condrv.c:418-450 | queueing a request puts one new id in one place and keeps the invariants |
| CondrvBroker.AbortKeeps | drivers/condrv.c:451-486 | an aborted client's request leaves every queue, and no other request moves |
| CondrvBroker.ServerReadKeeps | drivers/condrv.c:518-606 | a fetch of any length moves work only: every id is in as many places, and settled as often, as before |
| CondrvBroker.ServerWriteKeeps | drivers/condrv.c:612-668 | a reply either changes nothing or finishes exactly the request it answers, once |
| CondrvBroker.ServerGoneKeeps | drivers/condrv.c:673-694 | when the server vanishes every unfinished request is completed once and no place holds any |
| CondrvBroker.ReadsAreDeliveredAlone | drivers/condrv.c:584-590 | the delivery arm's assertion cannot fire: after moving reads aside, a read heads the queue only if none is outstanding |
| CondrvBroker.DeliveredInOrder | drivers/condrv.c:518-606 | verbs other than reads reach the server in strictly increasing id order, ahead of all still queued |
| CondrvBroker.OldestVerbInTwoFetches | drivers/condrv.c:549-606 | with the server idle and a client live, two full-size fetches deliver the oldest queued verb, whatever reads stand before it and whatever is queued between the two |
| CondrvReads.AbortExposesDeferredRead | drivers/condrv.c:475-485 | while reads wait, their queue is headed by one the server was handed; an abort breaks that exactly when it takes out this read with others deferred behind it |
| CondrvReads.GentleRunsKeepThePromise | drivers/condrv.c:417-694 | in every run without such an abort each read-complete reply finishes a read the server was handed |
| CondrvReads.FreshKeepsThePromise | drivers/condrv.c:733-770 | such runs start: a fresh console meets their premise |
| CondrvReads.PromiseBreaks | drivers/condrv.c:475-485 | two forwarded reads, two fetches and an abort of the first reach a state in which the next read-complete reply finishes a read that was never delivered |
| CondrvDriver.CondrvConsole.ForwardEnqueue | drivers/condrv.c:418-450 | the in-place enqueue, refusals included, is the value step |
| CondrvDriver.CondrvConsole.ForwardAbort | drivers/condrv.c:451-486 | unlinking the one entry that carries the id, from whichever list holds it, is the value step: no other entry of either list moves |
| CondrvDriver.CondrvConsole.ServerRead | drivers/condrv.c:518-606 | so is a fetch, with its walk that moves reads aside |
| CondrvDriver.CondrvConsole.ServerWrite | drivers/condrv.c:612-668 | so is a reply, with its walk that puts deferred reads back; what it answers is `CondrvOutcomes.VerbReplyOutcome` and `CondrvOutcomes.ReadReplyOutcome` |
| CondrvDriver.CondrvConsole.ServerGone | drivers/condrv.c:673-694 | so is the teardown of the three places; what their clients get is `CondrvOutcomes.TeardownOutcome` |
| CondrvDriver.ConsoleWrite | drivers/condrv.c:1002-1050 | a long write is cut into forwarded chunks that concatenate to the buffer, all but the last full, stopping at the first failure; success means every forwarded verb succeeded |
| CondrvOutcomes.ForwardOutcome | drivers/condrv.c:418-450 | without a server, or with too long a payload, a verb is refused and changes nothing; any other stands last in the queue under the next id, with its code, handle and payload and its room clamped, and the handle is signaled |
| CondrvOutcomes.AbortOutcome | drivers/condrv.c:451-486 | of an aborted client exactly one entry, its own, goes: none if it was completed, the awaited verb, or the one list entry with its id |
| CondrvOutcomes.FetchRefusals | drivers/condrv.c:531-548 | a fetch while a verb awaits its reply, or after the last client, hands out nothing and moves nothing |
| CondrvOutcomes.FetchOutcome | drivers/condrv.c:549-606 | any other fetch: nothing queued clears the handle; too short a buffer keeps the request first and the handle set; otherwise the oldest deliverable request is the message, byte for byte, a read then waiting on the read queue and any other verb being awaited |
| CondrvOutcomes.ReplyRefusals | drivers/condrv.c:612-661 | the replies that change nothing, each with its status: short, truncated, no read outstanding, nobody waiting, the wrong id |
| CondrvOutcomes.ReadReplyOutcome | drivers/condrv.c:629-651 | a read-complete reply appends exactly one completion: the head of the read queue's id, the reply's status (PENDING becomes INVALID_PARAMETER), as much of the payload as fits, and its length; the deferred reads go back behind the queue |
| CondrvOutcomes.VerbReplyOutcome | drivers/condrv.c:652-668 | a plain reply appends exactly one completion, with the awaited verb's id, the reply's status and the payload that fits; WRITE_FILE reports the bytes its client sent |
| CondrvOutcomes.TeardownOutcome | drivers/condrv.c:673-694 | when the server vanishes the completions added are one for the awaited verb, each read and each queued request, in that order, each with INVALID_DEVICE_STATE and no data |
| CondrvArms.ReplyWakes | drivers/condrv.c:488-513 | the client whose request a reply answers wakes with that reply's status |
| CondrvArms.TeardownWakes | drivers/condrv.c:673-694 | a client whose server vanished wakes with INVALID_DEVICE_STATE |
| CondrvArms.ScreenWakes | drivers/condrv.c:838-880 | a waiting screen-buffer open opens exactly if the server's answer was success and its record could be allocated, with its id and one more counted client |
| CondrvArms.VerbWakes | drivers/condrv.c:451-490 | a plain verb's client only leaves |
| CondrvArms.ClosedScreenWakes | drivers/condrv.c:929-942 | a screen buffer's closer gives its client back whatever the server answered |
| CondrvArms.ServerOutcome | drivers/condrv.c:745-777 | a Server open mints a console with one reference, no client, nothing queued and a clear handle, or fails and leaves everything |
| CondrvArms.AbsoluteOutcome | drivers/condrv.c:807-838 | the other absolute names: a connection refuses a bound caller and binds nobody, Input and Output refuse an unbound one and count nobody |
| CondrvArms.ServerReferenceOutcome | drivers/condrv.c:778-793 | below a Server open its Reference, once, counts one client; a second one answers INVALID_HANDLE |
| CondrvArms.ConnectionReferenceOutcome | drivers/condrv.c:794-806 | below a connection the Reference counts a client of the caller's own console, and refuses an unbound caller |
| CondrvArms.ConsoleConnectionOutcome | drivers/condrv.c:807-819 | below a console the Connection binds its opener to that console and counts it, and refuses a bound caller |
| CondrvArms.NoNamesBelow | drivers/condrv.c:863-866 | below Input and Output opens no name exists |
| CondrvArms.GoneOutcome | drivers/condrv.c:366-379 | a leaving client takes its count and its reference; the last one sets a live server's handle, the last reference frees the console |
| CondrvArms.RouteOutcome | drivers/condrv.c:1130-1170 | a verb goes to the console its open holds, and otherwise to the one its caller is bound to at that moment |
| CondrvArms.VerbStepOutcome | drivers/condrv.c:418-450 | a client's verb is queued, as sent, on that console and on no other, and its client waits for the id it got |
| CondrvArms.ProcessStepOutcome | drivers/condrv.c:407-415 | a screen-buffer open asks, and a process's end leaves, that process's own console |
| CondrvArms.ScreenOutcome | drivers/condrv.c:838-862 | a ScreenBuffer open takes the next buffer id of its caller's console and asks the server for exactly that one |
| CondrvArms.FetchStepOutcome | drivers/condrv.c:518-606 | a fetch touches the console of the handle it came through and no other, completes nothing and counts nobody |
| CondrvArms.ReplyStepOutcome | drivers/condrv.c:612-668 | a reply touches that console alone, and its client's request is then done with the reply's status |
| CondrvArms.CleanupOutcome | drivers/condrv.c:906-930 | Cleanup by kind of open: only the Server open that still serves tears down, a console reference leaves, a connection unbinds its closer |
| CondrvArms.ScreenCleanupOutcome | drivers/condrv.c:929-942 | a screen buffer's Cleanup asks its own console's server for that id's destruction and leaves at once only without a server |
| CondrvArms.CloseOutcome | drivers/condrv.c:944-954 | Close removes the record and, for a Server open, one reference |
| CondrvArms.BindOutcome | drivers/condrv.c:1082-1120 | BIND_PID's three answers, and a caller that succeeds is bound to its target's console and counted there |
| CondrvArms.UnbindOutcome | drivers/condrv.c:381-415 | a dying process leaves the console it is bound to, and no other |
| AfdStream.RunKeepsCredit | drivers/afd.c:416-516 | over every run of deliveries, readers, flushes, resets and grafts, advertised window + buffered + owed is one TCP window while lwIP's end lives, the ring never holds more than one window, and the application has been handed exactly a prefix of what arrived |
| AfdStream.ArriveKeepsCredit | drivers/afd.c:909-953 | a delivery within the advertised window fits, so neither the panic nor the push's assertion can fire |
| AfdStream.GraftCredit | drivers/afd.c:1252-1287 | grafting a connection keeps the credit exactly when the acceptor owes what the shell owed |
| AfdStream.ReadersAgree | drivers/afd.c:1175-1191 | the scatter reader and the two flat readers take the same prefix and owe the same credit, and differ in edges exactly in the stated cases |
| AfdStream.ArrivalFields | drivers/afd.c:909-953 | data is appended, uses up window and raises READ; a FIN sets peerClosed, leaves bytes, window and debt alone, and raises HUP exactly on an empty ring |
| AfdStream.ConnectionFields | drivers/afd.c:968-978 | a lost connection keeps its bytes and drops window and debt, a flush turns debt into window, a graft takes everything but the debt and the edges |
| AfdStream.ReaderFields | drivers/afd.c:489-499 | every reader takes min(buffered, limit) bytes off the front and owes as many; the relatching ones raise READ while data is left and HUP on the drain of a closed stream |
| AfdStream.ScatterLands | drivers/afd.c:437-480 | with buffers that do not overlap, the k-th byte read lands at the k-th byte of the segment list |
| AfdStream.ScatterLeavesRest | drivers/afd.c:437-480 | nothing outside the segments is written |
| AfdStream.Stream.Push | drivers/afd.c:421-431 | a push appends to the byte queue the ring stands for |
| AfdStream.Stream.RecvCallback | drivers/afd.c:909-953 | a pbuf chain is appended whole, and the panic is taken exactly when it does not fit; a FIN sets peerClosed and raises HUP exactly on an empty ring |
| AfdStream.Stream.RingConsume | drivers/afd.c:437-480 | through the 512-byte bounce the segments are filled, in order, with the first min(buffered, total) bytes; a peek leaves the socket unchanged |
| AfdStream.Stream.ReadParked | drivers/afd.c:1175-1191 | the parked flat read takes the prefix and raises no edge |
| AfdStream.Stream.ReadInline | drivers/afd.c:2973-2990 | the inline flat read takes the same prefix and re-raises edges |
| AfdStream.Stream.ErrCallback | drivers/afd.c:968-978 | an error drops lwIP's end and the debt with it |
| AfdStream.Stream.FlushRecved | drivers/afd.c:503-516 | returning the debt in 16-bit steps returns all of it |
| AfdStream.Stream.GraftFrom | drivers/afd.c:1257-1283 | ring, counters and lwIP's end change hands, the debt stays |
| AfdSend.SendSplit | drivers/afd.c:1212-1248 | over every run of sends issued while nothing is parked, however lwIP's buffer and verdicts cut them, the bytes given to tcp_write are the sends in order, without gap or repeat, and success reports the whole length |
| AfdSend.PushRunExact | drivers/afd.c:2139-2161 | one push loop sends exactly the run from where it stood, in non-empty 16-bit pieces, and stops only at the end, at a full buffer or on a refusal |
| AfdSend.InlineOvertakesExactly | drivers/afd.c:2139-2209 | an inline send keeps the stream in issue order exactly when nothing is parked or nothing of it goes out |
| AfdSend.ContinueKeepsOrder | drivers/afd.c:1212-1248 | continuing the oldest parked send keeps the order |
| AfdSend.PushLoop | drivers/afd.c:3073-3095 | the loop over lwIP's buffer is that push |
| AfdSend.StreamSender.SendCommon | drivers/afd.c:2130-2209 | the send verb, inline, refused, partial or parked, is the value step |
| AfdSend.StreamSender.ContinueSend | drivers/afd.c:1212-1248 | so is the continuation |
| AfdSend.StreamSender.WriteSync | drivers/afd.c:3112-3167 | a blocking write extends the stream by a prefix of its run, and succeeds exactly on all of it |
| AfdOutcomes.SendRefusals | drivers/afd.c:2063-2138 | a shut-down or unconnected send ends at once, with the connection's own error if it has one, and sends nothing |
| AfdOutcomes.SendOutcome | drivers/afd.c:2139-2209 | a send ends with success and its whole length, or with lwIP's verdict; short of buffer or memory a nonblocking one ends with its count or "would block" at zero, and a blocking one stands last with its progress |
| AfdOutcomes.ContinueOutcome | drivers/afd.c:1212-1248 | a pass over the oldest parked send: a lost connection ends it with its count and the recorded error, the end of its data with success, a full lwIP leaves it first with its progress, any other verdict ends it |
| AfdOutcomes.LwipStatuses | drivers/afd.c:330-356 | the status of each of lwIP's errors |
| AfdSockets.RunHistory | drivers/afd.c:880-905 | over every run of completion legs, grafts between sockets included, receives, sends and accepts of each socket finish in issue order, each once, and the rest stay parked in order |
| AfdSockets.RecvLegBytes | drivers/afd.c:1161-1207 | a parked stream receive takes its bytes from the front of the ring and keeps the window credit |
| AfdSockets.RecvLegDatagram | drivers/afd.c:1119-1157 | a parked datagram receive takes one datagram and reports truncation exactly when it was truncated |
| AfdSockets.RecvPathsAgreeExactly | drivers/afd.c:1816-1858 | the inline answer of a receive is what parking it and completing it would have given, except for a refused connection with nothing buffered |
| AfdPeek.PeekKeepsDataExactly | drivers/afd.c:1792-1877 | a peek leaves ring and queue as they would be without it, whatever arrives later, exactly when it is refused or answered at once, or is a stream peek with no room or on a closed handle; otherwise arrivals of at most one byte each show the loss |
| AfdPeek.AnswersPeekExactly | drivers/afd.c:1816-1859 | a peek is answered at once exactly on a stream with data, a FIN or an error, and then takes nothing |
| AfdPeek.ParkedPeekTakes | drivers/afd.c:1161-1207 | the failing inputs: a queued datagram is gone at once, and a peek parked on an empty queue or ring takes the first byte or datagram that is left after the receives before it |
| AfdCallbacks.AbortSplitsReceives | drivers/afd.c:968-998 | on a connected stream with nothing buffered, after lwIP's abort, an inline receive answers CONNECTION_REFUSED and a parked one ends with success and zero bytes |
| AfdSockets.InlineRecvOvertakesNothing | drivers/afd.c:1816-1858 | on a drained socket an inline receive finds no receive parked |
| AfdSockets.AcceptLegUnclaimed | drivers/afd.c:1252-1314 | a claim, minted, failed or grafted, uses up exactly one unclaimed connection over all sockets |
| AfdSockets.FlatReadPathsAgreeExactly | drivers/afd.c:2967-3003 | a flat read answered inline and one parked first agree on bytes, and on status exactly unless a connection was refused with nothing buffered |
| AfdSockets.ClosedAnswersAll | drivers/afd.c:880-885 | on a stream with a FIN, an error or a dead handle the readiness loop leaves no receive parked: in issue order the first share out the ring's bytes, and the rest get zero bytes and the status the socket's error calls for |
| AfdOutcomes.WaitsOutcome | drivers/afd.c:880-905 | what the requests of a drained socket wait for: receives for data, a FIN, an error or the close, sends for buffer or memory, accepts for a connection |
| AfdOutcomes.InlineOutcome | drivers/afd.c:1816-1859 | the inline receive: min(buffered, capacity) bytes off the front, one datagram with its truncation, or the end of a closed or lost stream; a peek takes nothing |
| AfdOutcomes.FlatReadOutcome | drivers/afd.c:2957-3015 | the inline flat read's bytes, statuses and waits |
| AfdOutcomes.RefusalOutcome | drivers/afd.c:1792-1815 | the refusals in front of a receive |
| AfdOutcomes.ClaimOutcome | drivers/afd.c:1252-1314 | an accept gets the oldest queued connection, whole: onto the acceptor it names, which keeps its debt, error and parked requests, or on a new socket with nothing parked; a failed mint ends it with the mint's status |
| AfdOutcomes.RunClaims | drivers/afd.c:1037-1075 | over every run of legs a listener's queue is what is left of it after as many claims from the front as accepts completed |
| AfdSpin.PassIsWastedExactly | drivers/afd.c:887-897 | a pass of the send loop neither progresses nor leaves exactly when a connect is outstanding and the first send is blocked |
| AfdSpin.SpinsForeverExactly | drivers/afd.c:887-897 | with a connect outstanding and lwIP refusing nothing from now on, the loop never ends exactly when the parked sends hold more than lwIP's free buffer; with lwIP's end gone it always ends; for arbitrary verdicts, it never ends exactly when some pass leaves the first send with no room, or lwIP refusing memory from then on |
| AfdSpin.ConnectGraftSendSpins | drivers/afd.c:1252-1314 | connecting a socket, grafting a connection onto it and sending more than fits leaves a readiness pass that never ends |
| AfdDriver.Afd.SocketReady | drivers/afd.c:880-905 | the drain ends through any chain of grafts; its socket is left with no satisfiable receive, no matchable accept and no send that could move, no other socket is less drained than before, no parked poll is ready, and what happened is a run of legs |
| AfdDriver.Afd.CompleteAccept | drivers/afd.c:1252-1314 | one claim, with the acceptor's own readiness pass, leaves every socket as drained as it was |
| AfdDriver.Afd.Edge | drivers/afd.c:909-1115 | every lwIP callback on a socket, whatever it records, ends with no socket holding a receive that could be satisfied or an accept that could be matched, and no parked poll ready |
| AfdDriver.Afd.TcpRecv | drivers/afd.c:909-953 | data or a FIN is recorded and then drained; after a FIN no receive is parked on a stream, and each that was is answered as `AfdSockets.ClosedAnswersAll` says; so recorded and drained for the callbacks below |
| AfdDriver.Afd.TcpSent | drivers/afd.c:955-966 | freed buffer space is recorded and then drained |
| AfdDriver.Afd.TcpConnected | drivers/afd.c:1000-1021 | so is an established connection |
| AfdDriver.Afd.ShellEdge | drivers/afd.c:1037-1075 | a callback on a connection nobody has claimed changes that shell alone and leaves no parked poll ready |
| AfdCallbacks.MintAfterCallback | drivers/afd.c:1290-1314 | a minted socket is as if the callback had come after the mint |
| AfdCallbacks.GraftAfterCallback | drivers/afd.c:1257-1283 | so is a graft for data, a FIN and freed space |
| AfdCallbacks.GraftLosesErrorExactly | drivers/afd.c:1257-1283 | the shell's error and reset do not reach the acceptor, so the graft is as if the error had come after it exactly when the acceptor has that error and a reset already, owes nothing and has no connect under way |
| AfdCredit.LegPaidExactly | drivers/afd.c:1161-1314 | over all sockets and queued connections, every leg keeps the window credit and the freedom from debt, and a claim exactly when its acceptor owes nothing, or what it owes fits beside a dead connection's data; an acceptor that still has lwIP's end always can |
| AfdCredit.RunKeepsPaid | drivers/afd.c:880-905 | so does every run of legs whose grafts have such acceptors |
| AfdCredit.ReadAfterLossOwes | drivers/afd.c:1257-1283 | an acceptor that lost its connection with data unread and is read from after that can take no live one |
| AfdCredit.EdgesKeepPaid | drivers/afd.c:909-1075 | every callback keeps it too, deliveries as long as they respect the window, and a fresh socket has it |
| AfdCredit.ShellStaysUnread | drivers/afd.c:1037-1075 | so does every callback on a queued connection, which nobody reads from |
| AfdCredit.ReadsKeepPaid | drivers/afd.c:1820-1835 | and every inline read, scattered or flat, which returns what it owes at once |
| AfdDriver.Afd.TcpError | drivers/afd.c:968-998 | the error is recorded and then drained |
| AfdCallbacks.ConnectEndsOnce | drivers/afd.c:968-1021 | both outcomes end the parked connect exactly once, with that outcome; a failed connect is "refused" and latches no reset, any other failure latches one |
| AfdCallbacks.ConnectParksAlone | drivers/afd.c:1658-1758 | a connect parks only when none is parked, so the parking assertion cannot fire, and adds its request to the history once |
| AfdDriver.Afd.ConnectVerb | drivers/afd.c:1677-1758 | the verb is the value step and keeps the driver steady |
| AfdDriver.Afd.TcpAccept | drivers/afd.c:1037-1075 | an inbound connection joins the queue's end and meets the accepts in order |
| AfdDriver.Afd.UdpRecv | drivers/afd.c:1077-1108 | a datagram past the bound is dropped, any other is queued and drained |
| AfdCallbacks.DatagramBound | drivers/afd.c:1090-1107 | the queue never holds more than the bound |
| AfdOutcomes.DataCallbacks | drivers/afd.c:909-966 | data, a FIN and freed space each change their own side's fields and nothing else of the socket |
| AfdOutcomes.ConnectionCallbacks | drivers/afd.c:968-1021 | after tcp_connected the socket is connected and not connecting; after an error lwIP's end, window and debt are gone, the bytes stay, and the parked connect, if any, ended with that outcome |
| AfdOutcomes.QueueCallbacks | drivers/afd.c:1037-1108 | an inbound connection stands last in the queue; a datagram is queued last and whole exactly if it fits the bound |
| AfdOutcomes.ShellCallbacks | drivers/afd.c:1037-1075 | the callbacks on a connection nobody has claimed |
| AfdOutcomes.ConnectRefusals | drivers/afd.c:1677-1720 | the stream connect's answers that start nothing, and when each is given |
| AfdOutcomes.ConnectStarts | drivers/afd.c:1720-1758 | a stream connect that starts forgets the old error and is under way exactly if lwIP took it; nonblocking it answers at once, blocking it parks or ends with lwIP's verdict |
| AfdOutcomes.DatagramConnects | drivers/afd.c:1658-1676 | a datagram connect fixes the peer or answers the resolver's or lwIP's error |
| AfdOutcomes.OpenFields | drivers/afd.c:1421-1480 | the fields of a new socket |
| AfdDriver.Afd.Send | drivers/afd.c:2063-2209 | the send verb is the value step, and keeps the driver steady exactly unless its socket then has a send parked beside an outstanding connect |
| AfdDriver.Afd.AcceptVerb | drivers/afd.c:1761-1788 | on a drained listener an accept that finds a connection completes at once, after all earlier ones, and the listener stays drained |
| AfdDriver.Afd.Receive | drivers/afd.c:1792-1877 | the receive verb refuses or answers inline as stated, or parks and lets a readiness pass complete it, in issue order; a peek that is answered takes nothing |
| AfdDriver.Afd.Open | drivers/afd.c:1421-1480 | a new socket, a stream with lwIP's end, a whole window and an empty send buffer, keeps the driver steady and is open on its file |
| AfdPoll.ReportsAgreeExactly | drivers/afd.c:806-834 | the parked and the inline report are equal exactly when every visible entry is the first to name its socket |
| AfdPoll.ParkedReportsReady | drivers/afd.c:2512-2554 | over distinct sockets a ready parked poll reports what the inline answer would have, in at least one slot |
| AfdPoll.ParkedReportsNothingExactly | drivers/afd.c:806-834 | the parked report is empty exactly when every visible entry repeats an earlier one's socket |
| AfdPoll.ReadyPollReportsExactly | drivers/afd.c:806-834 | so a ready poll has a slot exactly when, for some socket, the first entry naming it asks for a bit that is up |
| AfdPoll.ReadyPollReportsNothing | drivers/afd.c:815-825 | the two-entry poll that is ready and reports nothing |
| AfdPoll.EvaluateEndsReady | drivers/afd.c:848-869 | evaluation ends exactly the ready polls, in list order, each with its report, and keeps the rest in order |
| AfdPoll.DrainRaisesHup | drivers/afd.c:489-499 | draining a ring raises, of the socket's own levels, exactly the deferred HUP |
| AfdPoll.EndWhereKeepsAnchors | drivers/afd.c:783-787 | whatever ends polls, a socket loses its main poll exactly when that poll ended |
| AfdPoll.DisplaceEndsOnlyTheMain | drivers/afd.c:2556-2566 | a new poll ends at most one parked poll: its anchor's main, when both are exclusive |
| AfdPoll.BecomesMainExactly | drivers/afd.c:2556-2596 | a parked poll becomes its anchor's main exactly when the anchor has none once displacement is done |
| AfdPoll.RunKeepsAnchors | drivers/afd.c:2556-2596 | in every reachable state a socket's main poll is a parked poll whose first entry is that socket |
| AfdPoll.DelaySentinelsExactly | drivers/afd.c:2606-2634 | the delay is 0 exactly when a poll is due, and the "none" value exactly when no deadline is finite or the quotient is the one that collides with it |
| AfdPoll.DelayCollides | drivers/afd.c:2606-2634 | one poll that is due 10000 * 0xfffffffe ticks ahead gets the answer "none" |
| AfdPoll.DelayReachesDeadline | drivers/afd.c:2606-2634 | below the collision, sleeping the delay passes the nearest deadline by more than 0 and at most 1 ms, and the tick then ends that poll; above it the sleep falls short |
| AfdPoll.TickEndsDue | drivers/afd.c:2639-2657 | a tick ends exactly the due polls, with the empty head, and never an infinite one |
| AfdDriver.Afd.PollTick | drivers/afd.c:2639-2657 | the tick's walk is that step and keeps the driver steady |
| AfdDriver.Afd.EndPolls | drivers/afd.c:848-869 | the walk that unlinks while it iterates ends exactly the polls it should |
| AfdDriver.Afd.ReportParked | drivers/afd.c:806-834 | the loop with the duplicate search writes the parked report |
| AfdDriver.Afd.Ask | drivers/afd.c:2459-2596 | the poll verb, inline, refused, displacing or parking, is the value step and keeps every parked poll's file open |
| AfdDriver.Afd.NextDelay | drivers/afd.c:2606-2634 | the search for the nearest deadline returns that delay |
| AfdPollOutcomes.PeerIsFirstTwin | drivers/afd.c:2037-2059 | the loopback peer is the first other listed, connected stream whose ports are this one's swapped |
| AfdPollOutcomes.WritableOutcome | drivers/afd.c:730-755 | a stream is writable unless less than half its send buffer is free or its loopback peer's ring is half full |
| AfdPollOutcomes.LevelOutcome | drivers/afd.c:702-776 | each bit of the level, by kind of socket, from the socket's fields; a dead one shows CLOSE alone |
| AfdPollOutcomes.VisibleOutcome | drivers/afd.c:806-834 | an entry sees the bits of its socket that it asks for, and CLOSE always |
| AfdPollOutcomes.InlineOutcome | drivers/afd.c:2512-2554 | the inline report is one slot for each visible entry, in order, with the entry's handle, its bits and the connect error if that bit is shown |
| AfdPollOutcomes.ParkedOutcome | drivers/afd.c:806-834 | the parked report is the same without the later entries of a socket |
| AfdPollOutcomes.DeadlineOutcome | drivers/afd.c:2575-2590 | a relative timeout counts from now, an absolute one is the deadline, the greatest LONGLONG is never |
| AfdPollOutcomes.VerbOutcome | drivers/afd.c:2459-2596 | a poll that sees something or does not wait is answered inline and changes nothing; any other waits last, with its deadline, once the poll it displaces has ended with success and no slot |
| AfdPollOutcomes.EndsOutcome | drivers/afd.c:783-834 | polls that end do so in list order, once, under their own ids with the given status; a failure leaves the caller's buffer alone |
| AfdCancel.FiltersMean | kernel/io/async.c:366-392 | the close filter matches every request, the thread-exit filter the thread's requests except those that report through a port alone |
| AfdCancel.SweepTakesMatches | drivers/afd.c:2785-2832 | a sweep leaves no match, keeps the order of the rest and returns the number of its completions, which is that of the matches; `AfdCancelOutcomes.SweepOutcome` says which they are |
| AfdCancel.CleanupLeavesNothing | drivers/afd.c:2844-2875 | after the handle's close nothing is parked on the socket, no poll watches it or was issued on its file, and no connection waits |
| AfdCancel.CloseIsReported | drivers/afd.c:2851-2856 | a poll watching a closing socket reports the close, asked for or not, even over a repeated socket |
| AfdCancel.ThreadExitSweeps | drivers/afd.c:3567-3584 | after a thread's exit no request of it is parked on a listed socket and no poll of it anywhere, but for the port-only ones |
| AfdDriver.Afd.Sweep | drivers/afd.c:2785-2832 | the three list walks, the connect slot and the poll walk are that sweep, with that count; what it completes is `AfdCancelOutcomes.SweepOutcome` and `AfdCancelOutcomes.SweptPollsOutcome` |
| AfdDriver.Afd.Cleanup | drivers/afd.c:2844-2875 | marking dead, evaluating and sweeping, in that order, are the value step |
| AfdDriver.Afd.Close | drivers/afd.c:2925-2944 | unlisting a cleaned-up socket strands no parked poll |
| AfdDriver.Afd.CancelThreadIo | drivers/afd.c:3567-3584 | the walk over the socket list sweeps each listed socket once |
| AfdCancelOutcomes.MatchesOutcome | kernel/io/async.c:366-392 | a filter's zero fields ask for nothing, and each other one has to be met |
| AfdCancelOutcomes.SweepOutcome | drivers/afd.c:2785-2832 | of each list and the connect slot the completions a sweep adds are, in list order, one for each matching request, with that request's id, the given status and count 0 |
| AfdCancelOutcomes.SweepKeeps | drivers/afd.c:2785-2832 | the other requests stay in order and nothing else of the socket changes |
| AfdCancelOutcomes.SweptPollsOutcome | drivers/afd.c:2819-2832 | the polls it ends are those issued on the file that match, each once, in order, with no report |
| AfdCancelOutcomes.SweptBoardOutcome | drivers/afd.c:3567-3584 | over the sockets a thread's exit walks, every poll that goes was parked, matches, and ends once, with the status and no report |
| AfdCancelOutcomes.CleanupOutcome | drivers/afd.c:2844-2875 | a close ends every receive, send, accept and connect of its socket, in order, with HANDLES_CLOSED |
| AfdCancelOutcomes.CleanupKeeps | drivers/afd.c:2857-2875 | it drops what waits to be accepted and lwIP's end, and leaves everything else |
| AfdCancelOutcomes.CleanupPollsOutcome | drivers/afd.c:2851-2865 | polls that the dead socket made ready end first, with success and their report, then those issued on its file, with HANDLES_CLOSED and none |
| AfdEvents.ReportedExactly | drivers/afd.c:2399-2434 | over every run a bit is reported exactly when it was raised since its last report and is in the current mask, with the last failing status it was raised with |
| AfdEvents.RunStaysArmed | drivers/afd.c:2351-2397 | a wanted outstanding edge keeps the armed event set, and an armed mask implies nonblocking mode |
| AfdEvents.EventLatch.RaiseEvent | drivers/afd.c:687-698 | an edge in place, with its status and the armed event, is the value step |
| AfdEvents.EventLatch.SetNonBlocking | drivers/afd.c:2436-2455 | so is the mode verb, refused while a mask is armed |
| AfdEvents.EventLatch.EventSelect | drivers/afd.c:2351-2397 | the verb is the value step |
| AfdEvents.EventLatch.GetEvents | drivers/afd.c:2399-2434 | so is the report |
| AfdEvents.RaiseOutcome | drivers/afd.c:687-698 | an edge makes its bit outstanding, keeps a failing status, and sets the armed event exactly if it is wanted |
| AfdEvents.SelectOutcome | drivers/afd.c:2351-2397 | selecting arms event and mask, turns blocking off and sets the event at once if a wanted edge is outstanding; without an event it disarms, or refuses a mask |
| AfdEvents.GetOutcome | drivers/afd.c:2399-2434 | a report has the wanted outstanding bits with all statuses, and takes exactly those off |
| AfdEvents.FionbioOutcome | drivers/afd.c:2436-2455 | the mode changes unless it would leave nonblocking mode under an armed mask |
| NsiTables.SnapIsATable | drivers/nsi.c:185-384 | every snapshot is at most eight rows of the table's sizes with pairwise different keys, for v6 unicast as long as no interface carries one address twice |
| NsiTables.BuildOnePerNetif | drivers/nsi.c:185-279 | the one-row-an-interface builders leave that snapshot, whose rows are those of `NsiRows.V4UnicastOutcome` and `NsiRows.IfinfoOutcome` |
| NsiTables.BuildV6Unicast | drivers/nsi.c:281-323 | the builder's nested loops leave that snapshot |
| NsiTables.BuildV4Forward | drivers/nsi.c:353-384 | so do the forward builder's, within the array |
| NsiRows.LuidOutcome | drivers/nsi.c:123-140 | a luid in memory: the 24-bit index at byte 3 and the interface type, 24 for the loopback and 6 for Ethernet, at byte 6 |
| NsiRows.V4UnicastOutcome | drivers/nsi.c:243-279 | the IPv4 address table is one row for each interface with a nonzero address, in list order, up to eight; each key has that interface's luid at 0 and its little-endian address at 8 |
| NsiRows.IfinfoOutcome | drivers/nsi.c:185-241 | the interface table is one row an interface, up to eight, keyed by its luid |
| NsiRows.V6UnicastOutcome | drivers/nsi.c:281-323 | each valid IPv6 slot has its row, behind those of the valid slots before it, up to eight, with the luid at 0 and the 16 address bytes at 8 |
| NsiRows.ForwardKeyOutcome | drivers/nsi.c:325-351 | a route's key: prefix at 4, its length at 8, the luid at 24 and 32, the next hop at 40, zeros between |
| NsiRows.V4ForwardOutcome | drivers/nsi.c:353-384 | an interface with an address has its net's route and behind it, exactly if it is no loopback and has a gateway, the default route through it; the builder stops at the interface where three more rows might not fit |
| NsiRows.V6ForwardOutcome | drivers/nsi.c:385-392 | the IPv6 route table is empty |
| NsiRows.V6UnicastCount | drivers/nsi.c:281-323 | the IPv6 address table has as many rows as there are valid slots, up to eight |
| NsiVerbs.ValidStridesDoNotWrap | drivers/nsi.c:452-459 | a request that passes the stride check did not wrap the 32-bit sum its length check used |
| NsiVerbs.EnumerationDecodes | drivers/nsi.c:483-553 | every cell of every requested column is in bounds and holds that part of its row, or zero past the rows written |
| NsiVerbs.ProbeThenEnumerate | drivers/nsi.c:483-553 | a zero-stride probe returns how many rows there are; asking for that many brings all with success, fewer brings the first ones with BUFFER_OVERFLOW |
| NsiVerbs.LookupsAgreeWithEnumeration | drivers/nsi.c:555-662 | by the key cell of any enumeration, a get-all answers with the parts it asks for and a get-parameter with its slice, whatever columns either leaves out; a part both asked for is the enumerated cell |
| NsiVerbs.GetAllOfUnknown | drivers/nsi.c:555-609 | a get-all answers OBJECT_NAME_NOT_FOUND exactly on a key no row has |
| NsiVerbs.GetParameterOfUnknown | drivers/nsi.c:611-662 | so does a get-parameter |
| NsiVerbs.SnapIsSound | drivers/nsi.c:185-384 | every list of interfaces lwIP can hold meets the lookups' premise |
| NsiVerbs.EnumerateAll | drivers/nsi.c:483-553 | the verb fills the caller's buffer with that layout and leaves it alone when it refuses |
| NsiVerbs.GetAllParameters | drivers/nsi.c:555-609 | the verb writes the requested parts of the row at the front and nothing else |
| NsiVerbs.GetOneParameter | drivers/nsi.c:611-662 | the verb writes exactly the slice asked for |
| NsiOutcomes.DirectoryOutcome | drivers/nsi.c:411-450 | which module and number name which table, and each table's four sizes |
| NsiOutcomes.EnumRefusals | drivers/nsi.c:483-515 | an enumeration is refused exactly on an absent input, an unknown table, a stride that is neither zero nor the table's, or a buffer too short |
| NsiOutcomes.EnumerationBytes | drivers/nsi.c:516-553 | the i-th row's part stands at its column's base plus i strides: keys from 4, then rw, dynamic and static, each column as long as the caller's count |
| NsiOutcomes.LeadingWord | drivers/nsi.c:516-553 | the first four bytes are how many rows were written, or, with all strides zero, how many there are |
| NsiOutcomes.NothingBehind | drivers/nsi.c:509-553 | the rest of the caller's buffer is zero |
| NsiOutcomes.TotalLength | drivers/nsi.c:488-494 | the length the verb answers is the leading word's and that of all cells |
| NsiOutcomes.GetAllRefusals | drivers/nsi.c:555-585 | a get-all is refused exactly on these inputs |
| NsiOutcomes.GetParameterRefusals | drivers/nsi.c:611-645 | a get-parameter is refused exactly on these |
| NsiOutcomes.PartsOutcome | drivers/nsi.c:625-645 | which part of a row each parameter type names |
| Pci.WalkIsComplete | drivers/pci.c:134-156 | for every configuration space, cyclic lists included, the walk returns the first reachable node with the id, and 0 exactly when none is reachable |
| Pci.ReachedWithinLimit | drivers/pci.c:143-146 | 64 links show every reachable node |
| Pci.ResumeEnumerates | drivers/pci.c:134-156 | on a list that ends, however long, asking again from the last answer yields every match, in list order, none twice |
| Pci.EndingNodesDiffer | drivers/pci.c:143-154 | a list that ends visits no node twice |
| Pci.FindCapabilityLoop | drivers/pci.c:134-156 | the loop is that search, which `Pci.FindCapabilityOutcome` states on the bytes |
| Pci.FindCapabilityOutcome | drivers/pci.c:134-156 | from the bytes: with bit 4 of byte 0x06 clear the answer is 0; otherwise it is the first matching node of the list that starts at byte 0x34, or at the byte behind the previous answer, with the low two bits cleared, and 0 exactly when no node matches |
| Pci.NodesAreLinks | drivers/pci.c:143-154 | the nodes of that list, link by link |
| Pci.NarrowReads | drivers/pci.c:29-37 | the shifted and cut port reads are the bytes at the offset |
| Pci.CallsAreGood | drivers/pci.c:175-193 | over any sequence of calls the returned ranges are pairwise disjoint, and each address translates to its physical range byte for byte, then and after every later call |
| Pci.MmioWindow.Map | drivers/pci.c:175-193 | the page loop maps exactly the pages under the range at the cursor |
| Pci.MapOutcome | drivers/pci.c:175-193 | a call returns the cursor plus the offset within the page, and moves the cursor by the whole pages that the range touches |

## Left out

- CondrvBroker.DeliveredInOrder: request ids are unbounded; the 64-bit counter's wrap is not modelled.
- CondrvSteps.NextSound: assumes the pin the driver's comment assumes, that an open or binding outlives the client frames that rely on it.
- AfdStream.RunKeepsCredit: the loopback urgent-data path puts bytes into a peer's ring outside the window and is not a step of these runs.
- AfdSend.SendSplit: covers sends issued while nothing is parked; `AfdSend.InlineOvertakesExactly` says what else can happen. That a parked send is ever continued is not claimed.
- AfdSend.StreamSender.SendCommon: the loopback frames pumped between the push and the park (drivers/afd.c:2169) count as edges before or after the verb; no recheck follows the park, so such an edge can leave a parked send that could move.
- AfdDriver.Afd.SocketReady: sockets are values in a table rather than linked heap objects, and an acceptor is assumed to exist; its lifetime, which drivers/afd.c:3235-3239 leaves unguarded, is not modelled. Two sockets' lwIP ends are never the same one.
- AfdDriver.Afd.SocketReady: not for a socket with a send parked beside an outstanding connect, which only a graft onto a connecting acceptor makes possible; `AfdSpin.SpinsForeverExactly` says when its drain ends.
- AfdDriver.Afd.Ask: starts after the entries' handles are resolved; an unresolvable handle and a failed allocation refuse before any state changes.
- AfdEvents.RunStaysArmed: the armed event belongs to one socket and nobody else resets it.
- Pci.CallsAreGood: address sums do not wrap 64 bits.
- NsiTables.SnapIsATable: what the rw, dynamic and static records contain is a parameter; only keys and sizes are built.
- lwIP, pool, object manager, page tables, user-copy probes and timers are arbitrary answers or plain maps.
- The v6 forward table, which the driver holds empty, has no builder of its own.
- Socket options, names, bind, listen and shutdown: one branch or one flag each.
- The port-pair search for a loopback peer is modelled in poll levels only.
- The serial console stream, framebuffer, HID, disk, sound and USB drivers.
- The bus scans of drivers/pci.c:51-132 and BAR decoding.
