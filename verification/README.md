# clsocket: a verified model

clsocket wraps Berkeley sockets in three C++ classes. The system calls themselves are foreign
code, but the library keeps state around them: a descriptor, a receive buffer, an error code, a
copy of the blocking mode, the address of the last peer. It also repeats interrupted calls,
copies files and vectors in pieces, and cleans up after failures. This project models that
layer, and the two echo programs built on it, and proves what they do for every answer the
system can give. Where a theorem holds only of calls that no signal interrupts, its contract says
so (`Undisturbed`, `Endpoint`).

Check everything with `dafny verify dfyconfig.toml`.

## How the model is built

- `Posix.dfy` is the operating system as the library sees it. An `Env` holds `errno`, the
  descriptor table, waiting connections and datagrams, an open file, the heap, a clock, and a
  trace of what was sent, received, closed and freed. What the system answers is a `script`, one reply per
  call; every theorem quantifies over all scripts. A failing call stores a non-zero `errno`, a
  successful call leaves `errno` alone. A call that returns uses finitely many replies, and a
  script that is used up answers EBADF, so every loop ends and no theorem needs to assume it.
  The clock moves on by any amount before each reading.
- `SocketModel.dfy` gives each operation of the library as a function on the object state `Sock`
  and `Env`. `Sockets.dfy` has the classes: fields, loops and statements as in the source, each
  method proved to do what the function of the same name says. `Send` is virtual, so one class
  carries a `role` that selects the override of the passive class.
- `Retry.dfy`, `Transfers.dfy`, `Setup.dfy`, `Datagrams.dfy`, `FileCopy.dfy` state what single
  operations mean. `Lifecycle.dfy` is about every sequence of operations on one object, and
  `Timing.dfy` about what the object's timer shows along such a sequence.
- `ServeEcho.dfy` is every run of `examples/EchoServer.cpp`. `AsyncEcho.dfy` is every interleaving
  of the two threads of `examples/RecvAsync.cpp` as an abstract system; it assumes FIFO delivery
  and that no call is interrupted by a signal. `EchoRefinement.dfy` shows that the two loops, run
  on the modelled sockets under the same assumption, are runs of that system.
- `ByteOrder.dfy` and `StatTimer.dfy` are arithmetic.

Idealisations: descriptor and block numbers are handed out in order and not reused, so that a
number identifies its connection or allocation; fresh memory is shown as zeros, and no claim
mentions its contents; byte counts are unbounded integers, so results hold for buffers and totals
below 2^31 bytes; a new object's timer is shown as zero, and no claim is about a timer that no
operation has started; name lookup and address parsing are parameters.

## Where the code departs from its documentation

The model follows the code. Each departure is a theorem, with the exact condition under which the
documented behaviour holds.

- The send and receive loops do not clear `errno`. An EINTR left by an earlier call, or one
  interruption, makes them repeat successful calls until another error occurs
  (`Retry.ReportedSuccessIff`, `Retry.SendLoopClosedForm`, `Retry.WrittenAgreesWithClearedIff`,
  `Transfers.InterruptedSendDuplicates`). `Accept` clears it and is exactly-once.
  `Transfers.SendHonestIff` says exactly when Send puts on the wire what it reports, and
  `Datagrams.DatagramSendHonestIff` when a datagram goes out as often as reported.
- For the same reason a Receive that returns -1 may have taken bytes or datagrams, which are then
  lost (`Transfers.InterruptedReceiveLoses`, `Transfers.FailedReceiveTakes`,
  `Transfers.ReceiveHonestIff`, `Datagrams.FailedDatagramReceiveTakes`).
- A retried TCP `recv` moves its buffer by the previous return value
  (`Transfers.InterruptedReceiveMisplaced`, `Transfers.RetriedReceiveOverwrites`,
  `Transfers.WindowsInsideIff`).
- `SendFile` starts counting at -1: it sends one byte more than it reports, and cannot copy up to
  the end of a file (`FileCopy.SendFileSendsOneMore`, `FileCopy.WholeFileNeverSucceeds`,
  `FileCopy.WrittenRepeatsByte`).
- `Select` looks at the descriptor sets also when the system call failed, and so can a polled
  `Open` (`Setup.SelectTrueIff`, `Setup.OpenTcpIff`, `Setup.FailedSelectReportsReady`).
- A successful `Accept` does not set the listener's error to Success (`Setup.ListenerErrorIff`,
  `Setup.AcceptLeavesInterrupted`), a successful `Listen` may report an ignored option failure
  (`Setup.ListenCleanErrorIff`, `Setup.ListenReportsIgnoredFailure`), and a failing `BindMulticast`
  may report the error of its clean-up (`Setup.JoinFailureReportIff`, `Setup.JoinReportsCleanUp`).
- Where the vector send goes through the library's own `Writev` (src/Host.h:173), it never returns
  -1 (`Transfers.VectorNeverFails`).
- `BindMulticast` starts its timer at its end, so the elapsed time it leaves is minus the wall
  clock (`Timing.JoinTiming`, `Timing.LastTimedOperationShows`).
- A second `Initialize` leaks the descriptor (`Lifecycle.NoDescriptorLeakIff`,
  `Lifecycle.SecondInitializeLeaks`) and can leave the blocking mode wrong (`Lifecycle.MirrorIff`,
  `Lifecycle.ReinitializeBreaksMirror`).
- `Flush` can leave TCP_NODELAY changed (`Transfers.FlushRestoresIff`,
  `Transfers.FlushLeavesNoDelay`).
- The echo server of `examples/RecvAsync.cpp` tests its running total instead of the last receive
  (`AsyncEcho.ServerLeavesIff`, `AsyncEcho.CompletionIff`, `AsyncEcho.FailureCanLoseByte`).

## Model

| member | source | states |
|---|---|---|
| `Retry.Translate` | src/SimpleSocket.cpp:948-1011 | which `errno` values give Success, Interrupted, Ewouldblock and Einprogress, each exactly one, and three codes that no `errno` gives |
| `Retry.TranslateClasses` | src/SimpleSocket.cpp:948-1011 | for every other code of the library, exactly the `errno` values that it stands for |
| `Retry.RetryTrace` | src/SimpleSocket.cpp:402-406 | the loop goes on exactly while `errno` reads EINTR, whoever stored it, and how each attempt's offset follows from the one before |
| `Retry.StickyInterrupt` | src/SimpleSocket.cpp:402-406 | once `errno` reads EINTR the loop ends only through a failure of another kind, so the result is -1 |
| `Retry.SingleAttemptIff` | src/SimpleSocket.cpp:437-441 | exactly when one system call is issued, for all four retried calls |
| `Retry.ReportedSuccessIff` | src/SimpleSocket.cpp:402-406 | a success is reported iff `errno` was not EINTR on entry and the first answer is a success; it was then one call |
| `Retry.SendLoopClosedForm` | src/SimpleSocket.cpp:402-406 | number of calls, result and delivered bytes of the stream send loop as a function of the script, for every script |
| `Retry.SendToLoopClosedForm` | src/SimpleSocket.cpp:435-441 | number of calls, result and number of accepted datagrams of the datagram send loop, for every script |
| `Retry.RecvLoopClosedForm` | src/SimpleSocket.cpp:763-768 | number of calls, result and remaining stream of the stream receive loop, for every script |
| `Retry.RecvFromLoopClosedForm` | src/SimpleSocket.cpp:780-795 | result and remaining datagrams of the datagram receive loops, for every script |
| `Retry.LoopErrno` | src/SimpleSocket.cpp:402-406 | the `errno` a send or stream receive loop leaves: the old one after a success, else that of the first failure other than EINTR |
| `Retry.DrainErrno` | src/SimpleSocket.cpp:780-795 | the same for the datagram receive loops, where an empty queue ends the loop too |
| `Retry.ClearedExactlyOnce` | src/PassiveSocket.cpp:241-269 | with `errno` cleared, every attempt but the last was interrupted and moved nothing, and the last one decides |
| `Retry.ClearedIsOneAttempt` | src/PassiveSocket.cpp:241-269 | the clearing loop equals one call made after the leading interruptions |
| `Retry.WrittenAgreesWithClearedIff` | src/SimpleSocket.cpp:437-441 | exact condition on entry `errno` and script under which the loop as written makes the attempts of the clearing loop, for all four retried calls |
| `Retry.StaleReceiveZeros` | src/SimpleSocket.cpp:763-768 | with `errno` at EINTR, every recv before the last returns 0 iff every reply before the first other failure grants a receive that moves nothing |
| `Transfers.SendEffect` | src/SimpleSocket.cpp:382-411 | every path of a stream send: the wire gains the attempts' bytes in order, other streams and tables are untouched, guards stop before the system |
| `Transfers.SendDeliversOnceIff` | src/SimpleSocket.cpp:382-411 | when Send reports a delivery, that the reported prefix is then on the wire once, and when the error is Success |
| `Transfers.FailedSendDelivered` | src/SimpleSocket.cpp:402-406 | what a Send that returns -1 has delivered all the same, and exactly when that is nothing |
| `Transfers.SendHonestIff` | src/SimpleSocket.cpp:382-411 | exact condition on entry `errno` and script under which Send puts on the wire what it reports |
| `Transfers.SendReports` | src/SimpleSocket.cpp:382-454 | result, count and error of every path of Send: the error is that of the reply that ended the loop, or of the `errno` found on entry |
| `Transfers.SendStops` | src/SimpleSocket.cpp:391-393 | without a valid handle, a buffer and a size no Send reaches the system, of either class |
| `Transfers.SendProceeds` | src/SimpleSocket.cpp:402-406 | with all three, a Send on a stream or datagram socket makes at least one call |
| `Transfers.IntendedSendDeliversOnce` | src/SimpleSocket.cpp:398-406 | the documented resend, on every script: delivered once and reported, or not delivered and -1 |
| `Transfers.InterruptedSendDuplicates` | src/SimpleSocket.cpp:402-406 | a script on which one byte is delivered twice and -1 returned |
| `Transfers.WindowsInsideIff` | src/SimpleSocket.cpp:763-768 | the recv windows stay inside the buffer iff `errno` is not EINTR and the first reply is no interruption, or `errno` is EINTR and every reply before the first other failure moves nothing |
| `Transfers.InterruptedReceiveMisplaced` | src/SimpleSocket.cpp:763-768 | after one interruption the second recv window starts one byte before the buffer |
| `Transfers.RetriedReceiveOverwrites` | src/SimpleSocket.cpp:763-768 | a script on which a retried recv stores a later byte over an earlier one in the caller's buffer |
| `Transfers.ReceivePlacesStream` | src/SimpleSocket.cpp:713-822 | a reported receive took its bytes from the front of the stream in one call and GetData starts with them |
| `Transfers.ReceiveFillsCaller` | src/SimpleSocket.cpp:722-766 | a reported receive into the caller's buffer stores the front of the stream at its start and touches neither its rest nor the internal buffer |
| `Transfers.ReceiveReports` | src/SimpleSocket.cpp:713-822 | result, count and error of every path of Receive, for streams, datagrams, other kinds and invalid objects |
| `Transfers.ReceiveAllocatesIff` | src/SimpleSocket.cpp:725-748 | exactly when the internal buffer is allocated anew |
| `Transfers.FailedReceiveFrees` | src/SimpleSocket.cpp:812-819 | a failing Receive leaves no internal buffer, also with a caller's buffer |
| `Transfers.ReceiveConserves` | src/SimpleSocket.cpp:713-822 | on every path the bytes taken by the calls of a Receive and the bytes left make up the old stream |
| `Transfers.FailedReceiveTakes` | src/SimpleSocket.cpp:763-768 | what a Receive that returns -1 leaves of the stream, and exactly when that is all of it |
| `Transfers.ReceiveHonestIff` | src/SimpleSocket.cpp:713-822 | exact condition on entry `errno` and script under which Receive takes from the stream what it reports |
| `Transfers.InterruptedReceiveLoses` | src/SimpleSocket.cpp:763-768 | a script on which the one waiting byte is taken, -1 returned and no buffer left |
| `Transfers.FailedReceiveSendsNothing` | examples/EchoServer.cpp:29-36 | handing the result of a failed Receive to Send never reaches the system, on any script |
| `Transfers.FlushInvisible` | src/SimpleSocket.cpp:514-549 | Flush adds nothing to any stream on any path |
| `Transfers.FlushRestoresIff` | src/SimpleSocket.cpp:524-545 | exactly when TCP_NODELAY ends with its original value |
| `Transfers.FlushLeavesNoDelay` | src/SimpleSocket.cpp:524-545 | a script on which Flush turns TCP_NODELAY on and leaves it on |
| `Transfers.FlushTrueIff` | src/SimpleSocket.cpp:514-549 | exactly when Flush returns true, and the error it leaves |
| `Transfers.SendEachWire` | src/SimpleSocket.cpp:567-575 | the loop of Writev sends a prefix of each buffer in order and totals their lengths; stopping early means the last Send failed |
| `Transfers.NoGapIsPrefix` | src/SimpleSocket.cpp:567-575 | without a short send before a non-empty one the wire is a prefix of the concatenation |
| `Transfers.GrantedVectorSendsAll` | src/SimpleSocket.cpp:567-575 | with a granting system the whole vector is on the wire, in order and once |
| `Transfers.VectorNeverFails` | src/SimpleSocket.cpp:591-602 | where the vector goes through the library's own Writev, it returns no -1, for every socket and every script |
| `Transfers.VectorRefinesFlat` | src/SimpleSocket.cpp:591-602 | undisturbed, the vector send refines one flat send, and reports its total although Flush resets the count |
| `Transfers.GrantedVectorFlushes` | src/SimpleSocket.cpp:577-580 | after a granted vector the three calls of Flush follow the sends, and exactly when they leave TCP_NODELAY changed |
| `Transfers.FailedVectorStops` | src/SimpleSocket.cpp:569-580 | a vector whose first Send fails is not flushed, returns 0 and reports the failure |
| `FileCopy.PumpEmits` | src/SimpleSocket.cpp:918-933 | the copy loop emits the next bytes of the file in the least number of blocks of at most 8192, or a prefix on failure |
| `FileCopy.SendFileOutcome` | src/SimpleSocket.cpp:906-940 | return value, new offset and emitted segment of every call, for both counter starts |
| `FileCopy.BlocksForIs` | src/SimpleSocket.cpp:918-933 | the number of sends of a copy is its number of bytes divided by 8192, rounded up |
| `FileCopy.SendFileSendsOneMore` | src/SimpleSocket.cpp:908-940 | a successful call emits count+1 bytes and advances by count |
| `FileCopy.WholeFileNeverSucceeds` | src/SimpleSocket.cpp:922-925 | copying up to the end of the file returns -1 on every script |
| `FileCopy.NegativeCountMovesOffset` | src/SimpleSocket.cpp:918-939 | a negative count sends nothing, returns -1 and moves the offset back by one |
| `FileCopy.SendFileSucceedsIff` | src/SimpleSocket.cpp:906-940 | with a granting system, success iff the file has the bytes that are read |
| `FileCopy.FinishedCopy` | src/SimpleSocket.cpp:915-939 | SendFile runs to its end iff it succeeds, and then no call has failed |
| `FileCopy.DocumentedComposes` | src/SimpleSocket.h:244-256 | two documented copies in a row send what one copy of the sum sends |
| `FileCopy.WrittenRepeatsByte` | src/SimpleSocket.cpp:935-939 | the same two calls as written repeat the byte at the seam |
| `Setup.InitializeCloseRoundTrip` | src/SimpleSocket.cpp:136-159 | a granted Initialize followed by a granted Close leaves the descriptor table as it was, with error Success and the one descriptor closed once |
| `Setup.RefusedInitialize` | src/SimpleSocket.cpp:136-159 | a refused Initialize leaves an invalid object that reports the refusal, and the system as it was |
| `Setup.CloseOutcome` | src/SimpleSocket.cpp:462-490 | exactly when Close succeeds, and error, handle, buffer and descriptor table of both outcomes |
| `Setup.SecondCloseFails` | src/SimpleSocket.cpp:462-490 | after a Close that succeeded a second one fails without reaching the system |
| `Setup.DestroyClosesUnlessSimple` | src/ActiveSocket.h:59-61 | deleting an active or passive object closes its descriptor, deleting one of the base class does not |
| `Setup.ListenOutcome` | src/PassiveSocket.cpp:130-206 | bound address by cases of the argument; result, error, buffer and handle of Listen in terms of the replies to bind, listen and the cleaning close; what a true result guarantees |
| `Setup.ListenCleanErrorIff` | src/PassiveSocket.cpp:146-197 | exactly when a successful Listen reports Success, and what it reports otherwise |
| `Setup.ListenReportsIgnoredFailure` | src/PassiveSocket.cpp:146-197 | a script on which Listen succeeds and reports a reset connection |
| `Setup.JoinFailureReportIff` | src/PassiveSocket.cpp:66-121 | bound address by cases of the argument; result of BindMulticast in terms of the replies to bind and join, and exactly when a failure is reported as such, in terms of the reply to the cleaning close |
| `Setup.JoinReportsCleanUp` | src/PassiveSocket.cpp:114-119 | a script on which BindMulticast reports the failure of its clean-up and keeps the handle |
| `Setup.AcceptExactlyOnce` | src/PassiveSocket.cpp:227-280 | when Accept returns a socket, that exactly one connection is taken, what the object holds and what the listener reports, and that otherwise nothing changes but the error |
| `Setup.ListenerErrorIff` | src/PassiveSocket.cpp:246-267 | exactly when the listener's own error is Success after a successful Accept |
| `Setup.AcceptOnlyOnStreams` | src/PassiveSocket.cpp:221-225 | Accept on another kind of socket fails with ProtocolError and makes no call |
| `Setup.AcceptUses` | src/PassiveSocket.cpp:248-261 | which replies a successful Accept uses up, and the ignored failures that it leaves in `errno` |
| `Setup.AcceptLeavesInterrupted` | src/PassiveSocket.cpp:246-267 | a script on which a successful Accept leaves the listener reporting Interrupted |
| `Setup.SelectTrueIff` | src/SimpleSocket.cpp:1149-1187 | true in terms of the replies to select and SO_ERROR, with the true results of a failed select; the error of every result |
| `Setup.FailedSelectReportsReady` | src/SimpleSocket.cpp:1156-1182 | an interrupted select that is reported as ready |
| `Setup.OpenTcpIff` | src/ActiveSocket.cpp:252-310 | a TCP Open in terms of the replies to connect, select and SO_ERROR, with the extra true results of a failed select; then the target is the address looked up, and the object has error Success, the same handle, the peer's address as getpeername tells it and its own as getsockname does |
| `Setup.OpenUdpTrueIff` | src/ActiveSocket.cpp:134-186 | a UDP Open succeeds iff its arguments and the lookup are good and connect succeeds; what it leaves is as for TCP |
| `Setup.OpenFailureReports` | src/ActiveSocket.cpp:252-310 | the error and the server address of every false result of Open, by arguments, lookup and replies |
| `Setup.OpenPollsIff` | src/ActiveSocket.cpp:111-117 | exactly when Open polls, and with which timeout |
| `Setup.OpenWaitsAsTold` | src/SimpleSocket.h:341-345 | over every run a polled connect waits as the last SetConnectTimeout says, and one second if there was none |
| `Lifecycle.BufferConservation` | src/SimpleSocket.cpp:726-748 | over every run of operations the internal buffer is the only live allocation, has the recorded size, and every other block was freed exactly once |
| `Lifecycle.NoBlockOutlivesObject` | src/SimpleSocket.h:151-158 | from construction to destruction nothing leaks and nothing is freed twice |
| `Lifecycle.NoDescriptorLeakIff` | src/SimpleSocket.cpp:151-158 | along a run the open descriptors are exactly the object's own iff Initialize is never called on a valid socket |
| `Lifecycle.SecondInitializeLeaks` | src/SimpleSocket.cpp:151-158 | two granted calls of Initialize on a new object leave two descriptors open, one of them held by nobody |
| `Lifecycle.SetModeFlags` | src/SimpleSocket.cpp:830-898 | a mode change succeeds iff both fcntl calls are granted, touches O_NONBLOCK of its descriptor or nothing, and no other descriptor; the error of a failure |
| `Lifecycle.FlagsConservation` | src/SimpleSocket.cpp:830-898 | over every run of operations no flag of any descriptor changes but O_NONBLOCK, and that only on the object's own |
| `Lifecycle.SendFileReports` | src/SimpleSocket.cpp:906-940 | which error a SendFile leaves in the object: a failing copy leaves the old one |
| `Lifecycle.MirrorIff` | src/SimpleSocket.cpp:830-898 | along a run the blocking mirror is right iff no Initialize succeeds while it says non-blocking |
| `Lifecycle.ReinitializeBreaksMirror` | src/SimpleSocket.cpp:830-861 | Initialize, SetNonblocking and Initialize, all granted, leave a blocking descriptor that the object takes for non-blocking |
| `Lifecycle.InitOnceMirrors` | src/SimpleSocket.cpp:45-51 | a fresh object initialised once keeps the mirror right for ever |
| `Lifecycle.ConnectPollsOnlyNonblocking` | src/ActiveSocket.cpp:111-116 | after such runs a connect polls only a descriptor that really is non-blocking |
| `Datagrams.RepliesGoToLastSender` | src/PassiveSocket.cpp:294-318 | over every run of a passive UDP socket a Send that passes its guards issues one datagram to the source of the latest unicast datagram |
| `Datagrams.PassiveSendErrorIff` | src/PassiveSocket.cpp:296-320 | the error of a datagram reply is its own and not a stale `errno`; a guarded call reports nothing sent |
| `Datagrams.PassiveDatagramOutcome` | src/PassiveSocket.cpp:294-327 | on every script one attempt: granted, the datagram went out once to the last client and its size is result and count; refused, nothing went out |
| `Datagrams.ReceivePlacesDatagram` | src/SimpleSocket.cpp:772-798 | a reported receive took the oldest datagram, its bytes and its source |
| `Datagrams.MulticastDirectsSource` | src/SimpleSocket.cpp:197-220 | result and error of SetMulticast, and that also a failing one decides whether the next received source goes to the group or to the client address |
| `Datagrams.MulticastOnlyOnDatagrams` | src/SimpleSocket.cpp:197-220 | SetMulticast on another kind of socket fails with ProtocolError and changes no mode |
| `Datagrams.DatagramFillsCaller` | src/SimpleSocket.cpp:772-798 | a reported receive into the caller's buffer stores the front of the oldest datagram at its start, touches neither its rest nor the internal buffer, and stores the source |
| `Datagrams.OpenDirectsDatagrams` | src/ActiveSocket.cpp:294-305 | after a true UDP Open all datagrams of the next Send carry the address that getpeername told, and a granted one goes out once |
| `Datagrams.DatagramSendCopies` | src/SimpleSocket.cpp:413-446 | result of a datagram Send and how many copies of the datagram the system accepts, for every script |
| `Datagrams.DatagramSendHonestIff` | src/SimpleSocket.cpp:435-441 | exact condition on entry `errno` and script under which that is one copy for a success and none for a failure |
| `Datagrams.InterruptedDatagramDuplicates` | src/SimpleSocket.cpp:435-441 | a script on which the datagram goes out twice and -1 is returned |
| `Datagrams.FailedDatagramReceiveTakes` | src/SimpleSocket.cpp:772-798 | when a datagram Receive succeeds, how many datagrams a failing one has taken, and exactly when none |
| `Datagrams.StaleInterruptDropsDatagram` | src/SimpleSocket.cpp:780-795 | a script on which the one waiting datagram is taken and -1 returned |
| `ServeEcho.ServeClientCloses` | examples/EchoServer.cpp:29-38 | a client's descriptor is closed by exactly one successful call, or every close failed |
| `ServeEcho.ServeClientFrees` | examples/EchoServer.cpp:29-38 | serving a client leaves the heap as it was |
| `ServeEcho.ServeClientEchoesAll` | examples/EchoServer.cpp:29-36 | if receive and send are granted the client gets back exactly what the receive yielded |
| `ServeEcho.ServerConserves` | examples/EchoServer.cpp:22-40 | descriptors and heap are conserved at every loop head of every run |
| `ServeEcho.ServerLeaksNothing` | examples/EchoServer.cpp:22-40 | if no close failed, only the descriptors of the start are open and each accepted one was closed once |
| `ServeEcho.ServerEchoes` | examples/EchoServer.cpp:29-36 | over interruption-free runs each client is sent a prefix of what it sent |
| `ServeEcho.GenerousPass` | examples/EchoServer.cpp:22-40 | one granted pass of the loop sends the new descriptor the front of the accepted peer's stream and closes it |
| `ServeEcho.ServerEchoesEveryone` | examples/EchoServer.cpp:22-40 | over any number of granted passes every waiting client is sent the front of its stream, in order of arrival, and only the descriptors of the start are open |
| `AsyncEcho.EchoConservation` | examples/RecvAsync.cpp:36-44 | in every reachable state the bytes around are a subsequence of the payload, and the payload itself iff no step so far was a short server send or brought the server's total to 0 by a receive |
| `AsyncEcho.FaultFreeConservation` | examples/RecvAsync.cpp:36-44 | in every interleaving with full sends and no failed receive, the bytes around are the payload in every reachable state |
| `AsyncEcho.ClientLeavesWithPayload` | examples/RecvAsync.cpp:83-98 | the client leaves its loop, or reaches the payload's length, only with the whole payload in order |
| `AsyncEcho.ServerLeavesIff` | examples/RecvAsync.cpp:38-44 | in every reachable state after the client's send, the server can still leave its loop iff that send took the whole payload and no receive of the server has failed |
| `AsyncEcho.ProductiveStepsBounded` | examples/RecvAsync.cpp:36-98 | no run from the start makes more than three productive steps for each byte of the payload, less what its end still has to go |
| `AsyncEcho.NeverStuck` | examples/RecvAsync.cpp:38-98 | in a lossless state with an incomplete client whose server total cannot become 0 by receiving single bytes (`TotalAvoidsZero`), a productive step is enabled that keeps all of this |
| `AsyncEcho.FaultFreeNeverStuck` | examples/RecvAsync.cpp:38-98 | in every run with full sends and no failed receive, a client that sent everything and is incomplete has a productive step ahead that drops nothing |
| `AsyncEcho.CompletionIff` | examples/RecvAsync.cpp:36-98 | in every reachable state the client can still complete iff its send took the whole payload and no step so far dropped a byte |
| `AsyncEcho.FailureCanLoseByte` | examples/RecvAsync.cpp:40-43 | a failed receive that makes the total 0 loses a byte for good |
| `EchoRefinement.ServerPassRefines` | examples/RecvAsync.cpp:38-44 | the server's loop body on the modelled socket is a sequence of abstract server actions, with the same total and the same bytes on the wire, and can be chained |
| `EchoRefinement.ClientTurnRefines` | examples/RecvAsync.cpp:83-98 | the client's loop body on the modelled socket is an abstract client action |
| `EchoRefinement.ServerPassOnReplies` | examples/RecvAsync.cpp:38-44 | one pass of the server's loop in terms of the two replies: total, remaining stream and exactly the bytes sent back |
| `EchoRefinement.ClientTurnOnReply` | examples/RecvAsync.cpp:83-98 | one pass of the client's loop in terms of its reply: what it has and what is left in its stream |
| `EchoRefinement.PlayRefines` | examples/RecvAsync.cpp:38-98 | every interleaving of any number of passes of both loops is a run of the abstract system |
| `EchoRefinement.SocketsEchoPayload` | examples/RecvAsync.cpp:79-98 | on the modelled sockets, undisturbed, a client that leaves its loop has received exactly the payload |
| `EchoRefinement.SentRefines` | examples/RecvAsync.cpp:76-83 | the client's Send is an abstract client action, and a result of 0 keeps the client out of its loop |
| `EchoRefinement.SocketsEchoEverything` | examples/RecvAsync.cpp:36-98 | with granting replies, in every interleaving with enough turns of the server and then of the client, the client ends with the payload |
| `ByteOrder.SwapReversesBytes` | src/Host.h:143-144 | htonll reverses the eight bytes and its addition never carries |
| `ByteOrder.SwapRoundTrip` | src/Host.h:143-144 | htonll and ntohll undo each other |
| `StatTimer.ElapsedExact` | src/StatTimer.h:105-106 | elapsed time is the true difference modulo 2^32, and exact iff below it |
| `StatTimer.ElapsedAdds` | src/StatTimer.h:105-106 | adjacent intervals add up modulo 2^32 |
| `StatTimer.ShownStamps` | src/StatTimer.h:94 | two stamps of the clock show the time between them modulo 2^32, a start without an end shows minus the clock |
| `StatTimer.Timer.GetMicroSeconds` | src/StatTimer.h:94 | difference of the timestamps in microseconds modulo 2^32 |
| `StatTimer.Timer.GetMilliSeconds` | src/StatTimer.h:93 | elapsed time rounded down to milliseconds |
| `StatTimer.Timer.GetSeconds` | src/StatTimer.h:95 | elapsed time rounded down to seconds |
| `Timing.SendTiming` | src/SimpleSocket.cpp:382-411 | a Send of either class reads the clock twice and leaves both readings iff it passes its guards; otherwise clock and timer are as before |
| `Timing.ReceiveTiming` | src/SimpleSocket.cpp:713-822 | the same for Receive, iff the socket is valid |
| `Timing.ListenTiming` | src/PassiveSocket.cpp:130-207 | Listen times itself on every path, its clean-up excluded |
| `Timing.JoinTiming` | src/PassiveSocket.cpp:88-121 | BindMulticast leaves a start at its end and no end, on every path |
| `Timing.OpenTiming` | src/ActiveSocket.cpp:54-186 | Open times itself iff it gets as far as connect |
| `Timing.AcceptTiming` | src/PassiveSocket.cpp:215-281 | Accept times itself on every TCP listener, with or without a connection |
| `Timing.VectorTiming` | src/SimpleSocket.cpp:557-602 | where the vector goes through the library's own Writev, the timer and the clock are left by the last Send that the loop gets to and that passes the guards; Flush does not disturb it |
| `Timing.StepTiming` | src/SimpleSocket.cpp:395-408 | for every operation, exactly which paths leave the old reading, and that the other paths of a bracketed operation leave its own two readings |
| `Timing.LastTimedOperationShows` | src/StatTimer.h:94 | over every run of operations, the elapsed time shown is that between the two readings of the last one that started the timer, for a vector of its last Send; minus the wall clock after BindMulticast |
| `Sockets.SimpleSocket.constructor` | src/SimpleSocket.cpp:45-108 | the state of a new object |
| `Sockets.SimpleSocket.StartTimer` | src/SimpleSocket.cpp:395-396 | the timer's new reading and the clock after it |
| `Sockets.SimpleSocket.StopTimer` | src/SimpleSocket.cpp:408 | the timer's new reading and the clock after it |
| `Sockets.SimpleSocket.TranslateSocketError` | src/SimpleSocket.cpp:948-1011 | only the error changes, to the translation of `errno` |
| `Sockets.SimpleSocket.Initialize` | src/SimpleSocket.cpp:136-159 | handle, error, result and descriptor table for a granted and a refused socket call |
| `Sockets.SimpleSocket.ReleaseBuffer` | src/SimpleSocket.cpp:469-473 | frees the buffer once and forgets it |
| `Sockets.SimpleSocket.Close` | src/SimpleSocket.cpp:462-490 | new fields and environment of every path of Close |
| `Sockets.SimpleSocket.Destroy` | src/ActiveSocket.h:59-61 | the environment after destruction |
| `Sockets.SimpleSocket.Retried` | src/SimpleSocket.cpp:402-406 | the do-while loop makes exactly the attempts of the retry function |
| `Sockets.SimpleSocket.BaseSend` | src/SimpleSocket.cpp:382-454 | fields, environment and result of both branches of Send |
| `Sockets.SimpleSocket.Send` | src/PassiveSocket.cpp:289-328 | the virtual Send with the passive override |
| `Sockets.SimpleSocket.PrepareBuffer` | src/SimpleSocket.cpp:725-748 | reuse or replacement of the internal buffer |
| `Sockets.SimpleSocket.ReceiveLoop` | src/SimpleSocket.cpp:755-804 | attempts, contents, count, addresses and error after the receive loops |
| `Sockets.SimpleSocket.Receive` | src/SimpleSocket.cpp:713-822 | fields, environment, result and the caller's buffer |
| `Sockets.SimpleSocket.GetData` | src/SimpleSocket.h:276-278 | the contents of the internal buffer, if any |
| `Sockets.SimpleSocket.SetNonblocking` | src/SimpleSocket.cpp:830-861 | mode, flags and error for every failure |
| `Sockets.SimpleSocket.SetBlocking` | src/SimpleSocket.cpp:869-898 | mode, flags and error for every failure |
| `Sockets.SimpleSocket.SetMulticast` | src/SimpleSocket.cpp:197-220 | multicast mode, result and error |
| `Sockets.SimpleSocket.Select` | src/SimpleSocket.cpp:1129-1188 | result, error and `errno` of every outcome |
| `Sockets.SimpleSocket.Flush` | src/SimpleSocket.cpp:514-549 | fields, environment and result of every path |
| `Sockets.SimpleSocket.Writev` | src/SimpleSocket.cpp:557-583 | the for loop sends as the recursive function says, then flushes if any buffer was sent |
| `Sockets.SimpleSocket.SendVector` | src/SimpleSocket.cpp:591-602 | fields, environment and result of the vector send |
| `Sockets.SimpleSocket.PumpLoop` | src/SimpleSocket.cpp:918-933 | the while loop copies as the recursive function says, early returns included |
| `Sockets.SimpleSocket.SendFile` | src/SimpleSocket.cpp:906-940 | the while loop copies as the recursive function says; the new offset and error |
| `Sockets.SimpleSocket.BindCalls` | src/PassiveSocket.cpp:176-189 | the result of bind and, for TCP, listen |
| `Sockets.SimpleSocket.BindAndListen` | src/PassiveSocket.cpp:146-197 | option calls, bind and listen up to the clean-up |
| `Sockets.SimpleSocket.Listen` | src/PassiveSocket.cpp:130-207 | Listen with its clean-up |
| `Sockets.SimpleSocket.BindMulticast` | src/PassiveSocket.cpp:51-122 | BindMulticast with its clean-up |
| `Sockets.SimpleSocket.AcceptLoop` | src/PassiveSocket.cpp:241-269 | the do-while loop makes exactly the attempts of the clearing loop |
| `Sockets.SimpleSocket.AcceptOnce` | src/PassiveSocket.cpp:243-267 | one attempt with `errno` cleared; only a failure writes the error |
| `Sockets.SimpleSocket.AcceptInto` | src/PassiveSocket.cpp:227-280 | listener, environment and the object filled, if a connection was taken |
| `Sockets.SimpleSocket.FillAccepted` | src/PassiveSocket.cpp:248-261 | what Accept stores in the new object |
| `Sockets.SimpleSocket.Accept` | src/PassiveSocket.cpp:215-281 | listener, environment and the new object of Accept |
| `Sockets.SimpleSocket.Resolve` | src/ActiveSocket.cpp:62-87 | server address and error of the lookup |
| `Sockets.SimpleSocket.ConnectOrPoll` | src/ActiveSocket.cpp:96-122 | fields, environment and result of connect and the poll of a non-blocking one |
| `Sockets.SimpleSocket.ConnectTcp` | src/ActiveSocket.cpp:54-127 | fields, environment and result of ConnectTCP |
| `Sockets.SimpleSocket.ConnectUdp` | src/ActiveSocket.cpp:134-186 | fields, environment and result of ConnectUDP |
| `Sockets.SimpleSocket.Open` | src/ActiveSocket.cpp:252-310 | fields, environment and result of Open |
| `Sockets.ServeClient` | examples/EchoServer.cpp:29-38 | the environment after serving one client |
| `Sockets.EchoServer` | examples/EchoServer.cpp:22-40 | any number of passes through the server loop |
| `Sockets.EchoPass` | examples/RecvAsync.cpp:40-43 | object, environment and running total after one pass of the server's loop |
| `Sockets.ClientPass` | examples/RecvAsync.cpp:85-92 | object, environment and received bytes after one pass of the client's loop |

## Left out

- The system calls, name resolution and the kernel: represented by `Env` and its script only.
- Windows branches: a second copy of the logic with other error rules; of them only the portable `Writev` is modelled.
- `writev` of the system, used for the vector send on Linux: one system call without library logic.
- Aliasing of the buffers: buffer contents are values that the methods reassign, so sharing of `m_pBuffer` or of the caller's memory is not captured.
- What a receive window outside its buffer does to memory: the model says when it happens and nothing about the bytes after it.
- The objects that `Accept` allocates, and that it deletes on failure and the echo server deletes after use: they are not allocations of the modelled heap, which holds receive buffers only; `Sockets.Accept` says that the returned object is new.
- `Accept` among the operations of `Lifecycle` and `Timing` runs: it makes a second object; `ServeEcho` is about runs with it, `Timing.AcceptTiming` about its timer.
- Interrupted calls in the runs of `AsyncEcho` and `EchoRefinement`: they can duplicate or lose bytes, as `Transfers.InterruptedSendDuplicates` and `Transfers.InterruptedReceiveLoses` show.
- The client's `Select` between its `Send` and its loop in `examples/RecvAsync.cpp`: it moves no bytes and its result is ignored.
- `DescribeError` and the timeout, address and port accessors: table lookups and getters.
- Window size, Nagle, linger, reuse-address, timeout, interface and DSCP setters, and `Shutdown`: one option call each, with no state kept.
- The multicast group that `BindMulticast` joins: an argument of one option call that the library does not keep.
- `ConnectRAW`, raw sockets and the IPv6 socket types: never reached from `Open`, or unfinished.
- The copy constructor and `operator=`: incomplete copies.
- `examples/QueryDayTime.cpp` and the printing in the examples: demonstration only.
