# NetLite, verified model

NetLite is a small synchronous socket library. This project models the parts of it that have state,
loops or arithmetic of their own underneath the system calls, and proves what they promise. Where the
library changes things in place (the state word, the carry loops, the fields of a handle, the
interlocked counters) the model is a class or a method with a loop, proved against a specification on
values; the laws are then lemmas about that specification.

**The operating system.** `Kernels.Kernel` is an arbitrary script of replies together with a record of
every call made (`trace`) and the set of open descriptors. Its rules are the only assumptions about the
system: a failing call reports a non-zero error and changes nothing; a successful call returns a value
that is not negative and may leave any error number behind; a transfer never moves more than it was
asked to; a new descriptor is none of the open ones; only an open descriptor can be closed. The retry
loops end because from some reply on (`QuietFrom`) the system stops refusing calls for a transient
reason; that point is a ghost parameter and may be as late as one likes.

**Socket operations** (`Transfers`, `Accepts`, `Modes`). Each operation is a method over a kernel. Its
contract says that the calls it added to the trace, together with what it returned, are *legal*; what
legality implies for one call and for whole runs is proved in `TransferCalls`, `RetryLoops`, `Accepts`
and `ModeRuns`, and `PerformAll` connects runs to programs that make the calls. Proved are: bytes
reported are bytes moved, and bytes sent are the caller's bytes, over any run; descriptors accepted are
handed out once each and in order; the shape of the trace in blocking and in non-blocking mode; the
agreement of the state word with the kernel's blocking mode. What each operation does is also stated without
this vocabulary, in system calls, results, error numbers and the bits of the state word (`SyncReceives`,
`SyncSends`, `NonBlockingReceives`, `NonBlockingSends`, `SyncAccepts`, `NonBlockingAccepts`, and in `Modes` from
`WithoutADescriptor` to `ClosingStepByStep`).

**Handles** (`BasicSockets`, `HandleRuns`, `HandleModes`, `HandlePrograms`). All handles of a program, the reference counts of the blocks
they share and the kernel's open descriptors form a `World`. The methods of `BasicSocket` change fields;
each is proved to turn the world before into a stated world after. `World.Good` says that counts are
right, that exactly the held descriptors are open, and that `is_open` and the orientation are right for
every handle. For every operation the project gives the exact condition under which it keeps this;
`HandlePrograms.PerformAll` carries out any list of constructions, uses and destructions on the real objects
and connects it to these runs.

**Library start and stop** (`WinsockInit`). The increment, the start call, the store of its result, the
decrement and the stop call are separate atomic steps of unboundedly many threads. Beside the calls made stands
what the library itself counts: a start that answers 0 adds a reference, any other does not, and a stop takes
one back if there is one.

**Addresses** (`Bytes`, `Words`, `Circular`, `AddressesV4`, `AddressV4Ranges`, `AddressesV6`,
`AddressV6Ranges`, `V4MappedAddresses`, `ClassfulNetworks`, `Addresses`, `Endpoints`). Byte and word
manipulation agrees with integer arithmetic modulo 2^32 and 2^128. The carry loops and `memcmp` are
proved for byte strings of every length. The byte order of the host is a constant without a value, so
everything holds on either kind of host. Bit operators on words are defined bit by bit and their
connection to division is proved. The mapped form is that of section 2.5.5.2 of RFC 4291, the address
classes are those of section 3.2 of RFC 791.

## What the code does not do

Proved about the code as it is:

- A traversal of an IPv6 range whose ends have different scope ids never ends
  (`TerminatesIffScopesAgree`), and `find` reports every address of another scope that compares inside an
  ordered range, though no traversal meets it (`FindReportsAnotherScope`; `AnotherScopeExample` is one).
- `find` is exact precisely if the range does not wrap, for all keys of an IPv4 range and for all keys of the
  scope of an IPv6 range (`FindIsExactIffOrdered` of either module).
- The compatible form of 0.0.0.0 and of 0.0.0.1 cannot be converted back (`CompatibleRoundTrip`).
- An endpoint keeps 32 bits of a scope id, though an address has an `unsigned long` (`StoredIsFaithful`).
- The non-blocking transfers do not write the caller's counter at the end of a stream or when they
  should be called again, so the counter is right against every kernel if and only if it was 0 before
  (`CountIsRightAgainstEveryKernelIff`; `RefusedOutright` is a trace on which it is not).
- `sync_accept` can wait although the user set non-blocking mode: after a connection was aborted
  (`AbortedThenAccepted`). It never does if and only if the user also enabled reports of aborted connections
  (`NeverWaitsIff`).
- The second attempt of `close` clears the non-blocking bits even if the system refused to reset the mode
  (`FailedResetDisagrees` is such a close). Closing keeps the state word in agreement with the kernel, whatever
  the system answers, if and only if the socket is in blocking mode (`CloseKeepsAgreementIff`); over a run they
  disagree if and only if that happened and no request for a mode succeeded afterwards (`RunAgreesIff`).
- Every handle has its own state word, so a mode set through one handle is unknown to the others: all stay in
  agreement if and only if there are no others or the kernel was in that mode already
  (`RequestKeepsAllAgreeingIff`, and for all descriptors at once `StageKeepsAgreeingIff`;
  `SecondHandleDisagrees` has two handles that do not).
- Opening over the only handle of a descriptor, or copying or moving another handle into it, leaves the
  descriptor open with no handle that refers to it (`OpenLeaks`, `CopyLeaks`, `MoveLeaks`; `OpeningTwiceLeaks` is
  a world where it happens). Closing a shared descriptor leaves another handle open on a closed descriptor
  (`CloseDangles`, `ClosingOneOfTwoDangles`). A move onto itself leaves a handle that holds a descriptor and says
  it is closed (`SelfMoveForgets`). The exact guards are in `OpenKeepsGoodIff`, `CopyKeepsGoodIff`,
  `MoveKeepsGoodIff` and `CloseKeepsGoodIff`.
- A failed `open` or `accept` leaves a handle that alone owns a block without a descriptor (`FailedOpenIsBad`,
  `FailedAcceptIsBad`), and the destructor of such a handle throws (`BasicSocket.Destroy`). The comment on
  `accept` says such a handle is not open (NetLite/basic_socket.hpp:783-784), but the flag is not initialised.
- The comments on `close` say the descriptor is closed even if an error is reported
  (NetLite/basic_socket.hpp:1507-1508, 1526-1527). The code makes a second attempt only after would-block and in
  any case drops its reference. Under the rule that a failing call changes nothing the descriptor stays open
  after an error (`FailedCloseClosesNothing`; `CloseCanFail` is such a close), which is wrong exactly if the
  handle was its sole owner (`FailedCloseIsGoodIff`).
- Two constructors of `winsock_init` can race so that one returns before the library is started
  (`ConstructorsCanRace`).
- The destructor of `winsock_init` stops the library even if the start it is paired with failed. A late stop for
  a failed start can then undo another thread's successful one: an object exists, nothing is pending, the stored
  result says success, and the library is stopped (`StaleCleanupStopsTheLibrary`). The balance of calls, for
  which `CountIsSound` holds, is what the library counts throughout a run if and only if every start in it
  succeeds (`CountsMatchFromTheBeginningIff`). The static instance prevents both: while it lives the library is
  started if and only if its own start succeeded (`StaticInstanceProtects`).

## Model

| member | source | states |
|---|---|---|
| TransferCalls.OnlyTheLastMoves | NetLite/socket_ops.ipp:691-717 | of all the system calls one transfer operation makes, at most the last moves bytes, and it is a transfer |
| TransferCalls.CallConserves | NetLite/socket_ops.ipp:675-1153 | the count an operation reports is the number of bytes the kernel moved during it, and what a sending operation put on the wire is that long a prefix of the caller's data |
| TransferCalls.RunConserves | NetLite/socket_ops.ipp:675-1153 | over any run of the ten transfer operations against any kernel the reported counts add up to the bytes moved, and the data believed sent is the data that went out, byte for byte and in order |
| TransferCalls.ErrorIsClearIff | NetLite/socket_ops.ipp:691-717 | the error is clear exactly if the last call was a successful transfer that did not meet the end of a stream |
| TransferCalls.OnlyAttemptsAndWaits | NetLite/socket_ops.ipp:984-1153 | an operation makes no other call than its transfer, always with the same data and destination, and its wait |
| TransferCalls.CountIsRightAgainstEveryKernelIff | NetLite/socket_ops.ipp:720-756 | a non-blocking operation's counter is the number of bytes moved whatever the kernel answers if and only if the caller set it to 0 before |
| TransferCalls.RefusedOutright | NetLite/socket_ops.ipp:741-743 | would-block is a legal answer that leaves the caller's counter as it was, though nothing was moved |
| TransferCalls.CountIsRightIff | NetLite/socket_ops.ipp:720-756 | for one outcome: the counter is right exactly if it was 0 before or the operation finished before the end of the stream |
| TransferCalls.BlockingModeHidesWouldBlock | NetLite/socket_ops.ipp:703-716 | in blocking mode would-block reaches the caller only as the error of a failed wait, never as that of a transfer |
| TransferCalls.BlockingModeTrace | NetLite/socket_ops.ipp:691-717 | in blocking mode transfers and waits alternate, every transfer but the last would have blocked, every wait but a final failed one succeeded, and there are as many transfers as would-block answers, plus one unless a wait failed |
| TransferCalls.NonBlockingModeTrace | NetLite/socket_ops.ipp:703-706 | in user-non-blocking mode there is exactly one transfer, no wait, and the transfer's error is passed on |
| TransferCalls.SyncWithoutACall | NetLite/socket_ops.ipp:675-690 | a blocking operation makes no call exactly without a descriptor, which is an error, and for empty buffers on a stream, which is not |
| TransferCalls.SyncReceives | NetLite/socket_ops.ipp:691-717 | call by call: receive attempts and waits for input alternate, would-block is waited out unless bit 1 is set, and what is reported is the count, the end of a stream (bit 16), the failed attempt's error or the failed wait's |
| TransferCalls.EndOfStreamIsReported | NetLite/socket_ops.ipp:701-706 | receiving nothing is reported as the end of the stream on a stream socket and as success on any other |
| TransferCalls.SyncSends | NetLite/socket_ops.ipp:1000-1019 | call by call: send attempts with the caller's data and destination and waits for output alternate, would-block is waited out unless bit 1 is set, and the count or the last error is reported |
| TransferCalls.NonBlockingReceives | NetLite/socket_ops.ipp:724-755 | call by call: interrupted receives are repeated; would-block returns false and leaves the counter, the end of a stream returns true and leaves it, and any other answer writes it |
| TransferCalls.NonBlockingSends | NetLite/socket_ops.ipp:1022-1051 | the same for sending, without an end of stream |
| RetryLoops.WaitLoopShape | NetLite/socket_ops.ipp:1000-1019 | any attempt-and-wait loop alternates, ends with an attempt it does not repeat or with a failed wait, and repeated only what its policy repeats |
| RetryLoops.WaitLoopCount | NetLite/socket_ops.ipp:1000-1019 | such a loop makes one attempt per refusal it repeats, and one more if it ends with an attempt |
| RetryLoops.SpinLoopShape | NetLite/socket_ops.ipp:725-755 | a non-blocking loop repeats only interrupted attempts and never ends on one |
| Transfers.Recv | NetLite/socket_ops.ipp:643-673 | one call, its count or -1, and a clear error exactly on success |
| Transfers.Recvfrom | NetLite/socket_ops.ipp:759-795 | the same, and the peer's address length is updated only on success |
| Transfers.Recvmsg | NetLite/socket_ops.ipp:863-884 | the same, and the message flags are those of a successful call, else 0 |
| Transfers.Send | NetLite/socket_ops.ipp:951-982 | one call with the caller's data, its count or -1, and a clear error exactly on success |
| Transfers.Sendto | NetLite/socket_ops.ipp:1053-1087 | the same, and the call goes to the given socket address |
| Transfers.PollRead | NetLite/socket_ops.ipp:1564-1615 | waits for input, not at all if the user set non-blocking mode, when an expired wait reads as would-block |
| Transfers.PollWrite | NetLite/socket_ops.ipp:1617-1668 | waits for output in the same way |
| Transfers.SyncRecv | NetLite/socket_ops.ipp:675-718 | ends against any kernel that stops refusing for transient reasons, with a legal trace and result; an invalid socket and an empty stream request make no call |
| Transfers.SyncRecvfrom | NetLite/socket_ops.ipp:797-828 | the same, and the address length is that of the last successful call |
| Transfers.SyncRecvmsg | NetLite/socket_ops.ipp:886-917 | the same, with the flags of the last call; an invalid socket leaves the caller's flags alone |
| Transfers.SyncSend | NetLite/socket_ops.ipp:984-1020 | the same for sending, waiting for output between attempts |
| Transfers.SyncSendto | NetLite/socket_ops.ipp:1089-1120 | the same for sending to an address, which every attempt names |
| Transfers.NonBlockingRecv | NetLite/socket_ops.ipp:720-756 | repeats interrupted attempts only, and reports a legal outcome including the end of a stream and the untouched counter |
| Transfers.NonBlockingRecvfrom | NetLite/socket_ops.ipp:830-861 | the same without an end of stream, and with the address length |
| Transfers.NonBlockingRecvmsg | NetLite/socket_ops.ipp:919-949 | the same with message flags |
| Transfers.NonBlockingSend | NetLite/socket_ops.ipp:1022-1051 | the same for sending |
| Transfers.NonBlockingSendto | NetLite/socket_ops.ipp:1122-1153 | the same for sending to an address, which every attempt names |
| Transfers.PerformAll | NetLite/socket_ops.ipp:675-1153 | any program that makes transfer calls one after the other has a legal run, whose events are what the kernel recorded |
| Accepts.Accept | NetLite/socket_ops.ipp:71-100 | a descriptor that was not open, or an error, and never both |
| Accepts.SyncAccept | NetLite/socket_ops.ipp:102-145 | ends against any kernel that stops refusing for transient reasons, with a legal trace; exactly the returned descriptor becomes open |
| Accepts.NonBlockingAccept | NetLite/socket_ops.ipp:147-189 | the same without waiting |
| Accepts.AcceptConserves | NetLite/socket_ops.ipp:102-189 | the caller gets every descriptor the kernel yielded in the call, and gets one exactly if the error is clear |
| Accepts.RunConserves | NetLite/socket_ops.ipp:71-189 | over any run every descriptor the kernel yields is returned exactly once, in order |
| Accepts.PerformAll | NetLite/socket_ops.ipp:71-189 | any program that accepts again and again, blocking or not, is given the kernel's descriptors in order, all different, none open before, and exactly they are open in addition |
| Accepts.SyncAcceptFilters | NetLite/socket_ops.ipp:116-143 | would-block surfaces only with user non-blocking mode and aborted connections only if the user enabled them, except as the error of a failed wait |
| Accepts.NonBlockingAcceptFilters | NetLite/socket_ops.ipp:154-188 | whatever the kernel answers, every attempt but the last was interrupted and interruption is never reported |
| Accepts.NeverWaitsIff | NetLite/socket_ops.ipp:115-142 | user non-blocking mode keeps every call from waiting if and only if reports of aborted connections are enabled too |
| Accepts.WaitsIff | NetLite/socket_ops.ipp:115-142 | under user non-blocking mode a call waits if and only if its first attempt met an aborted connection the user did not ask about |
| Accepts.AbortedThenAccepted | NetLite/socket_ops.ipp:123-142 | for every word without that flag there is a call that meets an aborted connection, waits, and returns the next one |
| Accepts.SyncAccepts | NetLite/socket_ops.ipp:102-145 | call by call: accept attempts and waits alternate, would-block is waited out unless bit 1 is set and an aborted connection unless bit 4 is, and the descriptor, the failed attempt's error or the failed wait's is returned |
| Accepts.AbortedEndsTheCallIff | NetLite/socket_ops.ipp:123-136 | an aborted connection ends the call, and is reported, if and only if reports of it are enabled |
| Accepts.NonBlockingAccepts | NetLite/socket_ops.ipp:147-189 | call by call: interrupted attempts are repeated; the call is unfinished on would-block and on an aborted connection unless bit 4 is set |
| Modes.SetUserNonBlocking | NetLite/socket_ops.ipp:280-322 | one mode request for the given value; on success the user bit follows, and clearing clears the internal bit too; on failure the word stays |
| Modes.SetInternalNonBlocking | NetLite/socket_ops.ipp:324-371 | the same for the internal bit; clearing is refused without a call while the user bit is set |
| Modes.Ioctl | NetLite/socket_ops.ipp:1476-1521 | a mode request through `ioctl` has the same effect on the word, other commands have none |
| Modes.SetSockOpt | NetLite/socket_ops.ipp:1210-1285 | the two custom options make no call and check their size; the linger mark is set even if the call fails |
| Modes.GetSockOpt | NetLite/socket_ops.ipp:1298-1395 | the connection-aborted option reads back the flag without a call and checks its size; other options pass through; no descriptor opens or closes |
| Modes.Shutdown | NetLite/socket_ops.ipp:373-386 | one call and its error, none for an invalid socket |
| Modes.TurnLingerOff | NetLite/socket_ops.ipp:222-232 | before a destructor closes, lingering is turned off if the user had touched it, and the word is unchanged |
| Modes.Close | NetLite/socket_ops.ipp:215-278 | one attempt, or after would-block a mode reset and a second attempt; the descriptor is closed exactly if the result is 0, and it was open before |
| Modes.FailedCloseClosesNothing | NetLite/socket_ops.ipp:234-273 | no attempt to close succeeded if an error is reported |
| Modes.CloseCanFail | NetLite/socket_ops.ipp:243-273 | for every state word and error there is a close whose second attempt fails with it |
| Modes.WithoutADescriptor | NetLite/socket_ops.ipp:283-287 | without a descriptor nothing reaches the kernel or changes, and only `close` reports success |
| Modes.TheLastAnswerIsTold | NetLite/socket_ops.ipp:289-321 | whatever operation made a call, the caller is told the last answer, with a clear error exactly on success |
| Modes.UserRequestReachesTheKernel | NetLite/socket_ops.ipp:289-321 | a user request for either mode, direct or by `ioctl`, always makes exactly that request; success sets bit 1 or clears bits 1 and 2, failure changes nothing |
| Modes.InternalRequestIsRefusedIff | NetLite/socket_ops.ipp:324-371 | an internal request is refused if and only if it would unblock a socket with bit 1 set; any other reaches the kernel, and success sets or clears bit 2 |
| Modes.OtherIoctlPassesThrough | NetLite/socket_ops.ipp:1476-1521 | any other `ioctl` command is passed on and leaves the word |
| Modes.SettingAnOption | NetLite/socket_ops.ipp:1210-1285 | for each kind of option, what is refused, what sets or clears bit 4, and what reaches the kernel, lingering setting bit 8 even if it fails |
| Modes.ReadingAnOption | NetLite/socket_ops.ipp:1298-1395 | for each kind of option, what is refused, what reads bit 4, and what reaches the kernel; the word never changes |
| Modes.ClosingStepByStep | NetLite/socket_ops.ipp:215-278 | call by call: lingering is set to 0 first exactly in a destructor with bit 8 set; after would-block the mode is reset, bits 1 and 2 are cleared and a second attempt is made, and otherwise there is one attempt |
| ModeRuns.ModeAfterClose | NetLite/socket_ops.ipp:215-278 | the kernel's mode after closing is blocking if the fallback reset it, and otherwise what it was |
| ModeRuns.StepKeepsAgreement | NetLite/socket_ops.ipp:215-371 | an operation keeps the word's non-blocking bits in agreement with the kernel's mode if and only if it is not a close whose reset failed on a non-blocking socket |
| ModeRuns.CloseKeepsAgreementIff | NetLite/socket_ops.ipp:215-278 | for every word, closing or destroying keeps word and kernel in agreement against every system if and only if the socket is in blocking mode |
| ModeRuns.FailedResetDisagrees | NetLite/socket_ops.ipp:252-264 | a close on a non-blocking socket after which the word says blocking and the kernel does not |
| ModeRuns.RunKeepsAgreement | NetLite/socket_ops.ipp:215-371 | from an agreeing start the agreement holds after any run whose closing fallbacks can reset the mode |
| ModeRuns.RunAgreesIff | NetLite/socket_ops.ipp:215-371 | after any run word and kernel disagree if and only if a close could not reset a non-blocking mode and no request for a mode succeeded later |
| ModeRuns.RequestRestoresAgreement | NetLite/socket_ops.ipp:280-371 | a successful request brings word and kernel into agreement whatever they were before |
| ModeRuns.StepTracksRequests | NetLite/socket_ops.ipp:280-371 | a successful request of the user sets the user bit to its value, and no other call changes it, apart from the fallback of `close` |
| ModeRuns.RunTracksRequests | NetLite/socket_ops.ipp:280-371 | after any run without that fallback the user bit is the last successful request |
| ModeRuns.StepFrame | NetLite/socket_ops.hpp:19-46 | no operation touches the orientation or dup bits, the linger mark is there afterwards exactly if it was before or the linger option was set, and only its own option changes the connection-aborted flag |
| ModeRuns.RunFrame | NetLite/socket_ops.hpp:19-46 | over any run the orientation is constant, the linger mark is there exactly if it was at the start or was made, and the connection-aborted flag is the last value set successfully |
| ModeRuns.ReadsBackTheLastValueSet | NetLite/socket_ops.ipp:1298-1325 | wherever in a run the connection-aborted option is read, it reads as the last value set successfully |
| HandleRuns.RequestKeepsAllAgreeingIff | NetLite/basic_socket.hpp:865-869 | a successful mode request through one of the handles of a descriptor leaves all their words in agreement with the kernel if and only if it is the sole owner or the kernel was in that mode already |
| HandleRuns.SecondHandleDisagrees | NetLite/basic_socket.hpp:1861-1867 | two handles that share a descriptor and a request through one that makes the other's word wrong |
| ModeRuns.PerformAll | NetLite/socket_ops.ipp:215-371 | any program that makes these calls one after the other on one descriptor has a legal run, whose events are what the kernel recorded |
| BasicSockets.BasicSocket.constructor | NetLite/basic_socket.hpp:49-55 | a new handle holds nothing, is not open and changes no count |
| BasicSockets.BasicSocket.Copy | NetLite/basic_socket.hpp:81-84 | the new handle shares the other's descriptor, whose count goes up by one; every other handle is as before |
| BasicSockets.BasicSocket.Move | NetLite/basic_socket.hpp:69-72 | the new handle has what the other had, the other is empty and not open, and no count changes |
| BasicSockets.BasicSocket.CopyAssign | NetLite/basic_socket.hpp:107-111 | as copying, and what the handle held before loses one holder; right for self-assignment and for handles of one descriptor |
| BasicSockets.BasicSocket.MoveAssign | NetLite/basic_socket.hpp:93-97 | as moving, and what the handle held before loses one holder; a handle moved onto itself keeps its descriptor and is marked closed |
| BasicSockets.BasicSocket.PointTo | NetLite/basic_socket.hpp:1841-1867 | assigning the shared pointer moves one reference from the old block to the new one |
| BasicSockets.BasicSocket.HoldsSocket | NetLite/basic_socket.hpp:1841-1844 | a fresh block for the descriptor replaces what the handle held |
| BasicSockets.BasicSocket.Reset | NetLite/basic_socket.hpp:1846-1850 | the handle is empty and not open, and its descriptor has one holder less |
| BasicSockets.BasicSocket.Open | NetLite/basic_socket.hpp:175-194 | on success the handle alone holds a descriptor that was not open, is open and knows its orientation; on failure it holds the invalid descriptor and its open flag is as before |
| BasicSockets.BasicSocket.NonBlocking | NetLite/basic_socket.hpp:865-869 | the mode request of this handle's descriptor is all the kernel sees, only this handle's state word changes, and its orientation does not |
| BasicSockets.BasicSocket.Assigned | NetLite/basic_socket.hpp:57-60 | a handle that alone points to a new block for the descriptor, with the orientation of its protocol; it is open unless there was an error, when the flag has no value |
| BasicSockets.BasicSocket.Accept | NetLite/basic_socket.hpp:797-811 | the calls are those of a blocking accept; the new handle has the listener's protocol and alone holds the accepted descriptor, or on failure the invalid one; every other handle is as before |
| BasicSockets.BasicSocket.Close | NetLite/basic_socket.hpp:1544-1549 | the handle lets go whether or not closing worked, and the descriptor is closed exactly if there is no error |
| BasicSockets.BasicSocket.Destroy | NetLite/basic_socket.hpp:116-128 | only the sole owner makes system calls: a shutdown, and then a close unless the shutdown failed for another reason than not being connected; a failure of either is thrown; without one the handle is gone, with the descriptor if it was the last; a failed shutdown leaves everything as it was, a failed close the descriptor without this handle |
| BasicSockets.BasicSocket.ShutAndClose | NetLite/basic_socket.hpp:118-127 | the sole owner's part of that |
| BasicSockets.DestructorStepByStep | NetLite/basic_socket.hpp:118-127 | the shutdown is of both directions; after success or not being connected a close of the descriptor is attempted and only its error is thrown; any other error of the shutdown is thrown without a close |
| BasicSockets.StartingWords | NetLite/basic_socket.hpp:179-190 | a stream handle starts with bit 16, a datagram handle with bit 32, any other with none, and a handle given a native descriptor with bit 64 besides |
| BasicSockets.CopiedMeans | NetLite/basic_socket.hpp:1861-1867 | after a copy the handle has the other's descriptor, flag and word, every other handle is as before, and no descriptor opened or closed |
| BasicSockets.MovedMeans | NetLite/basic_socket.hpp:1852-1859 | after a move it has what the other had, the other holds nothing and is not open but keeps its word, every third handle is as before |
| BasicSockets.LetGoMeans | NetLite/basic_socket.hpp:1846-1850 | after a reset it holds nothing, is not open and keeps its word |
| BasicSockets.OpenedMeans | NetLite/basic_socket.hpp:175-194 | after opening or accepting it is open on the new descriptor with its starting word; after a failure it holds the invalid block and its flag is what it was |
| BasicSockets.DestroyedMeans | NetLite/basic_socket.hpp:116-128 | after destruction the handle is gone, and the descriptor is closed exactly if its count was one |
| BasicSockets.CopyKeepsGoodIff | NetLite/basic_socket.hpp:1861-1867 | copying keeps all counts, open descriptors and handles in agreement exactly unless the target is the sole owner of a descriptor and not the source itself |
| BasicSockets.MoveKeepsGoodIff | NetLite/basic_socket.hpp:1852-1859 | moving does so exactly unless the target is a sole owner or moves a descriptor onto itself |
| BasicSockets.LetGoKeepsGoodIff | NetLite/basic_socket.hpp:1846-1850 | letting go without closing does so exactly unless the handle is a sole owner |
| BasicSockets.CloseKeepsGoodIff | NetLite/basic_socket.hpp:1544-1549 | closing the descriptor and letting go does so exactly for a sole owner |
| BasicSockets.OpenKeepsGoodIff | NetLite/basic_socket.hpp:175-194 | a successful open does so exactly unless the handle was the sole owner of another descriptor |
| BasicSockets.FailedOpenIsBad | NetLite/basic_socket.hpp:175-194 | a failed open always leaves a sole owner of no descriptor, which is never right |
| BasicSockets.AcceptKeepsGood | NetLite/basic_socket.hpp:797-811 | accepting into a new handle keeps everything in agreement |
| BasicSockets.FailedAcceptIsBad | NetLite/basic_socket.hpp:797-811 | a failed accept returns a sole owner of no descriptor, which is never right, and nothing else is wrong |
| BasicSockets.FailedOpenIsRepairedByCloseIff | NetLite/basic_socket.hpp:175-194 | closing that handle makes everything right again exactly unless it had been a sole owner |
| BasicSockets.TunedKeepsGoodIff | NetLite/basic_socket.hpp:865-869 | a change of a state word is right exactly if it keeps the orientation or the handle is empty |
| BasicSockets.DestroyKeepsGood | NetLite/basic_socket.hpp:116-128 | destroying any handle, last or not, keeps everything in agreement |
| BasicSockets.NoHandlesNoDescriptors | NetLite/basic_socket.hpp:116-128 | when no handle is left no descriptor is open |
| HandleRuns.ActionKeepsGoodIff | NetLite/basic_socket.hpp:49-128 | each action of a program keeps handles, counts and descriptors in agreement if and only if the program observes one stated guard |
| HandleRuns.RunKeepsGood | NetLite/basic_socket.hpp:49-128 | every run that observes the guards, of any length and with any number of handles, keeps them in agreement |
| HandleRuns.ClosedWithTheLastHandle | NetLite/basic_socket.hpp:116-128 | a descriptor, opened or accepted, is closed in exactly the step that takes its last handle |
| HandleRuns.OpeningsAreClosed | NetLite/basic_socket.hpp:116-128 | over any run a descriptor is closed once for each time it was opened or accepted, or is still open |
| HandleRuns.NothingIsLeft | NetLite/basic_socket.hpp:116-128 | a program that destroys all its handles has closed every descriptor exactly as often as it was opened |
| HandleRuns.HandlesAgreeAfterRun | NetLite/basic_socket.hpp:1852-1867 | after any such run `is_open` means holding an open descriptor, and copies and moved handles of one descriptor agree on its orientation |
| HandleRuns.OpenLeaks | NetLite/basic_socket.hpp:175-194 | opening over a sole owner leaves its descriptor open and unreferred to |
| HandleRuns.CopyLeaks | NetLite/basic_socket.hpp:1861-1867 | so does copying another handle over it |
| HandleRuns.MoveLeaks | NetLite/basic_socket.hpp:1852-1859 | and moving another handle into it |
| HandleRuns.SelfMoveForgets | NetLite/basic_socket.hpp:1852-1859 | an open handle moved onto itself keeps its descriptor and says it is closed |
| HandleRuns.CloseDangles | NetLite/basic_socket.hpp:1544-1549 | closing a shared descriptor leaves another handle that is open on it |
| HandleRuns.OpeningTwiceLeaks | NetLite/basic_socket.hpp:175-194 | a good world of one handle in which a second open leaks |
| HandleRuns.ClosingOneOfTwoDangles | NetLite/basic_socket.hpp:1544-1549 | a good world of two handles in which closing one leaves the other dangling |
| HandleModes.StageKeepsAgreeingIff | NetLite/basic_socket.hpp:49-128 | one action or call keeps the words of all handles in agreement with the kernel's modes of all descriptors if and only if it does not change a mode that another handle shares |
| HandleModes.RunKeepsAgreeing | NetLite/basic_socket.hpp:49-128 | over any run without such a call, with handles copied, moved, opened, accepted, closed and destroyed, every handle's word agrees with the kernel |
| HandleRuns.Perform | NetLite/basic_socket.hpp:93-128 | every request to an existing handle whose system calls succeed is one of these actions on the real handles, counters and kernel, right under exactly its guard; its system calls close exactly what the action closes, once, and try to close nothing that is not open; a mode request asks for that mode of that handle's descriptor |
| HandleRuns.FailedCloseIsGoodIff | NetLite/basic_socket.hpp:1544-1549 | after a close that failed the descriptor is open and the handle without it, which is right exactly if another handle holds it |
| HandlePrograms.Construct | NetLite/basic_socket.hpp:49-84 | every construction, by default, copy, move or accepting, is a safe action on the real objects and adds one fresh handle |
| HandlePrograms.Use | NetLite/basic_socket.hpp:93-128 | a program that tests `use_count` before a request carries it out exactly if the guard holds, and then safely |
| HandlePrograms.ClosedByRun | NetLite/basic_socket.hpp:116-128 | the successful close calls for a descriptor in a run's trace number the closings of its actions |
| HandlePrograms.PerformAll | NetLite/basic_socket.hpp:49-128 | any program of constructions, requests and destructions, starting with nothing, makes a safe run up to the first failed call, has exactly the objects of that run and a trace that closes what it closes, and if it ends without handles has no descriptor open and has made one successful close call for each opening |
| WinsockInit.StepKeepsInv | NetLite/winsock_init.ipp:10-27 | every atomic step of any thread keeps the relation between the count, the calls made and the calls pending |
| WinsockInit.StepByStep | NetLite/winsock_init.ipp:10-27 | who must call the library and when an object exists: the constructor that finds the count 0 must start it, store the answer and only then return, any other returns at once; the destructor that leaves it 0 must stop it; no step touches another thread |
| WinsockInit.CountIsSound | NetLite/winsock_init.ipp:10-27 | under every interleaving, start calls made and pending less stop calls made and pending is 1 if the count is positive and else 0; at most one start is pending; stops never exceed starts; more starts than stops have been called exactly if the count is positive and no start pending, or a stop is still to come |
| WinsockInit.CountsMatchFromTheBeginningIff | NetLite/winsock_init.ipp:13-26 | the library's own count is start calls less stop calls at every point of a run if and only if every start in it succeeds |
| WinsockInit.StaleCleanupStopsTheLibrary | NetLite/winsock_init.ipp:13-26 | a run after which an object exists, nothing is pending, the stored result says success, and the library is stopped |
| WinsockInit.ConstructorsCanRace | NetLite/winsock_init.ipp:10-19 | a run in which a second constructor has returned and the library is not started |
| WinsockInit.StaticInitReaches | NetLite/winsock_init.hpp:53-55 | constructing the static instance alone calls the start once and publishes its result, and the library is started if that succeeded |
| WinsockInit.StaticInstanceProtects | NetLite/winsock_init.hpp:53-55 | while it lives no interleaving of other instances calls start or stop again, the result stays published, and the library is started if and only if the static start succeeded |
| WinsockInit.Data.IncrementCount | NetLite/winsock_init.ipp:13 | the atomic increment, which tells exactly the thread that makes the count 1 to start the library, and leaves the result |
| WinsockInit.Data.DecrementCount | NetLite/winsock_init.ipp:23 | the atomic decrement, which tells exactly the thread that makes the count 0 to stop it, and leaves the result |
| WinsockInit.Data.ExchangeResult | NetLite/winsock_init.ipp:17 | the atomic store of the answer, which leaves the count |
| Bytes.Increment | NetLite/ip/address_v6_iterator.hpp:93-107 | the carry loop adds one to a big-endian byte string of any length, modulo their number |
| Bytes.Decrement | NetLite/ip/address_v6_iterator.hpp:118-132 | the borrow loop subtracts one, modulo their number |
| Bytes.MemcmpOrdersValues | NetLite/ip/address_v6.ipp:224-233 | `memcmp` orders byte strings of one length, whatever it is, as the numbers they denote |
| AddressesV6.OrderIsLexicographic | NetLite/ip/address_v6.ipp:218-233 | the order is that on (128-bit number, scope id), and equality is equality of both |
| AddressesV6.TotalOrder | NetLite/ip/address_v6.ipp:218-233 | exactly one of less, equal, greater holds, and less is transitive |
| AddressV6Ranges.AddressV6Iterator.Increment | NetLite/ip/address_v6_iterator.hpp:93-107 | in place, the iterator moves to the next address of the same scope |
| AddressV6Ranges.AddressV6Iterator.Decrement | NetLite/ip/address_v6_iterator.hpp:118-132 | in place, the iterator moves to the previous address of the same scope |
| AddressV6Ranges.AddressV6Iterator.PostIncrement | NetLite/ip/address_v6_iterator.hpp:110-115 | returns an independent iterator that stays behind |
| AddressV6Ranges.AddressV6Iterator.PostDecrement | NetLite/ip/address_v6_iterator.hpp:135-140 | returns an independent iterator that stays behind |
| AddressV6Ranges.NextAndPreviousUndo | NetLite/ip/address_v6_iterator.hpp:93-132 | they undo each other, also across the ends of the space |
| AddressV6Ranges.NthAdds | NetLite/ip/address_v6_iterator.hpp:93-107 | n increments add n modulo 2^128 |
| AddressV6Ranges.FirstReturn | NetLite/ip/address_v6_iterator.hpp:93-107 | the first return to the start is after exactly 2^128 increments |
| AddressV6Ranges.TerminatesIffScopesAgree | NetLite/ip/address_v6_range.hpp:70-85 | stepping from begin reaches end exactly if the scope ids agree, and then first after the distance of the numbers |
| AddressV6Ranges.Traverse | NetLite/ip/address_v6_range.hpp:70-85 | the loop from begin to end ends and visits the successive addresses, each once |
| AddressV6Ranges.TraversalIsTheInterval | NetLite/ip/address_v6_range.hpp:70-85 | for ends in order it visits exactly the addresses in [begin, end) in strictly increasing order |
| AddressV6Ranges.EmptyIffNothingIsVisited | NetLite/ip/address_v6_range.hpp:82-85 | a range is empty exactly if its traversal ends without a step, and exactly if it visits no address |
| AddressV6Ranges.FindByNumber | NetLite/ip/address_v6_range.hpp:88-91 | for every pair of ends find is decided by (number, scope id) alone |
| AddressV6Ranges.FindMatchesTraversal | NetLite/ip/address_v6_range.hpp:88-91 | for ends in order and one scope, find returns the address exactly if the traversal visits it and end otherwise |
| AddressV6Ranges.FindIsExactIffOrdered | NetLite/ip/address_v6_range.hpp:88-91 | for all keys of the range's scope find agrees with the traversal if and only if the range does not wrap |
| AddressV6Ranges.FindIgnoresScope | NetLite/ip/address_v6_range.hpp:88-91 | for a key of any scope find agrees with the traversal exactly if the key's scope is the range's or the key compares outside |
| AddressV6Ranges.FindReportsAnotherScope | NetLite/ip/address_v6_range.hpp:88-91 | a key of another scope that compares inside an ordered range is found and not visited |
| AddressV6Ranges.AnotherScopeExample | NetLite/ip/address_v6_range.hpp:88-91 | the range from :: to ::2 of scope 0 and the address ::1 of scope 1 |
| AddressesV4.UintRoundTrip | NetLite/ip/address_v4.ipp:33-54 | integer conversions are inverse on either kind of host |
| AddressesV4.BytesRoundTrip | NetLite/ip/address_v4.ipp:18-49 | byte conversions are inverse |
| AddressesV4.BytesAreBigEndian | NetLite/ip/address_v4.ipp:43-54 | the bytes are the big-endian form of the integer on either kind of host |
| AddressesV4.TotalOrder | NetLite/ip/address_v4.hpp:140-173 | equality of network-order words and order of host-order integers form one strict total order |
| AddressV4Ranges.AddressV4Iterator.Increment | NetLite/ip/address_v4_iterator.hpp:92-96 | in place, the iterator moves to the next address |
| AddressV4Ranges.AddressV4Iterator.Decrement | NetLite/ip/address_v4_iterator.hpp:107-111 | in place, the iterator moves to the previous address |
| AddressV4Ranges.AddressV4Iterator.PostIncrement | NetLite/ip/address_v4_iterator.hpp:99-104 | returns an independent iterator that stays behind |
| AddressV4Ranges.AddressV4Iterator.PostDecrement | NetLite/ip/address_v4_iterator.hpp:114-119 | returns an independent iterator that stays behind |
| AddressV4Ranges.UintOfNext | NetLite/ip/address_v4_iterator.hpp:92-96 | the next address is one more, and 255.255.255.255 is followed by 0.0.0.0 |
| AddressV4Ranges.NextAndPreviousUndo | NetLite/ip/address_v4_iterator.hpp:92-111 | next and previous undo each other |
| AddressV4Ranges.NthAdds | NetLite/ip/address_v4_iterator.hpp:92-96 | n increments add n modulo 2^32 |
| AddressV4Ranges.SizeCountsSteps | NetLite/ip/address_v4_range.hpp:88-97 | the size is the number of increments until end is first reached, for every pair of ends including those that wrap; a range is empty exactly if its ends are equal |
| AddressV4Ranges.Traverse | NetLite/ip/address_v4_range.hpp:88-97 | the loop from begin to end visits that many successive addresses |
| AddressV4Ranges.FindByNumber | NetLite/ip/address_v4_range.hpp:100-103 | for every pair of ends find is decided by the integers alone |
| AddressV4Ranges.FindMatchesTraversal | NetLite/ip/address_v4_range.hpp:100-103 | for ends in order find returns the address exactly if the traversal visits it and end otherwise |
| AddressV4Ranges.FindIsExactIffOrdered | NetLite/ip/address_v4_range.hpp:100-103 | find agrees with the traversal for all keys if and only if the range does not wrap |
| V4MappedAddresses.BlocksOfTheSpace | NetLite/ip/address_v6.ipp:164-186 | the mapped addresses are one block of 2^32 numbers; the compatible ones are the numbers from 2 to 2^32 - 1 |
| V4MappedAddresses.MappingEmbedsOrder | NetLite/ip/address_v6.ipp:242-248 | mapping keeps and reflects order and equality |
| V4MappedAddresses.MappingCommutesWithNext | NetLite/ip/address_v6.ipp:242-248 | mapping commutes with increment exactly except at 255.255.255.255, where the increment leaves the mapped block |
| V4MappedAddresses.MappingCommutesWithTraversal | NetLite/ip/address_v6_iterator.hpp:93-107 | an IPv4 traversal that does not wrap is, mapped, the IPv6 traversal of the mapped addresses |
| V4MappedAddresses.MappingRoundTrip | NetLite/ip/address_v6.ipp:286-306 | extraction inverts mapping, and mapping again recovers any mapped address with scope id 0 |
| V4MappedAddresses.ConversionsThrowIff | NetLite/ip/address_v6.ipp:118-128 | which addresses each conversion accepts, mapped ones or also compatible ones, and that the last four bytes are the result |
| V4MappedAddresses.MappedScope | NetLite/ip/address_v6.ipp:242-256 | mapped and compatible addresses have scope id 0 |
| V4MappedAddresses.CompatibleRoundTrip | NetLite/ip/address_v6.ipp:250-256 | the compatible form converts back exactly for all addresses but 0.0.0.0 and 0.0.0.1, for which conversion throws |
| ClassfulNetworks.ClassIntervals | NetLite/ip/address_v4.ipp:113-131 | the bit tests divide the address space into consecutive intervals |
| ClassfulNetworks.Masks | NetLite/ip/address_v4.ipp:138-147 | the mask of each class, by the interval the address lies in |
| ClassfulNetworks.BroadcastBits | NetLite/ip/address_v4.ipp:133-136 | for every mask, also one that is not a prefix, each bit is the address's where the mask has a one and a one where it has a zero |
| ClassfulNetworks.NetworkIsInterval | NetLite/ip/address_v4.ipp:133-147 | the addresses that share an address's bits under its mask are the interval that ends at the broadcast address and begins ~mask below it |
| ClassfulNetworks.NetworkSize | NetLite/ip/address_v4.ipp:133-147 | there are ~mask + 1 of them, and the broadcast address is the greatest |
| ClassfulNetworks.NetworkAgrees | NetLite/ip/address_v4.ipp:133-147 | all of them compute the same mask and the same broadcast address |
| Addresses.OrderIsLexicographic | NetLite/ip/address.ipp:161-179 | the order is lexicographic on (family, number, scope id) and equality is equality of all three |
| Addresses.TotalOrder | NetLite/ip/address.ipp:161-179 | the order is a strict total order that is compatible with equality |
| Addresses.FamiliesAreApart | NetLite/ip/address.ipp:161-179 | every IPv4 address comes before every IPv6 address; within a family numbers decide, then scope ids |
| Addresses.CastsAreExact | NetLite/ip/address.ipp:21-33 | an address casts back to what it was made from, throws for the other family, and holds the unspecified address there |
| Addresses.AddressObject.Assign | NetLite/ip/address.ipp:51-57 | the object takes the other's value, which is unchanged |
| Addresses.AddressObject.AssignV4 | NetLite/ip/address.ipp:69-75 | the object becomes the IPv4 address and forgets any IPv6 address |
| Addresses.AddressObject.AssignV6 | NetLite/ip/address.ipp:77-83 | the object becomes the IPv6 address and forgets any IPv4 address |
| Endpoints.Endpoint.constructor | NetLite/ip/endpoint.ipp:18-24 | a new endpoint reads as the unspecified IPv4 address and port 0 |
| Endpoints.Endpoint.FromFamily | NetLite/ip/endpoint.ipp:26-50 | it reads as the given port and the unspecified address of the family, any family but IPv4 counting as IPv6 |
| Endpoints.Endpoint.FromAddress | NetLite/ip/endpoint.ipp:52-72 | a new endpoint reads as the given port and the given address, apart from the scope id's high bits, and the port lies in memory most significant byte first |
| Endpoints.Endpoint.SetPort | NetLite/ip/endpoint.ipp:95-105 | afterwards the port reads as given, lies in memory most significant byte first in either family, and the address and family are as before |
| Endpoints.Endpoint.SetAddress | NetLite/ip/endpoint.ipp:122-126 | afterwards the address reads as given, apart from the scope id's high bits, and the port as before, also across families |
| Endpoints.MakeReadsBack | NetLite/ip/endpoint.ipp:52-72 | port and address read back as given, apart from the scope id's high bits |
| Endpoints.PortLiesBigEndian | NetLite/ip/endpoint.ipp:83-93 | in every endpoint of either family the port read is the two bytes in memory, most significant first |
| Endpoints.AddressLiesAsGiven | NetLite/ip/endpoint.ipp:52-72 | the address's own bytes lie in memory, and for IPv6 no flow information and the low 32 bits of the scope id |
| Endpoints.StoredIsFaithful | NetLite/ip/endpoint.ipp:66-71 | the address reads back unchanged exactly if its scope id fits 32 bits |
| Endpoints.ApplyReadsBack | NetLite/ip/endpoint.ipp:83-126 | a setter changes its own field and leaves the other |
| Endpoints.LastPortWins | NetLite/ip/endpoint.ipp:83-126 | after any sequence of setters the port is the last one set |
| Endpoints.LastAddressWins | NetLite/ip/endpoint.ipp:83-126 | after any sequence of setters the address is the last one set, across switches of family |
| Endpoints.OrderIsLexicographic | NetLite/ip/endpoint.ipp:128-140 | endpoints compare lexicographically on (family, number, scope id, port) |
| Endpoints.TotalOrder | NetLite/ip/endpoint.ipp:128-140 | their order is a strict total order with that equality |
| Words.NetworkOrderIsBigEndian | NetLite/socket_ops.ipp:2199-2226 | on either kind of host the integer of a network word is its four bytes in memory read most significant first |
| Words.ShortNetworkOrderIsBigEndian | NetLite/socket_ops.ipp:2228-2238 | the same for the two bytes of a short word |
| Words.NetworkImages | NetLite/socket_ops.ipp:2213-2251 | the bytes that lie in memory after either conversion to network order |
| Words.LongRoundTrip | NetLite/socket_ops.ipp:2199-2226 | the 32-bit conversions are inverse on either kind of host |
| Words.ShortRoundTrip | NetLite/socket_ops.ipp:2228-2251 | the 16-bit conversions are inverse on either kind of host |
| Buffers.BufferSequenceAdapter.constructor | NetLite/detail/buffer_sequence_adapter.hpp:69-104 | the adapter takes as many buffers as there are, up to the maximum, and they are that prefix of the sequence; the total size is the sum of their sizes |
| Buffers.MaxBuffersIsTheLesser | NetLite/detail/buffer_sequence_adapter.hpp:33 | the maximum is the lesser of 64 and the platform's limit |
| Buffers.BufferSequenceAdapter.Init | NetLite/detail/buffer_sequence_adapter.hpp:91-101 | the same of the gathering loop, for a sequence of any length |
| Buffers.GatheredBytesArePrefix | NetLite/detail/buffer_sequence_adapter.hpp:91-101 | any count a gathered transfer may report is the length of a prefix of the caller's concatenated data, even when buffers were left out |

## Left out

- Text conversion and name resolution: parsing, printing and lookup happen in the operating system.
- The I/O completion port context and the asynchronous members of `basic_socket`: the one is an endless loop without a body, the others are not implemented.
- Windows, Apple, BSD, Linux and Symbian special branches of the socket operations: the portable branches are modelled.
- Connecting: an attempt, one wait and one query of the pending error, without a loop or state of its own.
- Bind, listen and the address queries: each is one system call and its error.
- Adopting a native descriptor from elsewhere with `assign`: who else holds it is outside the library; the descriptors of `accept` are covered.
- The arguments of the `socket` call, and what `ioctl` and `getsockopt` store for other commands and options.
- Option value holders, error tables, protocol tags and configuration macros: declarations only.
- Message flags of a transfer, and so peeking: a peeked byte would be counted twice.
- The bytes a receive stores and the aliasing of caller buffers: receives are modelled by their counts.
- The peer addresses that `accept` and the receiving operations store, apart from their lengths in the latter.
- Signed widths of counts and the 32-bit range of `init_count_`: both are mathematical integers here.
- `throw_on_error`: its body does nothing.
- Weak memory orderings: the interlocked operations are atomic and sequentially consistent.
- Concurrent use of handles: sharing of descriptors is modelled for one thread.
- What follows an exception thrown by the destructor of a handle: C++ ends the program there.
- Address ranges' and iterators' own copy and move assignments, which only copy fields.
