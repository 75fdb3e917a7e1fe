/**
 The ten sending and receiving operations of NetLite/socket_ops.ipp as calls:
 `Legal` says which system calls an operation may make and what it then reports,
 and the lemmas draw the consequences, for one call and for whole runs.
 */
module TransferCalls {
  import opened Bytes
  import opened Kernels
  import opened RetryLoops
  import opened SocketState

  /** A call of one operation. `initial` is the caller's `bytes_transferred` before the call. */
  datatype Call =
    | SyncRecv(s: Socket, state: StateWord, size: nat, allEmpty: bool)
    | SyncRecvfrom(s: Socket, state: StateWord, size: nat)
    | SyncRecvmsg(s: Socket, state: StateWord, size: nat)
    | SyncSend(s: Socket, state: StateWord, data: seq<byte>, allEmpty: bool)
    | SyncSendto(s: Socket, state: StateWord, data: seq<byte>, address: seq<byte>)
    | NonBlockingRecv(s: Socket, size: nat, isStream: bool, initial: nat)
    | NonBlockingRecvfrom(s: Socket, size: nat, initial: nat)
    | NonBlockingRecvmsg(s: Socket, size: nat, initial: nat)
    | NonBlockingSend(s: Socket, data: seq<byte>, initial: nat)
    | NonBlockingSendto(s: Socket, data: seq<byte>, address: seq<byte>, initial: nat)
  {
    predicate Sync() {
      SyncRecv? || SyncRecvfrom? || SyncRecvmsg? || SyncSend? || SyncSendto?
    }

    predicate Sends() {
      SyncSend? || SyncSendto? || NonBlockingSend? || NonBlockingSendto?
    }

    function SendsTo(): Destination {
      if SyncSendto? || NonBlockingSendto? then To(address) else Peer
    }

    /** The system call that moves the bytes. */
    function Attempt(): Op {
      if Sends() then Sendmsg(s, data, SendsTo()) else Recvmsg(s, size)
    }

    /** The system call that waits between attempts. */
    function Wait(): Op {
      if Sends() then PollOut(s, -1) else PollIn(s, -1)
    }

    /** A request for no bytes on a stream. */
    predicate NoOp() {
      (SyncRecv? || SyncSend?) && allEmpty && Has(state, STREAM_ORIENTED)
    }

    /** Receiving nothing means the stream has ended. */
    predicate EndsStream() {
      (SyncRecv? && Has(state, STREAM_ORIENTED)) || (NonBlockingRecv? && isStream)
    }
  }

  /** `finished` is what a non-blocking operation returns: it need not be run again. */
  datatype Outcome = Outcome(finished: bool, bytes: nat, ec: Errc)

  /** In blocking mode, and only then, a transfer that would block is repeated. */
  function TransferPolicy(state: StateWord): Policy {
    Policy(!Has(state, USER_SET_NON_BLOCKING), false)
  }

  function Reported(c: Call, e: Event): Errc {
    if c.EndsStream() && e.op == c.Attempt() && e.result == 0 then NoMessageAvailable else ErrorOf(e)
  }

  /** What a non-blocking operation reports after its final attempt. */
  function NonBlockingOutcome(c: Call, e: Event): Outcome
    requires !c.Sync()
  {
    if IsWouldBlock(ErrorOf(e)) then Outcome(false, c.initial, e.errno)
    else if c.EndsStream() && e.result == 0 then Outcome(true, c.initial, NoMessageAvailable)
    else Outcome(true, BytesOf(e), ErrorOf(e))
  }

  /** The system calls `t` and the outcome `o` are ones the operation may have. */
  ghost predicate Legal(c: Call, t: seq<Event>, o: Outcome) {
    if c.Sync() then
      if c.s == INVALID_SOCKET then t == [] && o == Outcome(true, 0, BadFileDescriptor)
      else if c.NoOp() then t == [] && o == Outcome(true, 0, NoError)
      else
        && WaitLoop(t, c.Attempt(), c.Wait(), TransferPolicy(c.state))
        && o == Outcome(true, BytesOf(Last(t)), Reported(c, Last(t)))
    else
      SpinLoop(t, c.Attempt()) && o == NonBlockingOutcome(c, Last(t))
  }

  // ------------------------------------------------- building a legal trace

  /** A loop ends with an attempt that is not repeated. */
  lemma EndWithAttempt(c: Call, done: seq<Event>, e: Event, o: Outcome)
    requires c.Sync() && c.s != INVALID_SOCKET && !c.NoOp()
    requires Rounds(done, c.Attempt(), c.Wait(), TransferPolicy(c.state))
    requires e.op == c.Attempt() && (e.Succeeded() || !TransferPolicy(c.state).Retries(e.errno))
    requires o == Outcome(true, BytesOf(e), Reported(c, e))
    ensures Legal(c, done + [e], o)
  {
    LoopEndsWithAttempt(done, e, c.Attempt(), c.Wait(), TransferPolicy(c.state));
  }

  /** A loop ends because waiting failed. */
  lemma EndWithWait(c: Call, done: seq<Event>, e: Event, w: Event, o: Outcome)
    requires c.Sync() && c.s != INVALID_SOCKET && !c.NoOp()
    requires Rounds(done, c.Attempt(), c.Wait(), TransferPolicy(c.state))
    requires e.op == c.Attempt() && !e.Succeeded() && TransferPolicy(c.state).Retries(e.errno)
    requires w.op == c.Wait() && !w.Succeeded()
    requires o == Outcome(true, 0, w.errno)
    ensures Legal(c, done + [e, w], o)
  {
    LoopEndsWithWait(done, e, w, c.Attempt(), c.Wait(), TransferPolicy(c.state));
  }

  lemma EndSpinning(c: Call, done: seq<Event>, e: Event, o: Outcome)
    requires !c.Sync() && Spins(done, c.Attempt())
    requires e.op == c.Attempt() && (e.Succeeded() || e.errno != Interrupted)
    requires o == NonBlockingOutcome(c, e)
    ensures Legal(c, done + [e], o)
  {
    SpinsThenEnd(done, e, c.Attempt());
  }

  // ------------------------------------------------------------ consequences

  predicate StartsAtZero(c: Call) {
    c.Sync() || c.initial == 0
  }

  lemma {:induction false} MovesNothing(t: seq<Event>)
    requires forall i :: 0 <= i < |t| ==> BytesOf(t[i]) == 0 && SentBy(t[i]) == []
    ensures Moved(t) == 0 && Sent(t) == []
  {
    if |t| > 0 {
      MovesNothing(t[..|t| - 1]);
    }
  }

  lemma MovesAtTheEnd(t: seq<Event>)
    requires t != [] && forall i :: 0 <= i < |t| - 1 ==> BytesOf(t[i]) == 0 && SentBy(t[i]) == []
    ensures Moved(t) == BytesOf(Last(t)) && Sent(t) == SentBy(Last(t))
  {
    MovesNothing(t[..|t| - 1]);
  }

  /** At most the last system call of an operation moves bytes. */
  lemma OnlyTheLastMoves(c: Call, t: seq<Event>, o: Outcome)
    requires Legal(c, t, o) && t != []
    ensures forall i :: 0 <= i < |t| - 1 ==> BytesOf(t[i]) == 0 && SentBy(t[i]) == []
    ensures Last(t).op == c.Attempt() || BytesOf(Last(t)) == 0
  {
    if c.Sync() {
      WaitLoopShape(t, c.Attempt(), c.Wait(), TransferPolicy(c.state));
    } else {
      SpinLoopShape(t, c.Attempt());
    }
  }

  /** An operation only makes its transfer and its wait: the data and the destination never change. */
  lemma OnlyAttemptsAndWaits(c: Call, t: seq<Event>, o: Outcome)
    requires Legal(c, t, o)
    ensures forall e :: e in t ==> e.op == c.Attempt() || (c.Sync() && e.op == c.Wait())
  {
    if c.Sync() && t != [] {
      WaitLoopShape(t, c.Attempt(), c.Wait(), TransferPolicy(c.state));
    } else if t != [] {
      SpinLoopShape(t, c.Attempt());
      assert t == t[..|t| - 1] + [Last(t)];
    }
  }

  lemma ReportIsLast(c: Call, t: seq<Event>, o: Outcome)
    requires Legal(c, t, o) && StartsAtZero(c)
    ensures o.bytes == if t == [] then 0 else BytesOf(Last(t))
  {
  }

  /** The count an operation reports is the number of bytes the kernel moved during it, and what
      went out is that long a prefix of the caller's data. */
  lemma CallConserves(c: Call, t: seq<Event>, o: Outcome)
    requires Legal(c, t, o) && StartsAtZero(c)
    requires forall e :: e in t ==> Answered(e)
    ensures o.bytes == Moved(t)
    ensures c.Sends() ==> o.bytes <= |c.data| && Sent(t) == c.data[..o.bytes]
    ensures !c.Sends() ==> Sent(t) == []
  {
    hide Legal;
    ReportIsLast(c, t, o);
    if t != [] {
      OnlyTheLastMoves(c, t, o);
      MovesAtTheEnd(t);
      assert Answered(Last(t));
    }
  }

  /** The error is clear exactly when the last system call was a transfer that succeeded, short of the
      end of a stream. */
  lemma ErrorIsClearIff(c: Call, t: seq<Event>, o: Outcome)
    requires Legal(c, t, o) && t != []
    requires forall e :: e in t ==> Answered(e)
    ensures o.ec == NoError <==>
            Last(t).op == c.Attempt() && Last(t).Succeeded() && !(c.EndsStream() && Last(t).result == 0)
  {
    assert Answered(Last(t));
    if c.Sync() {
      WaitLoopShape(t, c.Attempt(), c.Wait(), TransferPolicy(c.state));
    } else {
      SpinLoopShape(t, c.Attempt());
    }
  }

  /** Without a counter that starts at zero the report is right exactly when the operation wrote the
      counter: it finished, and not at the end of the stream. */
  lemma CountIsRightIff(c: Call, t: seq<Event>, o: Outcome)
    requires Legal(c, t, o) && !c.Sync()
    ensures !o.finished <==> IsWouldBlock(o.ec)
    ensures o.bytes == Moved(t) <==>
            c.initial == 0 || (o.finished && !(c.EndsStream() && Last(t).result == 0))
  {
    OnlyTheLastMoves(c, t, o);
    MovesAtTheEnd(t);
    SpinLoopShape(t, c.Attempt());
  }

  /** A counter that starts at zero is exactly what a caller of a non-blocking operation needs for the
      count to be right whatever the kernel does. */
  lemma CountIsRightAgainstEveryKernelIff(c: Call)
    requires !c.Sync()
    ensures (forall t, o :: Legal(c, t, o) && (forall e :: e in t ==> Answered(e)) ==> o.bytes == Moved(t))
            <==> c.initial == 0
  {
    forall t, o | c.initial == 0 && Legal(c, t, o) ensures o.bytes == Moved(t) {
      CountIsRightIff(c, t, o);
    }
    var t, o := RefusedOutright(c);
    assert c.initial > 0 ==> Legal(c, t, o) && (forall e :: e in t ==> Answered(e)) && o.bytes != Moved(t);
  }

  /** The kernel answers would-block and the operation, as it should, leaves the counter alone. */
  lemma RefusedOutright(c: Call) returns (t: seq<Event>, o: Outcome)
    requires !c.Sync()
    ensures Legal(c, t, o) && (forall e :: e in t ==> Answered(e))
    ensures Moved(t) == 0 && o == Outcome(false, c.initial, WouldBlock)
  {
    t := [Event(c.Attempt(), -1, WouldBlock, 0)];
    o := Outcome(false, c.initial, WouldBlock);
    MovesAtTheEnd(t);
  }

  /** In blocking mode would-block is never the error of a transfer: it surfaces only from a failed wait. */
  lemma BlockingModeHidesWouldBlock(c: Call, t: seq<Event>, o: Outcome)
    requires Legal(c, t, o) && c.Sync() && !Has(c.state, USER_SET_NON_BLOCKING)
    requires IsWouldBlock(o.ec)
    ensures t != [] && Last(t).op == c.Wait() && !Last(t).Succeeded() && Last(t).errno == o.ec
  {
    WaitLoopShape(t, c.Attempt(), c.Wait(), TransferPolicy(c.state));
  }

  /** In blocking mode the calls are rounds of a would-block transfer and a successful wait, ended by
      another transfer or by a would-block transfer whose wait fails; there are as many transfers as
      would-block answers, and one more unless a wait failed. */
  lemma BlockingModeTrace(c: Call, t: seq<Event>, o: Outcome)
    requires Legal(c, t, o) && c.Sync() && !Has(c.state, USER_SET_NON_BLOCKING) && t != []
    ensures forall i :: 0 <= i < |t| ==> t[i].op == if i % 2 == 0 then c.Attempt() else c.Wait()
    ensures forall i :: 0 <= i < |t| - 1 ==>
              if i % 2 == 0 then !t[i].Succeeded() && IsWouldBlock(t[i].errno) else t[i].Succeeded()
    ensures |t| % 2 == 1 ==> Last(t).Succeeded() || !IsWouldBlock(Last(t).errno)
    ensures |t| % 2 == 0 ==> !Last(t).Succeeded()
    ensures Attempts(t, c.Attempt()) ==
            Refusals(t, c.Attempt(), Policy(true, false)) + |t| % 2
  {
    WaitLoopShape(t, c.Attempt(), c.Wait(), TransferPolicy(c.state));
    WaitLoopCount(t, c.Attempt(), c.Wait(), TransferPolicy(c.state));
  }

  /** In user-non-blocking mode there is exactly one transfer and no wait, and its error is passed on. */
  lemma NonBlockingModeTrace(c: Call, t: seq<Event>, o: Outcome)
    requires Legal(c, t, o) && c.Sync() && Has(c.state, USER_SET_NON_BLOCKING) && t != []
    ensures |t| == 1 && t[0].op == c.Attempt()
    ensures o.ec == Reported(c, t[0])
  {
  }

  // ----------------------------------------------- what each operation reports

  /** The blocking operations without a descriptor, or asked for nothing on a stream (bit 16 of the word). */
  lemma SyncWithoutACall(c: Call, t: seq<Event>, o: Outcome)
    requires Legal(c, t, o) && c.Sync()
    ensures c.s == -1 ==> t == [] && o == Outcome(true, 0, BadFileDescriptor)
    ensures c.s != -1 && (c.SyncRecv? || c.SyncSend?) && c.allEmpty && c.state & 16 != 0 ==>
              t == [] && o == Outcome(true, 0, NoError)
    ensures c.s != -1 && !((c.SyncRecv? || c.SyncSend?) && c.allEmpty && c.state & 16 != 0) ==> t != []
  {
  }

  /** A blocking receive: refusals are waited out unless the user set non-blocking mode (bit 1), a failed wait
      or another failure is reported, and so is the count, except that no bytes end a stream. */
  lemma SyncReceives(c: Call, t: seq<Event>, o: Outcome)
    requires Legal(c, t, o) && (c.SyncRecv? || c.SyncRecvfrom? || c.SyncRecvmsg?) && t != []
    ensures forall i :: 0 <= i < |t| ==> t[i].op == if i % 2 == 0 then Op.Recvmsg(c.s, c.size) else PollIn(c.s, -1)
    ensures forall i :: 0 <= i < |t| - 1 && i % 2 == 0 ==>
              t[i].result < 0 && (t[i].errno == WouldBlock || t[i].errno == TryAgain) && c.state & 1 == 0
    ensures forall i :: 0 <= i < |t| - 1 && i % 2 == 1 ==> t[i].result >= 0
    ensures var e := t[|t| - 1];
            if |t| % 2 == 0 then e.result < 0 && o == Outcome(true, 0, e.errno)
            else if e.result > 0 then o == Outcome(true, e.result, NoError)
            else if e.result == 0 then
              o == Outcome(true, 0, if c.SyncRecv? && c.state & 16 != 0 then NoMessageAvailable else NoError)
            else
              && o == Outcome(true, 0, e.errno)
              && ((e.errno == WouldBlock || e.errno == TryAgain) ==> c.state & 1 != 0)
  {
    WaitLoopShape(t, c.Attempt(), c.Wait(), TransferPolicy(c.state));
    if |t| > 1 {
      assert t[0].op == c.Attempt() && TransferPolicy(c.state).Retries(t[0].errno);
    }
  }

  /** The end of a stream is reported, and on other sockets an empty message is not an error. */
  lemma EndOfStreamIsReported(s: Socket, state: StateWord, size: nat, t: seq<Event>, o: Outcome)
    requires s != -1 && Legal(Call.SyncRecv(s, state, size, false), t, o) && t != []
    requires Last(t).op == Op.Recvmsg(s, size) && Last(t).result == 0
    ensures o == Outcome(true, 0, if state & 16 != 0 then NoMessageAvailable else NoError)
  {
  }

  /** A blocking send, to the peer or for `sendto` to the address given. */
  lemma SyncSends(c: Call, t: seq<Event>, o: Outcome)
    requires Legal(c, t, o) && (c.SyncSend? || c.SyncSendto?) && t != []
    ensures forall i :: 0 <= i < |t| ==>
              t[i].op == if i % 2 == 0 then Op.Sendmsg(c.s, c.data, if c.SyncSendto? then To(c.address) else Peer)
                         else PollOut(c.s, -1)
    ensures forall i :: 0 <= i < |t| - 1 && i % 2 == 0 ==>
              t[i].result < 0 && (t[i].errno == WouldBlock || t[i].errno == TryAgain) && c.state & 1 == 0
    ensures forall i :: 0 <= i < |t| - 1 && i % 2 == 1 ==> t[i].result >= 0
    ensures var e := t[|t| - 1];
            if |t| % 2 == 0 then e.result < 0 && o == Outcome(true, 0, e.errno)
            else if e.result >= 0 then o == Outcome(true, e.result, NoError)
            else
              && o == Outcome(true, 0, e.errno)
              && ((e.errno == WouldBlock || e.errno == TryAgain) ==> c.state & 1 != 0)
  {
    WaitLoopShape(t, c.Attempt(), c.Wait(), TransferPolicy(c.state));
    if |t| > 1 {
      assert t[0].op == c.Attempt() && TransferPolicy(c.state).Retries(t[0].errno);
    }
  }

  /** A non-blocking receive repeats interrupted attempts; would-block leaves the counter and asks to be called
      again, the end of a stream leaves the counter, and anything else writes it. */
  lemma NonBlockingReceives(c: Call, t: seq<Event>, o: Outcome)
    requires Legal(c, t, o) && (c.NonBlockingRecv? || c.NonBlockingRecvfrom? || c.NonBlockingRecvmsg?)
    ensures t != [] && forall i :: 0 <= i < |t| ==> t[i].op == Op.Recvmsg(c.s, c.size)
    ensures forall i :: 0 <= i < |t| - 1 ==> t[i].result < 0 && t[i].errno == Interrupted
    ensures var e := t[|t| - 1];
            if e.result > 0 then o == Outcome(true, e.result, NoError)
            else if e.result == 0 then
              o == if c.NonBlockingRecv? && c.isStream then Outcome(true, c.initial, NoMessageAvailable)
                   else Outcome(true, 0, NoError)
            else if e.errno == WouldBlock || e.errno == TryAgain then o == Outcome(false, c.initial, e.errno)
            else o == Outcome(true, 0, e.errno) && e.errno != Interrupted
  {
    SpinLoopShape(t, c.Attempt());
    assert t == t[..|t| - 1] + [Last(t)];
  }

  lemma NonBlockingSends(c: Call, t: seq<Event>, o: Outcome)
    requires Legal(c, t, o) && (c.NonBlockingSend? || c.NonBlockingSendto?)
    ensures t != [] && forall i :: 0 <= i < |t| ==>
              t[i].op == Op.Sendmsg(c.s, c.data, if c.NonBlockingSendto? then To(c.address) else Peer)
    ensures forall i :: 0 <= i < |t| - 1 ==> t[i].result < 0 && t[i].errno == Interrupted
    ensures var e := t[|t| - 1];
            if e.result >= 0 then o == Outcome(true, e.result, NoError)
            else if e.errno == WouldBlock || e.errno == TryAgain then o == Outcome(false, c.initial, e.errno)
            else o == Outcome(true, 0, e.errno) && e.errno != Interrupted
  {
    SpinLoopShape(t, c.Attempt());
    assert t == t[..|t| - 1] + [Last(t)];
  }

  // -------------------------------------------------------------------- runs

  /** A call that was made, the system calls it made and what it reported. */
  datatype Record = Record(call: Call, events: seq<Event>, outcome: Outcome)

  ghost predicate LegalRun(run: seq<Record>) {
    forall r :: r in run ==>
      && Legal(r.call, r.events, r.outcome) && StartsAtZero(r.call)
      && forall e :: e in r.events ==> Answered(e)
  }

  function EventsOf(run: seq<Record>): seq<Event> {
    if |run| == 0 then [] else EventsOf(run[..|run| - 1]) + run[|run| - 1].events
  }

  function ReportedBytes(run: seq<Record>): nat {
    if |run| == 0 then 0 else ReportedBytes(run[..|run| - 1]) + run[|run| - 1].outcome.bytes
  }

  /** The data the caller believes was sent: of each sending call, as much as was reported. */
  function ReportedData(run: seq<Record>): seq<byte> {
    if |run| == 0 then []
    else
      var r := run[|run| - 1];
      ReportedData(run[..|run| - 1]) +
      if r.call.Sends() && r.outcome.bytes <= |r.call.data| then r.call.data[..r.outcome.bytes] else []
  }

  /** Over any run of calls, against any kernel, the reported counts add up to the bytes the kernel
      moved, and the reported data is the data that went out, byte for byte and in order. */
  lemma {:induction false} RunConserves(run: seq<Record>)
    requires LegalRun(run)
    ensures ReportedBytes(run) == Moved(EventsOf(run))
    ensures ReportedData(run) == Sent(EventsOf(run))
  {
    hide Legal, Answered, BytesOf, SentBy;
    if |run| > 0 {
      var front, r := run[..|run| - 1], run[|run| - 1];
      assert r in run;
      assert forall q :: q in front ==> q in run;
      RunConserves(front);
      CallConserves(r.call, r.events, r.outcome);
      MovedConcat(EventsOf(front), r.events);
      SentConcat(EventsOf(front), r.events);
    }
  }
}
