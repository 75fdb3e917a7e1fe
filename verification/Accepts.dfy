/** Accepting connections (NetLite/socket_ops.ipp). */
module Accepts {
  import opened Kernels
  import opened RetryLoops
  import opened SocketState
  import Transfers

  /** Would-block is repeated unless the user wants non-blocking behaviour, an aborted connection
      unless the user asked to be told. */
  function AcceptPolicy(state: StateWord): Policy {
    Policy(!Has(state, USER_SET_NON_BLOCKING), !Has(state, ENABLE_CONNECTION_ABORTED))
  }

  function Descriptor(e: Event): Socket {
    if e.op.AcceptCall? && e.Succeeded() then e.result else INVALID_SOCKET
  }

  /** What `sync_accept` may do and return. */
  ghost predicate LegalSync(s: Socket, state: StateWord, t: seq<Event>, newSocket: Socket, ec: Errc) {
    if s == INVALID_SOCKET then t == [] && newSocket == INVALID_SOCKET && ec == BadFileDescriptor
    else
      && WaitLoop(t, AcceptCall(s), PollIn(s, -1), AcceptPolicy(state))
      && newSocket == Descriptor(Last(t)) && ec == ErrorOf(Last(t))
  }

  /** What `non_blocking_accept` may do and return. */
  ghost predicate LegalNonBlocking(s: Socket, state: StateWord, t: seq<Event>,
                                   finished: bool, newSocket: Socket, ec: Errc) {
    if s == INVALID_SOCKET then
      t == [] && finished && newSocket == INVALID_SOCKET && ec == BadFileDescriptor
    else
      && SpinLoop(t, AcceptCall(s))
      && newSocket == Descriptor(Last(t)) && ec == ErrorOf(Last(t))
      && (finished <==> !IsWouldBlock(ec) && (IsAborted(ec) ==> Has(state, ENABLE_CONNECTION_ABORTED)))
  }

  method Accept(k: Kernel, s: Socket, ghost quiet: nat)
    returns (newSocket: Socket, ec: Errc, ghost e: Event)
    requires k.QuietFrom(quiet)
    modifies k
    ensures s == INVALID_SOCKET ==>
              newSocket == INVALID_SOCKET && ec == BadFileDescriptor
              && k.trace == old(k.trace) && k.next == old(k.next) && k.open == old(k.open)
    ensures s != INVALID_SOCKET ==>
              && Answers(e, AcceptCall(s), old(k.next), quiet)
              && newSocket == Descriptor(e) && ec == ErrorOf(e)
              && k.next == old(k.next) + 1 && k.trace == old(k.trace) + [e]
              && k.open == OpenAfter(old(k.open), e)
    ensures newSocket != INVALID_SOCKET ==> newSocket !in old(k.open)
  {
    if s == INVALID_SOCKET {
      return INVALID_SOCKET, BadFileDescriptor, Event(AcceptCall(s), -1, BadFileDescriptor, 0);
    }
    var answer := k.Call(AcceptCall(s));
    if !answer.Succeeded() && Transient(answer.errno) {
      RefusedEarly(k, old(k.next), AcceptCall(s), old(k.open), quiet);
    }
    e := answer;
    newSocket, ec := answer.result, answer.errno;
    if newSocket == INVALID_SOCKET {
      return;
    }
    ec := NoError;
  }

  method SyncAccept(k: Kernel, s: Socket, state: StateWord, ghost quiet: nat)
    returns (newSocket: Socket, ec: Errc, ghost t: seq<Event>)
    requires k.QuietFrom(quiet)
    modifies k
    ensures k.trace == old(k.trace) + t
    ensures LegalSync(s, state, t, newSocket, ec)
    ensures forall e :: e in t ==> Answered(e)
    ensures newSocket != INVALID_SOCKET ==>
              newSocket !in old(k.open) && k.open == old(k.open) + {newSocket}
    ensures newSocket == INVALID_SOCKET ==> k.open == old(k.open)
  {
    ghost var p := AcceptPolicy(state);
    ghost var attempt, wait := AcceptCall(s), PollIn(s, -1);
    t := [];
    while true
      invariant k.trace == old(k.trace) + t && k.open == old(k.open)
      invariant s == INVALID_SOCKET ==> t == []
      invariant Rounds(t, attempt, wait, p) && forall e :: e in t ==> Answered(e)
      decreases quiet - k.next
    {
      hide Rounds, WaitLoop, Answer, Answered;
      ghost var e;
      newSocket, ec, e := Accept(k, s, quiet);
      if newSocket != INVALID_SOCKET {
        LoopEndsWithAttempt(t, e, attempt, wait, p);
        t := t + [e];
        return;
      }
      if ec == WouldBlock || ec == TryAgain {
        if Has(state, USER_SET_NON_BLOCKING) {
          LoopEndsWithAttempt(t, e, attempt, wait, p);
          t := t + [e];
          break;
        }
      } else if ec == ConnectionAborted {
        if Has(state, ENABLE_CONNECTION_ABORTED) {
          LoopEndsWithAttempt(t, e, attempt, wait, p);
          t := t + [e];
          break;
        }
      } else if ec == ProtocolError {
        if Has(state, ENABLE_CONNECTION_ABORTED) {
          LoopEndsWithAttempt(t, e, attempt, wait, p);
          t := t + [e];
          break;
        }
      } else {
        if s != INVALID_SOCKET {
          LoopEndsWithAttempt(t, e, attempt, wait, p);
          t := t + [e];
        }
        break;
      }
      var ready;
      ghost var w;
      ready, ec, w := Transfers.PollRead(k, s, 0, -1);
      if ready < 0 {
        LoopEndsWithWait(t, e, w, attempt, wait, p);
        t := t + [e, w];
        break;
      }
      RoundsAppend(t, e, w, attempt, wait, p);
      t := t + [e, w];
    }
    newSocket := INVALID_SOCKET;
  }

  method NonBlockingAccept(k: Kernel, s: Socket, state: StateWord, ghost quiet: nat)
    returns (finished: bool, ec: Errc, newSocket: Socket, ghost t: seq<Event>)
    requires k.QuietFrom(quiet)
    modifies k
    ensures k.trace == old(k.trace) + t
    ensures LegalNonBlocking(s, state, t, finished, newSocket, ec)
    ensures forall e :: e in t ==> Answered(e)
    ensures newSocket != INVALID_SOCKET ==>
              newSocket !in old(k.open) && k.open == old(k.open) + {newSocket}
    ensures newSocket == INVALID_SOCKET ==> k.open == old(k.open)
  {
    ghost var attempt := AcceptCall(s);
    t := [];
    while true
      invariant k.trace == old(k.trace) + t && k.open == old(k.open)
      invariant s == INVALID_SOCKET ==> t == []
      invariant Spins(t, attempt) && forall e :: e in t ==> Answered(e)
      decreases quiet - k.next
    {
      hide Answer, Answered;
      ghost var e;
      newSocket, ec, e := Accept(k, s, quiet);
      if s == INVALID_SOCKET {
        return true, ec, newSocket, t;
      }
      if newSocket != INVALID_SOCKET {
        SpinsThenEnd(t, e, attempt);
        return true, ec, newSocket, t + [e];
      }
      if ec == Interrupted {
        t := t + [e];
        continue;
      }
      SpinsThenEnd(t, e, attempt);
      if ec == WouldBlock || ec == TryAgain {
      } else if ec == ConnectionAborted {
        if Has(state, ENABLE_CONNECTION_ABORTED) {
          return true, ec, newSocket, t + [e];
        }
      } else if ec == ProtocolError {
        if Has(state, ENABLE_CONNECTION_ABORTED) {
          return true, ec, newSocket, t + [e];
        }
      } else {
        return true, ec, newSocket, t + [e];
      }
      return false, ec, newSocket, t + [e];
    }
  }

  // ------------------------------------------------------------ consequences

  lemma {:induction false} YieldsNothing(t: seq<Event>)
    requires forall i :: 0 <= i < |t| ==> Descriptor(t[i]) == INVALID_SOCKET
    ensures Yielded(t) == []
  {
    if |t| > 0 {
      YieldsNothing(t[..|t| - 1]);
    }
  }

  /** A call of either accept operation and what came of it. */
  datatype Record = Record(s: Socket, state: StateWord, sync: bool, events: seq<Event>,
                           finished: bool, newSocket: Socket, ec: Errc)
  {
    ghost predicate Legal() {
      && (if sync then LegalSync(s, state, events, newSocket, ec)
          else LegalNonBlocking(s, state, events, finished, newSocket, ec))
      && forall e :: e in events ==> Answered(e)
    }

    /** The descriptors the caller was given. */
    function Given(): seq<Socket> {
      if newSocket != INVALID_SOCKET then [newSocket] else []
    }
  }

  lemma SyncAcceptNeverCloses(s: Socket, state: StateWord, t: seq<Event>, newSocket: Socket, ec: Errc)
    requires LegalSync(s, state, t, newSocket, ec)
    ensures forall i :: 0 <= i < |t| ==> !t[i].op.CloseCall?
  {
    if t != [] {
      WaitLoopShape(t, AcceptCall(s), PollIn(s, -1), AcceptPolicy(state));
    }
  }

  /** The caller is given exactly the descriptor the kernel yielded, and has one exactly when the
      error is clear. */
  lemma AcceptConserves(r: Record)
    requires r.Legal()
    ensures Yielded(r.events) == r.Given()
    ensures r.newSocket != INVALID_SOCKET <==> r.ec == NoError
  {
    var t := r.events;
    if t != [] {
      assert Answered(Last(t));
      if r.sync {
        WaitLoopShape(t, AcceptCall(r.s), PollIn(r.s, -1), AcceptPolicy(r.state));
      } else {
        SpinLoopShape(t, AcceptCall(r.s));
      }
      YieldsNothing(t[..|t| - 1]);
    }
  }

  /** A blocking accept surfaces would-block only to users who asked for non-blocking behaviour and an
      aborted connection only to users who asked for it, unless it is the error of a failed wait. */
  lemma SyncAcceptFilters(r: Record)
    requires r.Legal() && r.sync
    ensures IsWouldBlock(r.ec) ==> Has(r.state, USER_SET_NON_BLOCKING) || Last(r.events).op == PollIn(r.s, -1)
    ensures IsAborted(r.ec) ==> Has(r.state, ENABLE_CONNECTION_ABORTED) || Last(r.events).op == PollIn(r.s, -1)
  {
    if r.s != INVALID_SOCKET {
      WaitLoopShape(r.events, AcceptCall(r.s), PollIn(r.s, -1), AcceptPolicy(r.state));
    }
  }

  /** A non-blocking accept that asks to be run again has would-block or an unwanted aborted connection
      to report, and never an interruption. */
  lemma NonBlockingAcceptFilters(r: Record)
    requires r.Legal() && !r.sync
    ensures !r.finished <==> IsWouldBlock(r.ec) || (IsAborted(r.ec) && !Has(r.state, ENABLE_CONNECTION_ABORTED))
    ensures r.ec != Interrupted
    ensures forall i :: 0 <= i < |r.events| - 1 ==> !r.events[i].Succeeded() && r.events[i].errno == Interrupted
  {
    if r.s != INVALID_SOCKET {
      SpinLoopShape(r.events, AcceptCall(r.s));
    }
  }

  ghost predicate Waits(r: Record) {
    exists i :: 0 <= i < |r.events| && r.events[i].op.PollIn?
  }

  /** Under user-non-blocking mode a call waits if and only if its first attempt meets an aborted
      connection the user did not ask to be told about. */
  lemma WaitsIff(r: Record)
    requires r.Legal() && r.sync && r.s != INVALID_SOCKET && Has(r.state, USER_SET_NON_BLOCKING)
    ensures Waits(r) <==> !r.events[0].Succeeded() && IsAborted(r.events[0].errno)
                          && !Has(r.state, ENABLE_CONNECTION_ABORTED)
  {
    if !r.events[0].Succeeded() && AcceptPolicy(r.state).Retries(r.events[0].errno) {
      assert r.events[1].op.PollIn?;
    } else {
      assert |r.events| == 1 && !r.events[0].op.PollIn?;
    }
  }

  /** The kernel aborts a connection, waits for another, and accepts it as `fd`. */
  lemma AbortedThenAccepted(s: Socket, state: StateWord, fd: nat) returns (r: Record)
    requires s != INVALID_SOCKET && !Has(state, ENABLE_CONNECTION_ABORTED)
    ensures r.Legal() && r.sync && r.s == s && r.state == state && Waits(r) && r.newSocket == fd
  {
    var aborted := Event(AcceptCall(s), -1, ConnectionAborted, 0);
    var ready := Event(PollIn(s, -1), 1, NoError, 0);
    var accepted := Event(AcceptCall(s), fd, NoError, 0);
    r := Record(s, state, true, [aborted, ready, accepted], true, fd, NoError);
    assert r.events[2..] == [accepted];
    assert r.events[1].op.PollIn?;
  }

  /** User-non-blocking mode keeps `sync_accept` from ever waiting if and only if the user also asked to
      be told about aborted connections. */
  lemma NeverWaitsIff(s: Socket, state: StateWord)
    requires s != INVALID_SOCKET && Has(state, USER_SET_NON_BLOCKING)
    ensures (forall r: Record :: r.Legal() && r.sync && r.s == s && r.state == state ==> !Waits(r))
            <==> Has(state, ENABLE_CONNECTION_ABORTED)
  {
    if Has(state, ENABLE_CONNECTION_ABORTED) {
      forall r: Record | r.Legal() && r.sync && r.s == s && r.state == state ensures !Waits(r) {
        WaitsIff(r);
      }
    } else {
      var r := AbortedThenAccepted(s, state, 0);
      assert Waits(r);
    }
  }

  /** A blocking accept: would-block is waited out unless the user set non-blocking mode (bit 1), an aborted
      connection unless the user enabled reports (bit 4); a failed wait or anything else is reported. */
  lemma SyncAccepts(r: Record)
    requires r.Legal() && r.sync
    ensures r.s == -1 ==> r.events == [] && r.newSocket == -1 && r.ec == BadFileDescriptor
    ensures r.s != -1 ==>
              var t := r.events;
              && t != []
              && (forall i :: 0 <= i < |t| ==> t[i].op == if i % 2 == 0 then AcceptCall(r.s) else PollIn(r.s, -1))
              && (forall i :: 0 <= i < |t| - 1 && i % 2 == 1 ==> t[i].result >= 0)
              && (forall i :: 0 <= i < |t| - 1 && i % 2 == 0 ==>
                    && t[i].result < 0
                    && if t[i].errno == ConnectionAborted || t[i].errno == ProtocolError then r.state & 4 == 0
                       else (t[i].errno == WouldBlock || t[i].errno == TryAgain) && r.state & 1 == 0)
              && var e := t[|t| - 1];
                 if |t| % 2 == 1 && e.result >= 0 then r.newSocket == e.result && r.ec == NoError
                 else
                   && e.result < 0 && r.newSocket == -1 && r.ec == e.errno
                   && (|t| % 2 == 1 && (e.errno == ConnectionAborted || e.errno == ProtocolError) ==> r.state & 4 != 0)
                   && (|t| % 2 == 1 && (e.errno == WouldBlock || e.errno == TryAgain) ==> r.state & 1 != 0)
  {
    if r.s != INVALID_SOCKET {
      WaitLoopShape(r.events, AcceptCall(r.s), PollIn(r.s, -1), AcceptPolicy(r.state));
    }
  }

  /** An aborted connection ends the call, with a report, if and only if the user enabled that. */
  lemma AbortedEndsTheCallIff(r: Record, i: nat)
    requires r.Legal() && r.sync && r.s != INVALID_SOCKET && i < |r.events|
    requires r.events[i].op == AcceptCall(r.s) && r.events[i].result < 0
    requires r.events[i].errno == ConnectionAborted || r.events[i].errno == ProtocolError
    ensures i == |r.events| - 1 <==> Has(r.state, ENABLE_CONNECTION_ABORTED)
    ensures i == |r.events| - 1 ==> r.newSocket == INVALID_SOCKET && r.ec == r.events[i].errno
  {
    SyncAccepts(r);
  }

  lemma NonBlockingAccepts(r: Record)
    requires r.Legal() && !r.sync
    ensures r.s == -1 ==> r.events == [] && r.finished && r.newSocket == -1 && r.ec == BadFileDescriptor
    ensures r.s != -1 ==>
              var t := r.events;
              && t != [] && (forall i :: 0 <= i < |t| ==> t[i].op == AcceptCall(r.s))
              && (forall i :: 0 <= i < |t| - 1 ==> t[i].result < 0 && t[i].errno == Interrupted)
              && var e := t[|t| - 1];
                 if e.result >= 0 then r.finished && r.newSocket == e.result && r.ec == NoError
                 else
                   && r.newSocket == -1 && r.ec == e.errno && e.errno != Interrupted
                   && if e.errno == WouldBlock || e.errno == TryAgain then !r.finished
                      else if e.errno == ConnectionAborted || e.errno == ProtocolError then
                        r.finished <==> r.state & 4 != 0
                      else r.finished
  {
    if r.s != INVALID_SOCKET {
      SpinLoopShape(r.events, AcceptCall(r.s));
      assert r.events == r.events[..|r.events| - 1] + [Last(r.events)];
    }
  }

  function EventsOf(run: seq<Record>): seq<Event> {
    if |run| == 0 then [] else EventsOf(run[..|run| - 1]) + run[|run| - 1].events
  }

  function GivenBy(run: seq<Record>): seq<Socket> {
    if |run| == 0 then [] else GivenBy(run[..|run| - 1]) + run[|run| - 1].Given()
  }

  /** Over any run the callers are given the kernel's descriptors, each once and in order. */
  lemma {:induction false} RunConserves(run: seq<Record>)
    requires forall r :: r in run ==> r.Legal()
    ensures GivenBy(run) == Yielded(EventsOf(run))
  {
    if |run| > 0 {
      var front, r := run[..|run| - 1], run[|run| - 1];
      assert r in run;
      assert forall q :: q in front ==> q in run;
      RunConserves(front);
      AcceptConserves(r);
      YieldedConcat(EventsOf(front), r.events);
    }
  }

  // ----------------------------------------------------------------- programs

  /** A request to accept on the listener `s`. */
  datatype Call = Call(s: Socket, state: StateWord, sync: bool)

  /** The record is of this call. */
  ghost predicate Makes(r: Record, c: Call) {
    r.Legal() && r.s == c.s && r.state == c.state && r.sync == c.sync
  }

  /** Makes any one of the calls. */
  method Perform(k: Kernel, c: Call, ghost quiet: nat) returns (newSocket: Socket, ec: Errc, ghost r: Record)
    requires k.QuietFrom(quiet)
    modifies k
    ensures Makes(r, c) && r.newSocket == newSocket && r.ec == ec && k.trace == old(k.trace) + r.events
    ensures newSocket != INVALID_SOCKET ==>
              newSocket !in old(k.open) && k.open == old(k.open) + {newSocket}
    ensures newSocket == INVALID_SOCKET ==> k.open == old(k.open)
  {
    hide LegalSync, LegalNonBlocking, Answered;
    var finished := true;
    ghost var t;
    if c.sync {
      newSocket, ec, t := SyncAccept(k, c.s, c.state, quiet);
    } else {
      finished, ec, newSocket, t := NonBlockingAccept(k, c.s, c.state, quiet);
    }
    r := Record(c.s, c.state, c.sync, t, finished, newSocket, ec);
  }

  /** The records are of these calls. */
  ghost predicate Made(run: seq<Record>, calls: seq<Call>) {
    |run| == |calls| && forall i :: 0 <= i < |calls| ==> Makes(run[i], calls[i])
  }

  lemma MadeOneMore(run: seq<Record>, calls: seq<Call>, n: nat, r: Record)
    requires n < |calls| && Made(run, calls[..n]) && Makes(r, calls[n])
    ensures Made(run + [r], calls[..n + 1])
  {
  }

  lemma RunGrows(before: seq<Event>, run: seq<Record>, r: Record)
    ensures before + EventsOf(run + [r]) == before + EventsOf(run) + r.events
    ensures GivenBy(run + [r]) == GivenBy(run) + r.Given()
  {
    assert (run + [r])[..|run|] == run;
  }

  /** The open descriptors grew by exactly those given, all different and none of them open before. */
  ghost predicate Grown(before: set<Socket>, given: seq<Socket>, now: set<Socket>) {
    && (forall i, j :: 0 <= i < j < |given| ==> given[i] != given[j])
    && (forall fd :: fd in now <==> fd in before || fd in given)
    && (forall fd :: fd in given ==> fd !in before)
  }

  lemma GrownByNothing(open: set<Socket>)
    ensures Grown(open, [], open)
  {
  }

  lemma GrownByRecord(before: set<Socket>, given: seq<Socket>, now: set<Socket>, r: Record)
    requires Grown(before, given, now) && (r.newSocket == INVALID_SOCKET || r.newSocket !in now)
    ensures r.newSocket == INVALID_SOCKET ==> Grown(before, given + r.Given(), now)
    ensures r.newSocket != INVALID_SOCKET ==> Grown(before, given + r.Given(), now + {r.newSocket})
  {
    if r.newSocket == INVALID_SOCKET {
      assert given + r.Given() == given;
    }
  }

  /** Any program that accepts, blocking or not, again and again: it is given the kernel's descriptors, each
      once and in order, no two of them are the same, and they are what its descriptors grew by. */
  method PerformAll(k: Kernel, calls: seq<Call>, ghost quiet: nat)
    returns (given: seq<Socket>, ghost run: seq<Record>)
    requires k.QuietFrom(quiet)
    modifies k
    ensures Made(run, calls)
    ensures k.trace == old(k.trace) + EventsOf(run)
    ensures given == GivenBy(run) == Yielded(EventsOf(run))
    ensures Grown(old(k.open), given, k.open)
  {
    GrownByNothing(k.open);
    assert EventsOf([]) == [] && GivenBy([]) == [];
    assert Made([], calls[..0]);
    given, run := [], [];
    for n := 0 to |calls|
      invariant Made(run, calls[..n])
      invariant k.trace == old(k.trace) + EventsOf(run) && given == GivenBy(run)
      invariant Grown(old(k.open), given, k.open)
    {
      var newSocket, ec;
      ghost var r;
      ghost var open := k.open;
      newSocket, ec, r := Perform(k, calls[n], quiet);
      RunGrows(old(k.trace), run, r);
      MadeOneMore(run, calls, n, r);
      run := run + [r];
      GrownByRecord(old(k.open), given, open, r);
      if newSocket != INVALID_SOCKET {
        given := given + [newSocket];
      }
    }
    assert calls[..|calls|] == calls;
    AllLegal(run, calls);
    RunConserves(run);
  }

  lemma AllLegal(run: seq<Record>, calls: seq<Call>)
    requires Made(run, calls)
    ensures forall r :: r in run ==> r.Legal()
  {
  }
}
