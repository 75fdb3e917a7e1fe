/**
 Sending and receiving (NetLite/socket_ops.ipp): the single system calls and the
 ten retry loops around them, each of which keeps the contract `Legal` of its call.
 Their parameter `quiet` bounds the transient refusals the kernel has in store, so
 that the loops end.
 */
module Transfers {
  import opened Bytes
  import opened Kernels
  import opened RetryLoops
  import opened SocketState
  import opened TransferCalls

  // ------------------------------------------------------- system call wrappers

  method Recv(k: Kernel, s: Socket, size: nat, ghost quiet: nat)
    returns (bytes: int, ec: Errc, ghost e: Event)
    requires k.QuietFrom(quiet)
    modifies k
    ensures Answers(e, Op.Recvmsg(s, size), old(k.next), quiet)
    ensures bytes == e.result && ec == ErrorOf(e)
    ensures k.next == old(k.next) + 1 && k.trace == old(k.trace) + [e] && k.open == old(k.open)
  {
    var answer := k.Call(Op.Recvmsg(s, size));
    if !answer.Succeeded() && Transient(answer.errno) {
      RefusedEarly(k, old(k.next), Op.Recvmsg(s, size), old(k.open), quiet);
    }
    e := answer;
    bytes, ec := answer.result, answer.errno;
    if bytes >= 0 {
      ec := NoError;
    }
  }

  /** The address length is whatever the kernel stored, or unchanged if the call failed. */
  method Recvfrom(k: Kernel, s: Socket, size: nat, addrLen: nat, ghost quiet: nat)
    returns (bytes: int, newAddrLen: nat, ec: Errc, ghost e: Event)
    requires k.QuietFrom(quiet)
    modifies k
    ensures Answers(e, Op.Recvmsg(s, size), old(k.next), quiet)
    ensures bytes == e.result && ec == ErrorOf(e)
    ensures newAddrLen == if e.Succeeded() then e.extra else addrLen
    ensures k.next == old(k.next) + 1 && k.trace == old(k.trace) + [e] && k.open == old(k.open)
  {
    var answer := k.Call(Op.Recvmsg(s, size));
    if !answer.Succeeded() && Transient(answer.errno) {
      RefusedEarly(k, old(k.next), Op.Recvmsg(s, size), old(k.open), quiet);
    }
    e := answer;
    bytes, ec := answer.result, answer.errno;
    newAddrLen := if answer.Succeeded() then answer.extra else addrLen;
    if bytes >= 0 {
      ec := NoError;
    }
  }

  /** The flags of the message received, or none if the call failed. */
  method Recvmsg(k: Kernel, s: Socket, size: nat, ghost quiet: nat)
    returns (bytes: int, outFlags: nat, ec: Errc, ghost e: Event)
    requires k.QuietFrom(quiet)
    modifies k
    ensures Answers(e, Op.Recvmsg(s, size), old(k.next), quiet)
    ensures bytes == e.result && ec == ErrorOf(e)
    ensures outFlags == if e.Succeeded() then e.extra else 0
    ensures k.next == old(k.next) + 1 && k.trace == old(k.trace) + [e] && k.open == old(k.open)
  {
    var answer := k.Call(Op.Recvmsg(s, size));
    if !answer.Succeeded() && Transient(answer.errno) {
      RefusedEarly(k, old(k.next), Op.Recvmsg(s, size), old(k.open), quiet);
    }
    e := answer;
    bytes, ec := answer.result, answer.errno;
    if bytes >= 0 {
      ec := NoError;
      outFlags := answer.extra;
    } else {
      outFlags := 0;
    }
  }

  method Send(k: Kernel, s: Socket, data: seq<byte>, ghost quiet: nat)
    returns (bytes: int, ec: Errc, ghost e: Event)
    requires k.QuietFrom(quiet)
    modifies k
    ensures Answers(e, Op.Sendmsg(s, data, Peer), old(k.next), quiet)
    ensures bytes == e.result && ec == ErrorOf(e)
    ensures k.next == old(k.next) + 1 && k.trace == old(k.trace) + [e] && k.open == old(k.open)
  {
    var answer := k.Call(Op.Sendmsg(s, data, Peer));
    if !answer.Succeeded() && Transient(answer.errno) {
      RefusedEarly(k, old(k.next), Op.Sendmsg(s, data, Peer), old(k.open), quiet);
    }
    e := answer;
    bytes, ec := answer.result, answer.errno;
    if bytes >= 0 {
      ec := NoError;
    }
  }

  method Sendto(k: Kernel, s: Socket, data: seq<byte>, address: seq<byte>, ghost quiet: nat)
    returns (bytes: int, ec: Errc, ghost e: Event)
    requires k.QuietFrom(quiet)
    modifies k
    ensures Answers(e, Op.Sendmsg(s, data, To(address)), old(k.next), quiet)
    ensures bytes == e.result && ec == ErrorOf(e)
    ensures k.next == old(k.next) + 1 && k.trace == old(k.trace) + [e] && k.open == old(k.open)
  {
    var answer := k.Call(Op.Sendmsg(s, data, To(address)));
    if !answer.Succeeded() && Transient(answer.errno) {
      RefusedEarly(k, old(k.next), Op.Sendmsg(s, data, To(address)), old(k.open), quiet);
    }
    e := answer;
    bytes, ec := answer.result, answer.errno;
    if bytes >= 0 {
      ec := NoError;
    }
  }

  /** In user-non-blocking mode polling does not wait, and reports a timeout as would-block. */
  method PollRead(k: Kernel, s: Socket, state: StateWord, msec: int)
    returns (result: int, ec: Errc, ghost e: Event)
    modifies k
    ensures k.open == old(k.open)
    ensures s == INVALID_SOCKET ==>
              k.trace == old(k.trace) && result == -1 && ec == BadFileDescriptor && k.next == old(k.next)
    ensures s != INVALID_SOCKET ==>
              var user := Has(state, USER_SET_NON_BLOCKING);
              && e.op == PollIn(s, if user then 0 else msec) && Answered(e)
              && k.trace == old(k.trace) + [e] && k.next == old(k.next) + 1 && result == e.result
              && ec == if e.result == 0 && user then WouldBlock else ErrorOf(e)
  {
    if s == INVALID_SOCKET {
      return -1, BadFileDescriptor, Event(PollIn(s, msec), -1, BadFileDescriptor, 0);
    }
    var timeout := if Has(state, USER_SET_NON_BLOCKING) then 0 else msec;
    var answer := k.Call(PollIn(s, timeout));
    e := answer;
    result, ec := answer.result, answer.errno;
    if result == 0 {
      ec := if Has(state, USER_SET_NON_BLOCKING) then WouldBlock else NoError;
    } else if result > 0 {
      ec := NoError;
    }
  }

  method PollWrite(k: Kernel, s: Socket, state: StateWord, msec: int)
    returns (result: int, ec: Errc, ghost e: Event)
    modifies k
    ensures k.open == old(k.open)
    ensures s == INVALID_SOCKET ==>
              k.trace == old(k.trace) && result == -1 && ec == BadFileDescriptor && k.next == old(k.next)
    ensures s != INVALID_SOCKET ==>
              var user := Has(state, USER_SET_NON_BLOCKING);
              && e.op == PollOut(s, if user then 0 else msec) && Answered(e)
              && k.trace == old(k.trace) + [e] && k.next == old(k.next) + 1 && result == e.result
              && ec == if e.result == 0 && user then WouldBlock else ErrorOf(e)
  {
    if s == INVALID_SOCKET {
      return -1, BadFileDescriptor, Event(PollOut(s, msec), -1, BadFileDescriptor, 0);
    }
    var timeout := if Has(state, USER_SET_NON_BLOCKING) then 0 else msec;
    var answer := k.Call(PollOut(s, timeout));
    e := answer;
    result, ec := answer.result, answer.errno;
    if result == 0 {
      ec := if Has(state, USER_SET_NON_BLOCKING) then WouldBlock else NoError;
    } else if result > 0 {
      ec := NoError;
    }
  }

  // ------------------------------------------------------------- blocking loops

  method SyncRecv(k: Kernel, s: Socket, state: StateWord, size: nat, allEmpty: bool, ghost quiet: nat)
    returns (bytes: nat, ec: Errc, ghost t: seq<Event>)
    requires k.QuietFrom(quiet)
    modifies k
    ensures k.trace == old(k.trace) + t && k.open == old(k.open)
    ensures Legal(Call.SyncRecv(s, state, size, allEmpty), t, Outcome(true, bytes, ec))
    ensures forall e :: e in t ==> Answered(e)
  {
    ghost var c := Call.SyncRecv(s, state, size, allEmpty);
    if s == INVALID_SOCKET {
      return 0, BadFileDescriptor, [];
    }
    if allEmpty && Has(state, STREAM_ORIENTED) {
      return 0, NoError, [];
    }
    t := [];
    while true
      invariant k.trace == old(k.trace) + t && k.open == old(k.open)
      invariant Rounds(t, c.Attempt(), c.Wait(), TransferPolicy(state)) && forall e :: e in t ==> Answered(e)
      decreases quiet - k.next
    {
      hide Rounds, WaitLoop, Answer, Answered, Legal;
      var got;
      ghost var e;
      got, ec, e := Recv(k, s, size, quiet);
      if got > 0 {
        EndWithAttempt(c, t, e, Outcome(true, got, ec));
        return got, ec, t + [e];
      }
      if Has(state, STREAM_ORIENTED) && got == 0 {
        EndWithAttempt(c, t, e, Outcome(true, 0, NoMessageAvailable));
        return 0, NoMessageAvailable, t + [e];
      }
      if Has(state, USER_SET_NON_BLOCKING) || (ec != WouldBlock && ec != TryAgain) {
        EndWithAttempt(c, t, e, Outcome(true, 0, ec));
        return 0, ec, t + [e];
      }
      var ready;
      ghost var w;
      ready, ec, w := PollRead(k, s, 0, -1);
      if ready < 0 {
        EndWithWait(c, t, e, w, Outcome(true, 0, ec));
        return 0, ec, t + [e, w];
      }
      RoundsAppend(t, e, w, c.Attempt(), c.Wait(), TransferPolicy(state));
      t := t + [e, w];
    }
  }

  method SyncRecvfrom(k: Kernel, s: Socket, state: StateWord, size: nat, addrLen: nat, ghost quiet: nat)
    returns (bytes: nat, newAddrLen: nat, ec: Errc, ghost t: seq<Event>)
    requires k.QuietFrom(quiet)
    modifies k
    ensures k.trace == old(k.trace) + t && k.open == old(k.open)
    ensures Legal(Call.SyncRecvfrom(s, state, size), t, Outcome(true, bytes, ec))
    ensures forall e :: e in t ==> Answered(e)
    ensures newAddrLen == if t != [] && Last(t).op.Recvmsg? && Last(t).Succeeded() then Last(t).extra else addrLen
  {
    ghost var c := Call.SyncRecvfrom(s, state, size);
    newAddrLen := addrLen;
    if s == INVALID_SOCKET {
      return 0, newAddrLen, BadFileDescriptor, [];
    }
    t := [];
    while true
      invariant k.trace == old(k.trace) + t && k.open == old(k.open)
      invariant Rounds(t, c.Attempt(), c.Wait(), TransferPolicy(state)) && forall e :: e in t ==> Answered(e)
      invariant newAddrLen == addrLen
      decreases quiet - k.next
    {
      hide Rounds, WaitLoop, Answer, Answered, Legal;
      var got;
      ghost var e;
      got, newAddrLen, ec, e := Recvfrom(k, s, size, newAddrLen, quiet);
      if got >= 0 {
        EndWithAttempt(c, t, e, Outcome(true, got, ec));
        return got, newAddrLen, ec, t + [e];
      }
      if Has(state, USER_SET_NON_BLOCKING) || (ec != WouldBlock && ec != TryAgain) {
        EndWithAttempt(c, t, e, Outcome(true, 0, ec));
        return 0, newAddrLen, ec, t + [e];
      }
      var ready;
      ghost var w;
      ready, ec, w := PollRead(k, s, 0, -1);
      if ready < 0 {
        EndWithWait(c, t, e, w, Outcome(true, 0, ec));
        return 0, newAddrLen, ec, t + [e, w];
      }
      RoundsAppend(t, e, w, c.Attempt(), c.Wait(), TransferPolicy(state));
      t := t + [e, w];
    }
  }

  /** `flags` is the caller's `out_flags` before the call. */
  method SyncRecvmsg(k: Kernel, s: Socket, state: StateWord, size: nat, flags: nat, ghost quiet: nat)
    returns (bytes: nat, outFlags: nat, ec: Errc, ghost t: seq<Event>)
    requires k.QuietFrom(quiet)
    modifies k
    ensures k.trace == old(k.trace) + t && k.open == old(k.open)
    ensures Legal(Call.SyncRecvmsg(s, state, size), t, Outcome(true, bytes, ec))
    ensures forall e :: e in t ==> Answered(e)
    ensures outFlags == if t == [] then flags
                        else if Last(t).op.Recvmsg? && Last(t).Succeeded() then Last(t).extra else 0
  {
    ghost var c := Call.SyncRecvmsg(s, state, size);
    outFlags := flags;
    if s == INVALID_SOCKET {
      return 0, outFlags, BadFileDescriptor, [];
    }
    t := [];
    while true
      invariant k.trace == old(k.trace) + t && k.open == old(k.open)
      invariant Rounds(t, c.Attempt(), c.Wait(), TransferPolicy(state)) && forall e :: e in t ==> Answered(e)
      decreases quiet - k.next
    {
      hide Rounds, WaitLoop, Answer, Answered, Legal;
      var got;
      ghost var e;
      got, outFlags, ec, e := Recvmsg(k, s, size, quiet);
      if got >= 0 {
        EndWithAttempt(c, t, e, Outcome(true, got, ec));
        return got, outFlags, ec, t + [e];
      }
      if Has(state, USER_SET_NON_BLOCKING) || (ec != WouldBlock && ec != TryAgain) {
        EndWithAttempt(c, t, e, Outcome(true, 0, ec));
        return 0, outFlags, ec, t + [e];
      }
      var ready;
      ghost var w;
      ready, ec, w := PollRead(k, s, 0, -1);
      if ready < 0 {
        EndWithWait(c, t, e, w, Outcome(true, 0, ec));
        return 0, outFlags, ec, t + [e, w];
      }
      RoundsAppend(t, e, w, c.Attempt(), c.Wait(), TransferPolicy(state));
      t := t + [e, w];
    }
  }

  method SyncSend(k: Kernel, s: Socket, state: StateWord, data: seq<byte>, allEmpty: bool, ghost quiet: nat)
    returns (bytes: nat, ec: Errc, ghost t: seq<Event>)
    requires k.QuietFrom(quiet)
    modifies k
    ensures k.trace == old(k.trace) + t && k.open == old(k.open)
    ensures Legal(Call.SyncSend(s, state, data, allEmpty), t, Outcome(true, bytes, ec))
    ensures forall e :: e in t ==> Answered(e)
  {
    ghost var c := Call.SyncSend(s, state, data, allEmpty);
    if s == INVALID_SOCKET {
      return 0, BadFileDescriptor, [];
    }
    if allEmpty && Has(state, STREAM_ORIENTED) {
      return 0, NoError, [];
    }
    t := [];
    while true
      invariant k.trace == old(k.trace) + t && k.open == old(k.open)
      invariant Rounds(t, c.Attempt(), c.Wait(), TransferPolicy(state)) && forall e :: e in t ==> Answered(e)
      decreases quiet - k.next
    {
      hide Rounds, WaitLoop, Answer, Answered, Legal;
      var got;
      ghost var e;
      got, ec, e := Send(k, s, data, quiet);
      if got >= 0 {
        EndWithAttempt(c, t, e, Outcome(true, got, ec));
        return got, ec, t + [e];
      }
      if Has(state, USER_SET_NON_BLOCKING) || (ec != WouldBlock && ec != TryAgain) {
        EndWithAttempt(c, t, e, Outcome(true, 0, ec));
        return 0, ec, t + [e];
      }
      var ready;
      ghost var w;
      ready, ec, w := PollWrite(k, s, 0, -1);
      if ready < 0 {
        EndWithWait(c, t, e, w, Outcome(true, 0, ec));
        return 0, ec, t + [e, w];
      }
      RoundsAppend(t, e, w, c.Attempt(), c.Wait(), TransferPolicy(state));
      t := t + [e, w];
    }
  }

  method SyncSendto(k: Kernel, s: Socket, state: StateWord, data: seq<byte>, address: seq<byte>, ghost quiet: nat)
    returns (bytes: nat, ec: Errc, ghost t: seq<Event>)
    requires k.QuietFrom(quiet)
    modifies k
    ensures k.trace == old(k.trace) + t && k.open == old(k.open)
    ensures Legal(Call.SyncSendto(s, state, data, address), t, Outcome(true, bytes, ec))
    ensures forall e :: e in t ==> Answered(e)
  {
    ghost var c := Call.SyncSendto(s, state, data, address);
    if s == INVALID_SOCKET {
      return 0, BadFileDescriptor, [];
    }
    t := [];
    while true
      invariant k.trace == old(k.trace) + t && k.open == old(k.open)
      invariant Rounds(t, c.Attempt(), c.Wait(), TransferPolicy(state)) && forall e :: e in t ==> Answered(e)
      decreases quiet - k.next
    {
      hide Rounds, WaitLoop, Answer, Answered, Legal;
      var got;
      ghost var e;
      got, ec, e := Sendto(k, s, data, address, quiet);
      if got >= 0 {
        EndWithAttempt(c, t, e, Outcome(true, got, ec));
        return got, ec, t + [e];
      }
      if Has(state, USER_SET_NON_BLOCKING) || (ec != WouldBlock && ec != TryAgain) {
        EndWithAttempt(c, t, e, Outcome(true, 0, ec));
        return 0, ec, t + [e];
      }
      var ready;
      ghost var w;
      ready, ec, w := PollWrite(k, s, 0, -1);
      if ready < 0 {
        EndWithWait(c, t, e, w, Outcome(true, 0, ec));
        return 0, ec, t + [e, w];
      }
      RoundsAppend(t, e, w, c.Attempt(), c.Wait(), TransferPolicy(state));
      t := t + [e, w];
    }
  }

  // --------------------------------------------------------- non-blocking loops

  method NonBlockingRecv(k: Kernel, s: Socket, size: nat, isStream: bool, initial: nat, ghost quiet: nat)
    returns (finished: bool, ec: Errc, bytesTransferred: nat, ghost t: seq<Event>)
    requires k.QuietFrom(quiet)
    modifies k
    ensures k.trace == old(k.trace) + t && k.open == old(k.open)
    ensures Legal(Call.NonBlockingRecv(s, size, isStream, initial), t, Outcome(finished, bytesTransferred, ec))
    ensures forall e :: e in t ==> Answered(e)
    ensures t != []
  {
    ghost var c := Call.NonBlockingRecv(s, size, isStream, initial);
    bytesTransferred, t := initial, [];
    while true
      invariant k.trace == old(k.trace) + t && k.open == old(k.open)
      invariant Spins(t, c.Attempt()) && forall e :: e in t ==> Answered(e)
      invariant bytesTransferred == initial
      decreases quiet - k.next
    {
      hide SpinLoop, Answer, Answered, Legal;
      var got;
      ghost var e;
      got, ec, e := Recv(k, s, size, quiet);
      if isStream && got == 0 {
        EndSpinning(c, t, e, Outcome(true, initial, NoMessageAvailable));
        finished, ec, t := true, NoMessageAvailable, t + [e];
        return;
      }
      if ec == Interrupted {
        t := t + [e];
        continue;
      }
      if ec == WouldBlock || ec == TryAgain {
        EndSpinning(c, t, e, Outcome(false, initial, ec));
        finished, t := false, t + [e];
        return;
      }
      if got >= 0 {
        ec := NoError;
        bytesTransferred := got;
      } else {
        bytesTransferred := 0;
      }
      EndSpinning(c, t, e, Outcome(true, bytesTransferred, ec));
      finished, t := true, t + [e];
      return;
    }
  }

  method NonBlockingRecvfrom(k: Kernel, s: Socket, size: nat, addrLen: nat, initial: nat, ghost quiet: nat)
    returns (finished: bool, newAddrLen: nat, ec: Errc, bytesTransferred: nat, ghost t: seq<Event>)
    requires k.QuietFrom(quiet)
    modifies k
    ensures k.trace == old(k.trace) + t && k.open == old(k.open)
    ensures Legal(Call.NonBlockingRecvfrom(s, size, initial), t, Outcome(finished, bytesTransferred, ec))
    ensures forall e :: e in t ==> Answered(e)
    ensures t != []
    ensures newAddrLen == if Last(t).Succeeded() then Last(t).extra else addrLen
  {
    ghost var c := Call.NonBlockingRecvfrom(s, size, initial);
    bytesTransferred, t := initial, [];
    newAddrLen := addrLen;
    while true
      invariant k.trace == old(k.trace) + t && k.open == old(k.open)
      invariant Spins(t, c.Attempt()) && forall e :: e in t ==> Answered(e)
      invariant bytesTransferred == initial
      invariant newAddrLen == addrLen
      decreases quiet - k.next
    {
      hide SpinLoop, Answer, Answered, Legal;
      var got;
      ghost var e;
      got, newAddrLen, ec, e := Recvfrom(k, s, size, newAddrLen, quiet);
      if ec == Interrupted {
        t := t + [e];
        continue;
      }
      if ec == WouldBlock || ec == TryAgain {
        EndSpinning(c, t, e, Outcome(false, initial, ec));
        finished, t := false, t + [e];
        return;
      }
      if got >= 0 {
        ec := NoError;
        bytesTransferred := got;
      } else {
        bytesTransferred := 0;
      }
      EndSpinning(c, t, e, Outcome(true, bytesTransferred, ec));
      finished, t := true, t + [e];
      return;
    }
  }

  method NonBlockingRecvmsg(k: Kernel, s: Socket, size: nat, initial: nat, ghost quiet: nat)
    returns (finished: bool, outFlags: nat, ec: Errc, bytesTransferred: nat, ghost t: seq<Event>)
    requires k.QuietFrom(quiet)
    modifies k
    ensures k.trace == old(k.trace) + t && k.open == old(k.open)
    ensures Legal(Call.NonBlockingRecvmsg(s, size, initial), t, Outcome(finished, bytesTransferred, ec))
    ensures forall e :: e in t ==> Answered(e)
    ensures t != []
    ensures outFlags == if Last(t).Succeeded() then Last(t).extra else 0
  {
    ghost var c := Call.NonBlockingRecvmsg(s, size, initial);
    bytesTransferred, t := initial, [];
    while true
      invariant k.trace == old(k.trace) + t && k.open == old(k.open)
      invariant Spins(t, c.Attempt()) && forall e :: e in t ==> Answered(e)
      invariant bytesTransferred == initial
      decreases quiet - k.next
    {
      hide SpinLoop, Answer, Answered, Legal;
      var got;
      ghost var e;
      got, outFlags, ec, e := Recvmsg(k, s, size, quiet);
      if ec == Interrupted {
        t := t + [e];
        continue;
      }
      if ec == WouldBlock || ec == TryAgain {
        EndSpinning(c, t, e, Outcome(false, initial, ec));
        finished, t := false, t + [e];
        return;
      }
      if got >= 0 {
        ec := NoError;
        bytesTransferred := got;
      } else {
        bytesTransferred := 0;
      }
      EndSpinning(c, t, e, Outcome(true, bytesTransferred, ec));
      finished, t := true, t + [e];
      return;
    }
  }

  method NonBlockingSend(k: Kernel, s: Socket, data: seq<byte>, initial: nat, ghost quiet: nat)
    returns (finished: bool, ec: Errc, bytesTransferred: nat, ghost t: seq<Event>)
    requires k.QuietFrom(quiet)
    modifies k
    ensures k.trace == old(k.trace) + t && k.open == old(k.open)
    ensures Legal(Call.NonBlockingSend(s, data, initial), t, Outcome(finished, bytesTransferred, ec))
    ensures forall e :: e in t ==> Answered(e)
    ensures t != []
  {
    ghost var c := Call.NonBlockingSend(s, data, initial);
    bytesTransferred, t := initial, [];
    while true
      invariant k.trace == old(k.trace) + t && k.open == old(k.open)
      invariant Spins(t, c.Attempt()) && forall e :: e in t ==> Answered(e)
      invariant bytesTransferred == initial
      decreases quiet - k.next
    {
      hide SpinLoop, Answer, Answered, Legal;
      var got;
      ghost var e;
      got, ec, e := Send(k, s, data, quiet);
      if ec == Interrupted {
        t := t + [e];
        continue;
      }
      if ec == WouldBlock || ec == TryAgain {
        EndSpinning(c, t, e, Outcome(false, initial, ec));
        finished, t := false, t + [e];
        return;
      }
      if got >= 0 {
        ec := NoError;
        bytesTransferred := got;
      } else {
        bytesTransferred := 0;
      }
      EndSpinning(c, t, e, Outcome(true, bytesTransferred, ec));
      finished, t := true, t + [e];
      return;
    }
  }

  method NonBlockingSendto(k: Kernel, s: Socket, data: seq<byte>, address: seq<byte>, initial: nat, ghost quiet: nat)
    returns (finished: bool, ec: Errc, bytesTransferred: nat, ghost t: seq<Event>)
    requires k.QuietFrom(quiet)
    modifies k
    ensures k.trace == old(k.trace) + t && k.open == old(k.open)
    ensures Legal(Call.NonBlockingSendto(s, data, address, initial), t, Outcome(finished, bytesTransferred, ec))
    ensures forall e :: e in t ==> Answered(e)
    ensures t != []
  {
    ghost var c := Call.NonBlockingSendto(s, data, address, initial);
    bytesTransferred, t := initial, [];
    while true
      invariant k.trace == old(k.trace) + t && k.open == old(k.open)
      invariant Spins(t, c.Attempt()) && forall e :: e in t ==> Answered(e)
      invariant bytesTransferred == initial
      decreases quiet - k.next
    {
      hide SpinLoop, Answer, Answered, Legal;
      var got;
      ghost var e;
      got, ec, e := Sendto(k, s, data, address, quiet);
      if ec == Interrupted {
        t := t + [e];
        continue;
      }
      if ec == WouldBlock || ec == TryAgain {
        EndSpinning(c, t, e, Outcome(false, initial, ec));
        finished, t := false, t + [e];
        return;
      }
      if got >= 0 {
        ec := NoError;
        bytesTransferred := got;
      } else {
        bytesTransferred := 0;
      }
      EndSpinning(c, t, e, Outcome(true, bytesTransferred, ec));
      finished, t := true, t + [e];
      return;
    }
  }

  // -------------------------------------------------------------------- runs

  /** Makes any one of the ten calls. */
  method Perform(k: Kernel, c: Call, addrLen: nat, ghost quiet: nat)
    returns (o: Outcome, ghost t: seq<Event>)
    requires k.QuietFrom(quiet)
    modifies k
    ensures k.trace == old(k.trace) + t && k.open == old(k.open)
    ensures Legal(c, t, o)
    ensures forall e :: e in t ==> Answered(e)
  {
    hide Legal, Answered;
    var finished, bytes, ec, ignored := true, 0, NoError, 0;
    match c {
      case SyncRecv(s, state, size, allEmpty) => bytes, ec, t := SyncRecv(k, s, state, size, allEmpty, quiet);
      case SyncRecvfrom(s, state, size) => bytes, ignored, ec, t := SyncRecvfrom(k, s, state, size, addrLen, quiet);
      case SyncRecvmsg(s, state, size) => bytes, ignored, ec, t := SyncRecvmsg(k, s, state, size, 0, quiet);
      case SyncSend(s, state, data, allEmpty) => bytes, ec, t := SyncSend(k, s, state, data, allEmpty, quiet);
      case SyncSendto(s, state, data, address) => bytes, ec, t := SyncSendto(k, s, state, data, address, quiet);
      case NonBlockingRecv(s, size, isStream, initial) =>
        finished, ec, bytes, t := NonBlockingRecv(k, s, size, isStream, initial, quiet);
      case NonBlockingRecvfrom(s, size, initial) =>
        finished, ignored, ec, bytes, t := NonBlockingRecvfrom(k, s, size, addrLen, initial, quiet);
      case NonBlockingRecvmsg(s, size, initial) =>
        finished, ignored, ec, bytes, t := NonBlockingRecvmsg(k, s, size, initial, quiet);
      case NonBlockingSend(s, data, initial) =>
        finished, ec, bytes, t := NonBlockingSend(k, s, data, initial, quiet);
      case NonBlockingSendto(s, data, address, initial) =>
        finished, ec, bytes, t := NonBlockingSendto(k, s, data, address, initial, quiet);
    }
    o := Outcome(finished, bytes, ec);
  }

  /** Any program that makes these calls one after the other: the counts it is told add up to what
      the kernel moved, and what it is told was sent is what went out. */
  method PerformAll(k: Kernel, calls: seq<Call>, addrLen: nat, ghost quiet: nat)
    returns (outcomes: seq<Outcome>, ghost run: seq<Record>)
    requires k.QuietFrom(quiet)
    requires forall c :: c in calls ==> StartsAtZero(c)
    modifies k
    ensures |run| == |outcomes| == |calls|
    ensures forall i :: 0 <= i < |calls| ==> run[i].call == calls[i] && run[i].outcome == outcomes[i]
    ensures k.trace == old(k.trace) + EventsOf(run) && LegalRun(run)
    ensures Moved(k.trace) == Moved(old(k.trace)) + ReportedBytes(run)
    ensures Sent(k.trace) == Sent(old(k.trace)) + ReportedData(run)
  {
    hide Legal, Answered, StartsAtZero, Moved, Sent, ReportedBytes, ReportedData;
    outcomes, run := [], [];
    for i := 0 to |calls|
      invariant |run| == |outcomes| == i
      invariant forall j :: 0 <= j < i ==> run[j].call == calls[j] && run[j].outcome == outcomes[j]
      invariant k.trace == old(k.trace) + EventsOf(run) && LegalRun(run)
    {
      var o;
      ghost var t;
      o, t := Perform(k, calls[i], addrLen, quiet);
      ghost var r := Record(calls[i], t, o);
      assert (run + [r])[..i] == run;
      outcomes, run := outcomes + [o], run + [r];
    }
    RunConserves(run);
    MovedConcat(old(k.trace), EventsOf(run));
    SentConcat(old(k.trace), EventsOf(run));
  }
}
