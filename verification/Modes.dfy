/**
 The operations of NetLite/socket_ops.ipp that maintain the state word: blocking
 modes, `ioctl`, socket options and `close`. Each operation's contract is `Legal`:
 its system calls, its result and the new state word.
 */
module Modes {
  import opened Kernels
  import opened SocketState

  /** The (level, name) pairs the operations tell apart. */
  datatype SockOption = AlwaysFail | EnableConnectionAborted | Linger | OtherOption

  const SIZEOF_INT := 4

  datatype Call =
    | SetUserMode(value: bool)
    | SetInternalMode(value: bool)
    | IoctlCall(isFionbio: bool, cmd: int, arg: int)
    | SetSockOptCall(option: SockOption, optVal: int, len: nat)
    | GetSockOptCall(option: SockOption, len: nat)
    | CloseSocket(destruction: bool)

  /** One call on descriptor `s` with the state word before and after; `result` is negative on failure, and
      `value` is what the connection-aborted option read as. */
  datatype Step = Step(s: Socket, call: Call, before: StateWord, after: StateWord,
                       result: int, ec: Errc, events: seq<Event>, value: int := 0)

  function WithUserMode(state: StateWord, value: bool): StateWord {
    if value then SetFlags(state, USER_SET_NON_BLOCKING)
    else ClearFlags(state, NON_BLOCKING)
  }

  function WithInternalMode(state: StateWord, value: bool): StateWord {
    if value then SetFlags(state, INTERNAL_NON_BLOCKING) else ClearFlags(state, INTERNAL_NON_BLOCKING)
  }

  function WithAborted(state: StateWord, value: bool): StateWord {
    if value then SetFlags(state, ENABLE_CONNECTION_ABORTED)
    else ClearFlags(state, ENABLE_CONNECTION_ABORTED)
  }

  /** The step made no system call, failed with `ec` and left the state word alone. */
  ghost predicate Refused(p: Step, ec: Errc) {
    p.events == [] && p.result == -1 && p.ec == ec && p.after == p.before
  }

  /** The step made the one system call `op`, reports its answer, and moves to `next` if it succeeded. */
  ghost predicate OneCall(p: Step, op: Op, next: StateWord) {
    && |p.events| == 1 && p.events[0].op == op
    && p.result == p.events[0].result && p.ec == ErrorOf(p.events[0])
    && p.after == if p.events[0].Succeeded() then next else p.before
  }

  /** The first attempt to close was refused with would-block. */
  ghost predicate NeedsSecondAttempt(first: Event) {
    !first.Succeeded() && IsWouldBlock(first.errno)
  }

  /** Closing makes one attempt, or after would-block resets the blocking mode, ignores whether that
      worked, and makes another; a destructor first turns lingering off if the user had turned it on. */
  ghost predicate LegalClose(p: Step, destruction: bool) {
    var lingering := destruction && Has(p.before, USER_SET_LINGER);
    var n := if lingering then 1 else 0;
    && |p.events| > n
    && (lingering ==> p.events[0].op == SetOption(p.s, true, 0))
    && p.events[n].op == CloseCall(p.s)
    && p.result == p.events[|p.events| - 1].result
    && p.ec == ErrorOf(p.events[|p.events| - 1])
    && if NeedsSecondAttempt(p.events[n]) then
         && |p.events| == n + 3
         && p.events[n + 1].op == Fionbio(p.s, false)
         && p.events[n + 2].op == CloseCall(p.s)
         && p.after == ClearFlags(p.before, NON_BLOCKING)
       else
         |p.events| == n + 1 && p.after == p.before
  }

  ghost predicate Legal(p: Step) {
    match p.call
    case SetUserMode(value) =>
      if p.s == INVALID_SOCKET then Refused(p, BadFileDescriptor)
      else OneCall(p, Fionbio(p.s, value), WithUserMode(p.before, value))
    case SetInternalMode(value) =>
      if p.s == INVALID_SOCKET then Refused(p, BadFileDescriptor)
      else if !value && Has(p.before, USER_SET_NON_BLOCKING) then Refused(p, InvalidArgument)
      else OneCall(p, Fionbio(p.s, value), WithInternalMode(p.before, value))
    case IoctlCall(isFionbio, cmd, arg) =>
      if p.s == INVALID_SOCKET then Refused(p, BadFileDescriptor)
      else if isFionbio then OneCall(p, Fionbio(p.s, arg != 0), WithUserMode(p.before, arg != 0))
      else OneCall(p, OtherIoctl(p.s, cmd), p.before)
    case SetSockOptCall(option, value, len) =>
      if p.s == INVALID_SOCKET then Refused(p, BadFileDescriptor)
      else if option == AlwaysFail then Refused(p, InvalidArgument)
      else if option == EnableConnectionAborted then
        if len != SIZEOF_INT then Refused(p, InvalidArgument)
        else && p.events == [] && p.result == 0 && p.ec == NoError
             && p.after == WithAborted(p.before, value != 0)
      else
        var marked := if option == Linger then SetFlags(p.before, USER_SET_LINGER) else p.before;
        && OneCall(p.(before := marked), SetOption(p.s, option == Linger, value), marked)
    case GetSockOptCall(option, len) =>
      if p.s == INVALID_SOCKET then Refused(p, BadFileDescriptor)
      else if option == AlwaysFail then Refused(p, InvalidArgument)
      else if option == EnableConnectionAborted then
        if len != SIZEOF_INT then Refused(p, InvalidArgument)
        else && p.events == [] && p.result == 0 && p.ec == NoError && p.after == p.before
             && p.value == if Has(p.before, ENABLE_CONNECTION_ABORTED) then 1 else 0
      else OneCall(p, GetOption(p.s), p.before)
    case CloseSocket(destruction) =>
      if p.s == INVALID_SOCKET then
        p.events == [] && p.result == 0 && p.ec == NoError && p.after == p.before
      else LegalClose(p, destruction)
  }

  // -------------------------------------------------------------- operations

  method SetUserNonBlocking(k: Kernel, s: Socket, state: StateWord, value: bool)
    returns (ok: bool, newState: StateWord, ec: Errc, ghost p: Step)
    modifies k
    ensures p.s == s && p.call == SetUserMode(value) && p.before == state && Legal(p)
    ensures newState == p.after && ec == p.ec && (ok <==> p.result >= 0)
    ensures k.trace == old(k.trace) + p.events && k.open == old(k.open)
  {
    hide Has, SetFlags, ClearFlags, Answer;
    newState := state;
    if s == INVALID_SOCKET {
      ok, ec := false, BadFileDescriptor;
      p := Step(s, SetUserMode(value), state, state, -1, ec, []);
      return;
    }
    var e := k.Call(Fionbio(s, value));
    ok, ec := false, e.errno;
    if e.result >= 0 {
      ec := NoError;
      if value {
        newState := SetFlags(newState, USER_SET_NON_BLOCKING);
      } else {
        newState := ClearFlags(newState, USER_SET_NON_BLOCKING | INTERNAL_NON_BLOCKING);
      }
      ok := true;
    }
    p := Step(s, SetUserMode(value), state, newState, e.result, ec, [e]);
  }

  method SetInternalNonBlocking(k: Kernel, s: Socket, state: StateWord, value: bool)
    returns (ok: bool, newState: StateWord, ec: Errc, ghost p: Step)
    modifies k
    ensures p.s == s && p.call == SetInternalMode(value) && p.before == state && Legal(p)
    ensures newState == p.after && ec == p.ec && (ok <==> p.result >= 0)
    ensures k.trace == old(k.trace) + p.events && k.open == old(k.open)
  {
    hide Has, SetFlags, ClearFlags, Answer;
    newState := state;
    if s == INVALID_SOCKET {
      ok, ec := false, BadFileDescriptor;
      p := Step(s, SetInternalMode(value), state, state, -1, ec, []);
      return;
    }
    if !value && Has(state, USER_SET_NON_BLOCKING) {
      ok, ec := false, InvalidArgument;
      p := Step(s, SetInternalMode(value), state, state, -1, ec, []);
      return;
    }
    var e := k.Call(Fionbio(s, value));
    ok, ec := false, e.errno;
    if e.result >= 0 {
      ec := NoError;
      if value {
        newState := SetFlags(newState, INTERNAL_NON_BLOCKING);
      } else {
        newState := ClearFlags(newState, INTERNAL_NON_BLOCKING);
      }
      ok := true;
    }
    p := Step(s, SetInternalMode(value), state, newState, e.result, ec, [e]);
  }

  method Ioctl(k: Kernel, s: Socket, state: StateWord, isFionbio: bool, cmd: int, arg: int)
    returns (result: int, newState: StateWord, ec: Errc, ghost p: Step)
    modifies k
    ensures p.s == s && p.call == IoctlCall(isFionbio, cmd, arg) && p.before == state && Legal(p)
    ensures newState == p.after && ec == p.ec && result == p.result
    ensures k.trace == old(k.trace) + p.events && k.open == old(k.open)
  {
    hide Has, SetFlags, ClearFlags, Answer;
    newState := state;
    if s == INVALID_SOCKET {
      result, ec := -1, BadFileDescriptor;
      p := Step(s, IoctlCall(isFionbio, cmd, arg), state, state, -1, ec, []);
      return;
    }
    var e := k.Call(if isFionbio then Fionbio(s, arg != 0) else OtherIoctl(s, cmd));
    result, ec := e.result, e.errno;
    if result >= 0 {
      ec := NoError;
      if isFionbio {
        if arg != 0 {
          newState := SetFlags(newState, USER_SET_NON_BLOCKING);
        } else {
          newState := ClearFlags(newState, USER_SET_NON_BLOCKING | INTERNAL_NON_BLOCKING);
        }
      }
    }
    p := Step(s, IoctlCall(isFionbio, cmd, arg), state, newState, result, ec, [e]);
  }

  method SetSockOpt(k: Kernel, s: Socket, state: StateWord, option: SockOption, value: int, len: nat)
    returns (result: int, newState: StateWord, ec: Errc, ghost p: Step)
    modifies k
    ensures p.s == s && p.call == SetSockOptCall(option, value, len) && p.before == state && Legal(p)
    ensures newState == p.after && ec == p.ec && result == p.result
    ensures k.trace == old(k.trace) + p.events && k.open == old(k.open)
  {
    hide Has, SetFlags, ClearFlags, Answer;
    newState := state;
    ghost var c := SetSockOptCall(option, value, len);
    if s == INVALID_SOCKET {
      result, ec := -1, BadFileDescriptor;
      p := Step(s, c, state, state, -1, ec, []);
      return;
    }
    if option == AlwaysFail {
      result, ec := -1, InvalidArgument;
      p := Step(s, c, state, state, -1, ec, []);
      return;
    }
    if option == EnableConnectionAborted {
      if len != SIZEOF_INT {
        result, ec := -1, InvalidArgument;
        p := Step(s, c, state, state, -1, ec, []);
        return;
      }
      if value != 0 {
        newState := SetFlags(newState, ENABLE_CONNECTION_ABORTED);
      } else {
        newState := ClearFlags(newState, ENABLE_CONNECTION_ABORTED);
      }
      result, ec := 0, NoError;
      p := Step(s, c, state, newState, 0, NoError, []);
      return;
    }
    if option == Linger {
      newState := SetFlags(newState, USER_SET_LINGER);
    }
    var e := k.Call(SetOption(s, option == Linger, value));
    result, ec := e.result, e.errno;
    if result == 0 {
      ec := NoError;
    }
    p := Step(s, c, state, newState, result, ec, [e]);
  }

  /** Reading an option; `value` is what the custom option reads as, and 0 for the others. */
  method GetSockOpt(k: Kernel, s: Socket, state: StateWord, option: SockOption, len: nat)
    returns (result: int, value: int, ec: Errc, ghost p: Step)
    modifies k
    ensures p.s == s && p.call == GetSockOptCall(option, len) && p.before == state && Legal(p)
    ensures p.after == state && ec == p.ec && result == p.result && value == p.value
    ensures k.trace == old(k.trace) + p.events && k.open == old(k.open)
  {
    hide Has, Answer;
    value := 0;
    ghost var c := GetSockOptCall(option, len);
    if s == INVALID_SOCKET {
      result, ec := -1, BadFileDescriptor;
      p := Step(s, c, state, state, -1, ec, []);
      return;
    }
    if option == AlwaysFail {
      result, ec := -1, InvalidArgument;
      p := Step(s, c, state, state, -1, ec, []);
      return;
    }
    if option == EnableConnectionAborted {
      if len != SIZEOF_INT {
        result, ec := -1, InvalidArgument;
        p := Step(s, c, state, state, -1, ec, []);
        return;
      }
      value := if Has(state, ENABLE_CONNECTION_ABORTED) then 1 else 0;
      result, ec := 0, NoError;
      p := Step(s, c, state, state, 0, NoError, [], value);
      return;
    }
    var e := k.Call(GetOption(s));
    result, ec := e.result, e.errno;
    if result == 0 {
      ec := NoError;
    }
    p := Step(s, c, state, state, result, ec, [e]);
  }

  method Shutdown(k: Kernel, s: Socket, what: ShutdownType)
    returns (result: int, ec: Errc, ghost events: seq<Event>)
    modifies k
    ensures k.trace == old(k.trace) + events && k.open == old(k.open)
    ensures s == INVALID_SOCKET ==> events == [] && result == -1 && ec == BadFileDescriptor
    ensures s != INVALID_SOCKET ==>
              && |events| == 1 && events[0].op == ShutdownCall(s, what)
              && result == events[0].result && ec == ErrorOf(events[0])
    ensures ec == NoError <==> result == 0
  {
    if s == INVALID_SOCKET {
      return -1, BadFileDescriptor, [];
    }
    var e := k.Call(ShutdownCall(s, what));
    result, ec, events := e.result, e.errno, [e];
    if result == 0 {
      ec := NoError;
    }
  }

  // ----------------------------------------------------- what each call amounts to

  /** Without a descriptor every operation but `close` is refused and none makes a call. */
  lemma WithoutADescriptor(p: Step)
    requires Legal(p) && p.s == -1
    ensures p.events == [] && p.after == p.before
    ensures if p.call.CloseSocket? then p.result == 0 && p.ec == NoError
            else p.result == -1 && p.ec == BadFileDescriptor
  {
  }

  /** An operation tells the caller what the kernel answered last. */
  lemma TheLastAnswerIsTold(p: Step)
    requires Legal(p) && p.events != []
    ensures var e := p.events[|p.events| - 1];
            p.result == e.result && p.ec == if e.result >= 0 then NoError else e.errno
  {
  }

  /** A request of the user, by either call, always reaches the kernel. If it succeeds it sets bit 1, or clears
      bits 1 and 2; if it fails the word stays. */
  lemma UserRequestReachesTheKernel(p: Step, value: bool)
    requires Legal(p) && p.s != -1
    requires p.call == SetUserMode(value) || (p.call.IoctlCall? && p.call.isFionbio && value == (p.call.arg != 0))
    ensures |p.events| == 1 && p.events[0].op == Fionbio(p.s, value)
    ensures p.result >= 0 <==> p.events[0].Succeeded()
    ensures p.after == if p.result < 0 then p.before else if value then p.before | 1 else p.before & !3
  {
  }

  /** A request of the library is refused exactly if it would unblock a socket the user made non-blocking; any
      other reaches the kernel, and if it succeeds sets or clears bit 2. */
  lemma InternalRequestIsRefusedIff(p: Step, value: bool)
    requires Legal(p) && p.s != -1 && p.call == SetInternalMode(value)
    ensures p.events == [] <==> !value && p.before & 1 != 0
    ensures p.events == [] ==> p.result == -1 && p.ec == InvalidArgument && p.after == p.before
    ensures p.events != [] ==>
              && |p.events| == 1 && p.events[0].op == Fionbio(p.s, value)
              && p.after == if p.result < 0 then p.before else if value then p.before | 2 else p.before & !2
  {
  }

  lemma OtherIoctlPassesThrough(p: Step)
    requires Legal(p) && p.s != -1 && p.call.IoctlCall? && !p.call.isFionbio
    ensures |p.events| == 1 && p.events[0].op == OtherIoctl(p.s, p.call.cmd)
    ensures p.after == p.before
  {
  }

  /** Setting an option: one always fails, one is bit 4 of the word and must have the size of an `int`, and the
      others reach the kernel, lingering leaving its mark (bit 8) whether or not it succeeds. */
  lemma SettingAnOption(p: Step)
    requires Legal(p) && p.s != -1 && p.call.SetSockOptCall?
    ensures p.call.option == AlwaysFail || (p.call.option == EnableConnectionAborted && p.call.len != 4) ==>
              p.events == [] && p.result == -1 && p.ec == InvalidArgument && p.after == p.before
    ensures p.call.option == EnableConnectionAborted && p.call.len == 4 ==>
              && p.events == [] && p.result == 0 && p.ec == NoError
              && p.after == if p.call.optVal != 0 then p.before | 4 else p.before & !4
    ensures p.call.option == Linger || p.call.option == OtherOption ==>
              && |p.events| == 1
              && p.events[0].op == SetOption(p.s, p.call.option == Linger, p.call.optVal)
              && p.after == if p.call.option == Linger then p.before | 8 else p.before
  {
  }

  /** Reading an option, likewise; the word never changes. */
  lemma ReadingAnOption(p: Step)
    requires Legal(p) && p.s != -1 && p.call.GetSockOptCall?
    ensures p.after == p.before
    ensures p.call.option == AlwaysFail || (p.call.option == EnableConnectionAborted && p.call.len != 4) ==>
              p.events == [] && p.result == -1 && p.ec == InvalidArgument
    ensures p.call.option == EnableConnectionAborted && p.call.len == 4 ==>
              p.events == [] && p.result == 0 && p.ec == NoError && p.value == if p.before & 4 != 0 then 1 else 0
    ensures p.call.option == Linger || p.call.option == OtherOption ==>
              |p.events| == 1 && p.events[0].op == GetOption(p.s)
  {
  }

  /** Closing: in a destructor, if the user touched lingering (bit 8), that is turned off first; then the
      attempt, and after would-block the reset of the mode and the second attempt, which clears bits 1 and 2. */
  lemma ClosingStepByStep(p: Step)
    requires Legal(p) && p.s != -1 && p.call.CloseSocket?
    ensures var t, n := p.events, if p.call.destruction && p.before & 8 != 0 then 1 else 0;
            && |t| > n && (n == 1 ==> t[0].op == SetOption(p.s, true, 0))
            && t[n].op == CloseCall(p.s)
            && if t[n].result < 0 && (t[n].errno == WouldBlock || t[n].errno == TryAgain) then
                 && |t| == n + 3 && t[n + 1].op == Fionbio(p.s, false) && t[n + 2].op == CloseCall(p.s)
                 && p.after == p.before & !3
               else |t| == n + 1 && p.after == p.before
  {
  }

  /** What a destructor does about lingering before it closes. */
  ghost predicate LingerPrefix(s: Socket, state: StateWord, destruction: bool, t: seq<Event>) {
    if destruction && Has(state, USER_SET_LINGER) then |t| == 1 && t[0].op == SetOption(s, true, 0)
    else t == []
  }

  lemma ClosedAtOnce(s: Socket, state: StateWord, destruction: bool, t: seq<Event>, first: Event)
    requires s != INVALID_SOCKET && LingerPrefix(s, state, destruction, t)
    requires first.op == CloseCall(s) && !NeedsSecondAttempt(first)
    ensures Legal(Step(s, CloseSocket(destruction), state, state, first.result, ErrorOf(first), t + [first]))
  {
    hide Has, ClearFlags;
  }

  lemma ClosedAgain(s: Socket, state: StateWord, destruction: bool, t: seq<Event>,
                    first: Event, reset: Event, second: Event)
    requires s != INVALID_SOCKET && LingerPrefix(s, state, destruction, t)
    requires first.op == CloseCall(s) && NeedsSecondAttempt(first)
    requires reset.op == Fionbio(s, false) && second.op == CloseCall(s)
    ensures Legal(Step(s, CloseSocket(destruction), state, ClearFlags(state, NON_BLOCKING),
                       second.result, ErrorOf(second), t + [first, reset, second]))
  {
    hide Has, ClearFlags;
  }

  /** A destructor must not block, so it turns lingering off if the user had turned it on. */
  method TurnLingerOff(k: Kernel, s: Socket, state: StateWord, destruction: bool)
    returns (newState: StateWord, ghost t: seq<Event>)
    requires s != INVALID_SOCKET
    modifies k
    ensures newState == state && LingerPrefix(s, state, destruction, t)
    ensures k.trace == old(k.trace) + t && k.open == old(k.open)
  {
    hide Has, SetFlags, ClearFlags, LegalClose;
    newState, t := state, [];
    if destruction && Has(state, USER_SET_LINGER) {
      var ignored, ignoredEc;
      ghost var p;
      ignored, newState, ignoredEc, p := SetSockOpt(k, s, newState, Linger, 0, 8);
      t := p.events;
      LingerTwice(state);
    }
  }

  method Close(k: Kernel, s: Socket, state: StateWord, destruction: bool)
    returns (result: int, newState: StateWord, ec: Errc, ghost p: Step)
    modifies k
    ensures p.s == s && p.call == CloseSocket(destruction) && p.before == state && Legal(p)
    ensures newState == p.after && ec == p.ec && result == p.result
    ensures k.trace == old(k.trace) + p.events
    ensures k.open == if s != INVALID_SOCKET && result == 0 then old(k.open) - {s} else old(k.open)
    ensures s != INVALID_SOCKET && result == 0 ==> s in old(k.open)
    ensures ec == NoError <==> result == 0
  {
    hide Has, SetFlags, ClearFlags, Answer, LegalClose, LingerPrefix;
    result, newState, ec := 0, state, NoError;
    ghost var events: seq<Event> := [];
    if s != INVALID_SOCKET {
      ghost var before;
      newState, before := TurnLingerOff(k, s, newState, destruction);
      var first := k.Call(CloseCall(s));
      events := before + [first];
      result, ec := first.result, first.errno;
      if result != 0 && (ec == WouldBlock || ec == TryAgain) {
        var reset := k.Call(Fionbio(s, false));
        newState := ClearFlags(newState, NON_BLOCKING);
        var second := k.Call(CloseCall(s));
        events := before + [first, reset, second];
        result, ec := second.result, second.errno;
        ClosedAgain(s, state, destruction, before, first, reset, second);
      } else {
        ClosedAtOnce(s, state, destruction, before, first);
      }
    }
    if result == 0 {
      ec := NoError;
    }
    p := Step(s, CloseSocket(destruction), state, newState, result, ec, events);
  }

  /** A close that reports an error closed nothing: it made one attempt, or two if the first met would-block,
      and none of them succeeded. */
  lemma FailedCloseClosesNothing(p: Step)
    requires Legal(p) && p.call.CloseSocket? && p.s != INVALID_SOCKET && p.result < 0
    ensures forall e :: e in p.events && e.op == CloseCall(p.s) ==> !e.Succeeded()
  {
    hide Has, ClearFlags;
  }

  lemma OthersNeverClose(p: Step)
    requires Legal(p) && !p.call.CloseSocket?
    ensures forall e :: e in p.events ==> !e.op.CloseCall?
  {
    hide Has, SetFlags, ClearFlags;
  }

  /** A close that reports no error closed its descriptor, with its last call, and nothing else. */
  lemma CloseClosesOnce(p: Step, fd: Socket)
    requires Legal(p) && p.call.CloseSocket? && p.s != INVALID_SOCKET && p.result >= 0
    ensures forall i :: 0 <= i < |p.events| && p.events[i].op.CloseCall? ==>
              p.events[i].op.s == p.s && (p.events[i].Succeeded() ==> i == |p.events| - 1)
    ensures Closed(p.events, fd) == if fd == p.s then 1 else 0
  {
    CloseEvents(p);
    hide Legal;
    var n := |p.events| - 1;
    ClosedNothing(p.events[..n], fd);
  }

  lemma CloseEvents(p: Step)
    requires Legal(p) && p.call.CloseSocket? && p.s != INVALID_SOCKET && p.result >= 0
    ensures |p.events| > 0 && p.events[|p.events| - 1].op == CloseCall(p.s) && p.events[|p.events| - 1].Succeeded()
    ensures forall i :: 0 <= i < |p.events| && p.events[i].op.CloseCall? ==>
              p.events[i].op.s == p.s && (p.events[i].Succeeded() ==> i == |p.events| - 1)
  {
    hide Has, ClearFlags;
  }

  lemma CloseMakesACall(p: Step)
    requires Legal(p) && p.call.CloseSocket? && p.s != INVALID_SOCKET
    ensures p.events != []
  {
  }

  /** The kernel refuses with would-block, the reset of the mode works, and the kernel refuses again. */
  lemma CloseCanFail(s: Socket, state: StateWord, error: Failure) returns (p: Step)
    requires s != INVALID_SOCKET
    ensures Legal(p) && p.s == s && p.call == CloseSocket(false) && p.before == state
    ensures p.result < 0 && p.ec == error
  {
    var first := Event(CloseCall(s), -1, WouldBlock, 0);
    var reset := Event(Fionbio(s, false), 0, NoError, 0);
    var second := Event(CloseCall(s), -1, error, 0);
    ClosedAgain(s, state, false, [], first, reset, second);
    p := Step(s, CloseSocket(false), state, ClearFlags(state, NON_BLOCKING), -1, error,
              [] + [first, reset, second]);
  }

  lemma LingerTwice(state: StateWord)
    requires Has(state, USER_SET_LINGER)
    ensures SetFlags(state, USER_SET_LINGER) == state
  {
  }
}
