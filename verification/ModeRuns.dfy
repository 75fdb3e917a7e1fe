/**
 What the state word and the kernel's blocking mode have in common over whole
 runs of the operations in `Modes`.
 */
module ModeRuns {
  import opened Kernels
  import opened SocketState
  import opened Modes

  const ORIENTATION: StateWord := STREAM_ORIENTED | DATAGRAM_ORIENTED

  /** The kernel's mode is non-blocking exactly when the state word says so. */
  ghost predicate Agree(mode: bool, state: StateWord) {
    mode <==> Has(state, NON_BLOCKING)
  }

  /** Closing fell back to a second attempt, and resetting the blocking mode before it did not work. */
  ghost predicate ResetFailed(p: Step) {
    p.call.CloseSocket? && exists i :: 0 <= i < |p.events| && p.events[i].op.Fionbio? && !p.events[i].Succeeded()
  }

  /** Closing fell back to a second attempt. */
  ghost predicate FellBack(p: Step) {
    p.call.CloseSocket? && exists i :: 0 <= i < |p.events| && p.events[i].op.Fionbio?
  }

  lemma FlagFacts(state: StateWord)
    ensures Has(SetFlags(state, USER_SET_NON_BLOCKING), NON_BLOCKING)
    ensures Has(SetFlags(state, INTERNAL_NON_BLOCKING), NON_BLOCKING)
    ensures !Has(ClearFlags(state, NON_BLOCKING), NON_BLOCKING)
    ensures !Has(state, USER_SET_NON_BLOCKING) ==> !Has(ClearFlags(state, INTERNAL_NON_BLOCKING), NON_BLOCKING)
    ensures Has(SetFlags(state, ENABLE_CONNECTION_ABORTED), NON_BLOCKING) == Has(state, NON_BLOCKING)
    ensures Has(ClearFlags(state, ENABLE_CONNECTION_ABORTED), NON_BLOCKING) == Has(state, NON_BLOCKING)
    ensures Has(SetFlags(state, USER_SET_LINGER), NON_BLOCKING) == Has(state, NON_BLOCKING)
  {
  }

  lemma ModeAfterOne(e: Event, s: Socket, mode: bool)
    ensures NonBlockingMode([e], s, mode) ==
            if e.op.Fionbio? && e.op.s == s && e.Succeeded() then e.op.value else mode
  {
    assert [e][..0] == [];
  }

  lemma {:induction false} ModeUnchanged(t: seq<Event>, s: Socket, mode: bool)
    requires forall i :: 0 <= i < |t| ==> !t[i].op.Fionbio?
    ensures NonBlockingMode(t, s, mode) == mode
  {
    if |t| > 0 {
      ModeUnchanged(t[..|t| - 1], s, mode);
    }
  }

  /** The mode after closing is what the reset made of it, if there was one. */
  lemma ModeAfterClose(p: Step, mode: bool)
    requires p.call.CloseSocket? && p.s != INVALID_SOCKET && Legal(p)
    ensures FellBack(p) ==> p.after == ClearFlags(p.before, NON_BLOCKING)
    ensures FellBack(p) ==> NonBlockingMode(p.events, p.s, mode) == (ResetFailed(p) && mode)
    ensures !FellBack(p) ==> p.after == p.before && NonBlockingMode(p.events, p.s, mode) == mode
  {
    hide Has, ClearFlags, SetFlags;
    var n := if p.call.destruction && Has(p.before, USER_SET_LINGER) then 1 else 0;
    if NeedsSecondAttempt(p.events[n]) {
      var reset := p.events[n + 1];
      var t := p.events[..n + 1];
      ModeUnchanged(t, p.s, mode);
      assert p.events == t + [reset] + [p.events[n + 2]];
      ModeConcat(t, [reset], p.s, mode);
      ModeConcat(t + [reset], [p.events[n + 2]], p.s, mode);
      ModeAfterOne(reset, p.s, mode);
      ModeUnchanged([p.events[n + 2]], p.s, NonBlockingMode(t + [reset], p.s, mode));
    } else {
      ModeUnchanged(p.events, p.s, mode);
    }
  }

  lemma OpenStepKeepsAgreement(p: Step, mode: bool)
    requires p.s != INVALID_SOCKET && Legal(p) && Agree(mode, p.before) && !p.call.CloseSocket?
    ensures Agree(NonBlockingMode(p.events, p.s, mode), p.after)
  {
    hide Has, ClearFlags, SetFlags, LegalClose, NonBlockingMode;
    FlagFacts(p.before);
    if p.events == [] {
      ModeUnchanged(p.events, p.s, mode);
    } else {
      assert p.events == [p.events[0]];
      ModeAfterOne(p.events[0], p.s, mode);
    }
  }

  /** Every operation keeps the agreement, except a close whose reset fails on a non-blocking socket. */
  lemma StepKeepsAgreement(p: Step, mode: bool)
    requires p.s != INVALID_SOCKET && Legal(p) && Agree(mode, p.before)
    ensures Agree(NonBlockingMode(p.events, p.s, mode), p.after) <==> !(ResetFailed(p) && mode)
  {
    hide Has, ClearFlags, SetFlags, Legal, NonBlockingMode;
    if p.call.CloseSocket? {
      FlagFacts(p.before);
      ModeAfterClose(p, mode);
    } else {
      OpenStepKeepsAgreement(p, mode);
    }
  }

  // -------------------------------------------------------------------- runs

  function StateAfter(run: seq<Step>, initial: StateWord): StateWord {
    if |run| == 0 then initial else run[|run| - 1].after
  }

  function EventsOf(run: seq<Step>): seq<Event> {
    if |run| == 0 then [] else EventsOf(run[..|run| - 1]) + run[|run| - 1].events
  }

  /** Legal steps on one descriptor, each starting from the state word the one before left. */
  ghost predicate LegalRun(run: seq<Step>, s: Socket, initial: StateWord) {
    |run| == 0 ||
    (var front, p := run[..|run| - 1], run[|run| - 1];
     && LegalRun(front, s, initial)
     && p.s == s && Legal(p) && p.before == StateAfter(front, initial))
  }

  /** From an agreeing start (a fresh socket is blocking and its word says so) the word and the kernel
      agree after every run whose closes manage to reset the mode when they try. */
  lemma {:induction false} RunKeepsAgreement(run: seq<Step>, s: Socket, initial: StateWord, mode: bool)
    requires s != INVALID_SOCKET && LegalRun(run, s, initial) && Agree(mode, initial)
    requires forall p :: p in run ==> !ResetFailed(p)
    ensures Agree(NonBlockingMode(EventsOf(run), s, mode), StateAfter(run, initial))
  {
    hide Legal, ResetFailed, Has, NonBlockingMode;
    if |run| == 0 {
      ModeUnchanged([], s, mode);
    } else {
      var front, p := run[..|run| - 1], run[|run| - 1];
      assert p in run && forall q :: q in front ==> q in run;
      RunKeepsAgreement(front, s, initial, mode);
      ModeConcat(EventsOf(front), p.events, s, mode);
      StepKeepsAgreement(p, NonBlockingMode(EventsOf(front), s, mode));
    }
  }

  /** A request for a blocking mode succeeded during the call. */
  ghost predicate SetsMode(p: Step) {
    exists i :: 0 <= i < |p.events| && p.events[i].op.Fionbio? && p.events[i].Succeeded()
  }

  /** The close numbered `i` could not reset a non-blocking mode, and no request succeeded later. */
  ghost predicate BreaksAt(run: seq<Step>, s: Socket, mode: bool, i: nat)
    requires i < |run|
  {
    && ResetFailed(run[i]) && NonBlockingMode(EventsOf(run[..i]), s, mode)
    && forall j :: i < j < |run| ==> !SetsMode(run[j])
  }

  ghost predicate Broken(run: seq<Step>, s: Socket, mode: bool) {
    exists i :: 0 <= i < |run| && BreaksAt(run, s, mode, i)
  }

  /** A successful request brings word and kernel into agreement, whatever they were before. */
  lemma RequestRestoresAgreement(p: Step, mode: bool)
    requires p.s != INVALID_SOCKET && Legal(p) && SetsMode(p)
    ensures Agree(NonBlockingMode(p.events, p.s, mode), p.after) && !ResetFailed(p)
  {
    hide Has, ClearFlags, SetFlags, LegalClose, NonBlockingMode;
    FlagFacts(p.before);
    if p.call.CloseSocket? {
      CloseResetsOnce(p);
      ModeAfterClose(p, mode);
    } else {
      assert p.events == [p.events[0]];
      ModeAfterOne(p.events[0], p.s, mode);
    }
  }

  /** A close makes at most one request for a mode. */
  lemma CloseResetsOnce(p: Step)
    requires p.s != INVALID_SOCKET && Legal(p) && p.call.CloseSocket? && SetsMode(p)
    ensures FellBack(p) && !ResetFailed(p)
  {
    hide Has, ClearFlags;
  }

  /** Without a successful request the kernel keeps its mode, and the word its bits unless a reset failed. */
  lemma QuietStep(p: Step, mode: bool)
    requires p.s != INVALID_SOCKET && Legal(p) && !SetsMode(p)
    ensures NonBlockingMode(p.events, p.s, mode) == mode
    ensures Has(p.after, NON_BLOCKING) == (!ResetFailed(p) && Has(p.before, NON_BLOCKING))
  {
    hide Has, ClearFlags, SetFlags, LegalClose, NonBlockingMode;
    FlagFacts(p.before);
    if p.call.CloseSocket? {
      ModeAfterClose(p, mode);
      ModeKept(p.events, p.s, mode);
    } else if p.events == [] {
      ModeUnchanged(p.events, p.s, mode);
    } else {
      assert p.events == [p.events[0]];
      ModeAfterOne(p.events[0], p.s, mode);
    }
  }

  lemma {:induction false} ModeKept(t: seq<Event>, s: Socket, mode: bool)
    requires forall i :: 0 <= i < |t| ==> !(t[i].op.Fionbio? && t[i].Succeeded())
    ensures NonBlockingMode(t, s, mode) == mode
  {
    if |t| > 0 {
      ModeKept(t[..|t| - 1], s, mode);
    }
  }

  lemma BrokenStep(run: seq<Step>, s: Socket, mode: bool)
    requires |run| > 0
    ensures var front, p := run[..|run| - 1], run[|run| - 1];
            Broken(run, s, mode) <==>
            || (Broken(front, s, mode) && !SetsMode(p))
            || (ResetFailed(p) && NonBlockingMode(EventsOf(front), s, mode))
  {
    hide ResetFailed, SetsMode, NonBlockingMode;
    var front, p, n := run[..|run| - 1], run[|run| - 1], |run| - 1;
    forall i | 0 <= i < n ensures BreaksAt(run, s, mode, i) <==> BreaksAt(front, s, mode, i) && !SetsMode(p) {
      assert front[..i] == run[..i];
    }
    assert BreaksAt(run, s, mode, n) <==> ResetFailed(p) && NonBlockingMode(EventsOf(front), s, mode);
    if Broken(front, s, mode) && !SetsMode(p) {
      var i :| 0 <= i < n && BreaksAt(front, s, mode, i);
      assert BreaksAt(run, s, mode, i);
    }
  }

  /** From an agreeing start, word and kernel disagree after a run if and only if some close in it could not
      reset a non-blocking mode and no request for a mode succeeded after that. */
  lemma {:induction false} RunAgreesIff(run: seq<Step>, s: Socket, initial: StateWord, mode: bool)
    requires s != INVALID_SOCKET && LegalRun(run, s, initial) && Agree(mode, initial)
    ensures Agree(NonBlockingMode(EventsOf(run), s, mode), StateAfter(run, initial)) <==> !Broken(run, s, mode)
    ensures Broken(run, s, mode) ==> NonBlockingMode(EventsOf(run), s, mode)
  {
    hide Legal, ResetFailed, SetsMode, Has, NonBlockingMode, Broken;
    if |run| == 0 {
      ModeUnchanged([], s, mode);
      NeverBroken(s, mode);
    } else {
      var front, p := run[..|run| - 1], run[|run| - 1];
      var m := NonBlockingMode(EventsOf(front), s, mode);
      RunAgreesIff(front, s, initial, mode);
      ModeConcat(EventsOf(front), p.events, s, mode);
      BrokenStep(run, s, mode);
      if SetsMode(p) {
        RequestRestoresAgreement(p, m);
      } else {
        QuietStep(p, m);
      }
    }
  }

  lemma NeverBroken(s: Socket, mode: bool)
    ensures !Broken([], s, mode)
  {
  }

  /** The value of a call by which the user asks for a blocking mode. */
  predicate IsUserRequest(c: Call) {
    c.SetUserMode? || (c.IoctlCall? && c.isFionbio)
  }

  function RequestedMode(c: Call): bool
    requires IsUserRequest(c)
  {
    if c.SetUserMode? then c.value else c.arg != 0
  }

  function LastRequest(run: seq<Step>, initially: bool): bool {
    if |run| == 0 then initially
    else
      var p := run[|run| - 1];
      if IsUserRequest(p.call) && p.result >= 0 then RequestedMode(p.call)
      else LastRequest(run[..|run| - 1], initially)
  }

  lemma UserFlagFacts(state: StateWord)
    ensures Has(SetFlags(state, USER_SET_NON_BLOCKING), USER_SET_NON_BLOCKING)
    ensures !Has(ClearFlags(state, NON_BLOCKING), USER_SET_NON_BLOCKING)
    ensures Has(SetFlags(state, INTERNAL_NON_BLOCKING), USER_SET_NON_BLOCKING) == Has(state, USER_SET_NON_BLOCKING)
    ensures Has(ClearFlags(state, INTERNAL_NON_BLOCKING), USER_SET_NON_BLOCKING) == Has(state, USER_SET_NON_BLOCKING)
    ensures Has(SetFlags(state, ENABLE_CONNECTION_ABORTED), USER_SET_NON_BLOCKING) == Has(state, USER_SET_NON_BLOCKING)
    ensures Has(ClearFlags(state, ENABLE_CONNECTION_ABORTED), USER_SET_NON_BLOCKING) ==
            Has(state, USER_SET_NON_BLOCKING)
    ensures Has(SetFlags(state, USER_SET_LINGER), USER_SET_NON_BLOCKING) == Has(state, USER_SET_NON_BLOCKING)
  {
  }

  /** Apart from a close that falls back, a step sets the user's bit to a successful request and
      otherwise leaves it. */
  lemma StepTracksRequests(p: Step)
    requires p.s != INVALID_SOCKET && Legal(p) && !FellBack(p)
    ensures Has(p.after, USER_SET_NON_BLOCKING) ==
            if IsUserRequest(p.call) && p.result >= 0 then RequestedMode(p.call)
            else Has(p.before, USER_SET_NON_BLOCKING)
  {
    UserFlagFacts(p.before);
    hide Has, ClearFlags, SetFlags, LegalClose;
    if p.call.CloseSocket? {
      ModeAfterClose(p, false);
    }
  }

  /** Outside the fallback of `close` the user's bit is the last request that succeeded. */
  lemma {:induction false} RunTracksRequests(run: seq<Step>, s: Socket, initial: StateWord)
    requires s != INVALID_SOCKET && LegalRun(run, s, initial)
    requires forall p :: p in run ==> !FellBack(p)
    ensures Has(StateAfter(run, initial), USER_SET_NON_BLOCKING) ==
            LastRequest(run, Has(initial, USER_SET_NON_BLOCKING))
  {
    hide Legal, FellBack, Has;
    if |run| > 0 {
      var front, p := run[..|run| - 1], run[|run| - 1];
      assert p in run && forall q :: q in front ==> q in run;
      RunTracksRequests(front, s, initial);
      StepTracksRequests(p);
    }
  }

  // ------------------------------------------------------------------ frame

  /** No operation touches these flags. */
  ghost predicate SameFrame(before: StateWord, after: StateWord) {
    before & (ORIENTATION | POSSIBLE_DUP) == after & (ORIENTATION | POSSIBLE_DUP)
  }

  lemma FrameFacts(state: StateWord)
    ensures SameFrame(state, SetFlags(state, USER_SET_NON_BLOCKING))
    ensures SameFrame(state, ClearFlags(state, NON_BLOCKING))
    ensures SameFrame(state, SetFlags(state, INTERNAL_NON_BLOCKING))
    ensures SameFrame(state, ClearFlags(state, INTERNAL_NON_BLOCKING))
    ensures SameFrame(state, SetFlags(state, ENABLE_CONNECTION_ABORTED))
    ensures SameFrame(state, ClearFlags(state, ENABLE_CONNECTION_ABORTED))
    ensures SameFrame(state, SetFlags(state, USER_SET_LINGER))
    ensures SameFrame(state, state)
  {
  }

  lemma LingerFacts(state: StateWord)
    ensures var on := Has(state, USER_SET_LINGER);
            && Has(SetFlags(state, USER_SET_NON_BLOCKING), USER_SET_LINGER) == on
            && Has(ClearFlags(state, NON_BLOCKING), USER_SET_LINGER) == on
            && Has(SetFlags(state, INTERNAL_NON_BLOCKING), USER_SET_LINGER) == on
            && Has(ClearFlags(state, INTERNAL_NON_BLOCKING), USER_SET_LINGER) == on
            && Has(SetFlags(state, ENABLE_CONNECTION_ABORTED), USER_SET_LINGER) == on
            && Has(ClearFlags(state, ENABLE_CONNECTION_ABORTED), USER_SET_LINGER) == on
    ensures Has(SetFlags(state, USER_SET_LINGER), USER_SET_LINGER)
  {
  }

  lemma AbortedFacts(state: StateWord)
    ensures var on := Has(state, ENABLE_CONNECTION_ABORTED);
            && Has(SetFlags(state, USER_SET_NON_BLOCKING), ENABLE_CONNECTION_ABORTED) == on
            && Has(ClearFlags(state, NON_BLOCKING), ENABLE_CONNECTION_ABORTED) == on
            && Has(SetFlags(state, INTERNAL_NON_BLOCKING), ENABLE_CONNECTION_ABORTED) == on
            && Has(ClearFlags(state, INTERNAL_NON_BLOCKING), ENABLE_CONNECTION_ABORTED) == on
            && Has(SetFlags(state, USER_SET_LINGER), ENABLE_CONNECTION_ABORTED) == on
    ensures Has(SetFlags(state, ENABLE_CONNECTION_ABORTED), ENABLE_CONNECTION_ABORTED)
    ensures !Has(ClearFlags(state, ENABLE_CONNECTION_ABORTED), ENABLE_CONNECTION_ABORTED)
  {
  }

  /** A call that sets the custom connection-aborted option. */
  predicate SetsAborted(c: Call) {
    c.SetSockOptCall? && c.option == EnableConnectionAborted
  }

  lemma StepFrame(p: Step)
    requires Legal(p)
    ensures SameFrame(p.before, p.after)
    ensures Has(p.after, USER_SET_LINGER) ==
            (Has(p.before, USER_SET_LINGER) ||
             (p.call.SetSockOptCall? && p.call.option == Linger && p.s != INVALID_SOCKET))
    ensures Has(p.after, ENABLE_CONNECTION_ABORTED) ==
            if SetsAborted(p.call) && p.result >= 0 then p.call.optVal != 0
            else Has(p.before, ENABLE_CONNECTION_ABORTED)
  {
    FrameFacts(p.before);
    LingerFacts(p.before);
    AbortedFacts(p.before);
    hide Has, ClearFlags, SetFlags, SameFrame;
  }

  function LastAborted(run: seq<Step>, initially: bool): bool {
    if |run| == 0 then initially
    else
      var p := run[|run| - 1];
      if SetsAborted(p.call) && p.result >= 0 then p.call.optVal != 0
      else LastAborted(run[..|run| - 1], initially)
  }

  /** Over any run the orientation never changes, the linger mark is there exactly if it was made, and the
      connection-aborted flag, which `GetSockOpt` reads, is the last value set successfully. */
  lemma {:induction false} RunFrame(run: seq<Step>, s: Socket, initial: StateWord)
    requires LegalRun(run, s, initial)
    ensures SameFrame(initial, StateAfter(run, initial))
    ensures Has(StateAfter(run, initial), USER_SET_LINGER) ==
            (Has(initial, USER_SET_LINGER) ||
             (s != INVALID_SOCKET && exists p :: p in run && p.call.SetSockOptCall? && p.call.option == Linger))
    ensures Has(StateAfter(run, initial), ENABLE_CONNECTION_ABORTED) ==
            LastAborted(run, Has(initial, ENABLE_CONNECTION_ABORTED))
  {
    hide Legal, Has;
    if |run| > 0 {
      var front, p := run[..|run| - 1], run[|run| - 1];
      assert forall q :: q in run <==> q in front || q == p by { assert run == front + [p]; }
      RunFrame(front, s, initial);
      StepFrame(p);
    }
  }

  /** Whatever calls came before, reading the connection-aborted option gives the last value set. */
  lemma ReadsBackTheLastValueSet(run: seq<Step>, s: Socket, initial: StateWord, i: nat)
    requires s != INVALID_SOCKET && LegalRun(run, s, initial)
    requires i < |run| && run[i].call == GetSockOptCall(EnableConnectionAborted, SIZEOF_INT)
    ensures run[i].result == 0
    ensures run[i].value == if LastAborted(run[..i], Has(initial, ENABLE_CONNECTION_ABORTED)) then 1 else 0
  {
    PrefixIsLegal(run, s, initial, i);
    hide LegalClose, Has;
    RunFrame(run[..i], s, initial);
  }

  lemma {:induction false} PrefixIsLegal(run: seq<Step>, s: Socket, initial: StateWord, i: nat)
    requires LegalRun(run, s, initial) && i < |run|
    ensures LegalRun(run[..i], s, initial) && run[i].s == s && Legal(run[i])
    ensures run[i].before == StateAfter(run[..i], initial)
  {
    hide Legal;
    if i < |run| - 1 {
      var front := run[..|run| - 1];
      PrefixIsLegal(front, s, initial, i);
      assert front[..i] == run[..i];
    }
  }

  /** The call made one system call, a request for a blocking mode, and that succeeded. */
  ghost predicate ChangedMode(p: Step) {
    Legal(p) && !p.call.CloseSocket? && |p.events| == 1 && p.events[0].op.Fionbio? && p.events[0].Succeeded()
  }

  /** A state word that took no part in a successful mode request agrees with the kernel afterwards
      exactly if it already said what was requested. */
  lemma OtherHandleAgrees(p: Step, mode: bool, other: StateWord)
    requires p.s != INVALID_SOCKET && ChangedMode(p)
    ensures NonBlockingMode(p.events, p.s, mode) == p.events[0].op.value
    ensures Agree(NonBlockingMode(p.events, p.s, mode), other) <==> Has(other, NON_BLOCKING) == p.events[0].op.value
  {
    hide Has, ClearFlags, SetFlags, NonBlockingMode;
    assert p.events == [p.events[0]];
    ModeAfterOne(p.events[0], p.s, mode);
  }

  /** Closing keeps word and kernel in agreement, whatever the system answers, if and only if the socket is
      in blocking mode when it is closed. */
  lemma CloseKeepsAgreementIff(s: Socket, state: StateWord, destruction: bool, mode: bool)
    requires s != INVALID_SOCKET && Agree(mode, state)
    ensures (forall p: Step :: Legal(p) && p.s == s && p.before == state && p.call == CloseSocket(destruction) ==>
               Agree(NonBlockingMode(p.events, s, mode), p.after)) <==> !mode
  {
    hide Legal, NonBlockingMode, Has;
    forall p: Step | Legal(p) && p.s == s && p.before == state && p.call == CloseSocket(destruction) && !mode
      ensures Agree(NonBlockingMode(p.events, s, mode), p.after)
    {
      StepKeepsAgreement(p, mode);
    }
    if mode {
      var p := ResetRefused(s, state, destruction);
      StepKeepsAgreement(p, mode);
    }
  }

  /** For every word there is a close whose reset of the mode fails. */
  lemma ResetRefused(s: Socket, state: StateWord, destruction: bool) returns (p: Step)
    requires s != INVALID_SOCKET
    ensures Legal(p) && p.s == s && p.call == CloseSocket(destruction) && p.before == state && ResetFailed(p)
  {
    var first := Event(CloseCall(s), -1, WouldBlock, 0);
    var reset := Event(Fionbio(s, false), -1, BadFileDescriptor, 0);
    var second := Event(CloseCall(s), -1, WouldBlock, 0);
    var t := if destruction && Has(state, USER_SET_LINGER) then [Event(SetOption(s, true, 0), 0, NoError, 0)] else [];
    ClosedAgain(s, state, destruction, t, first, reset, second);
    p := Step(s, CloseSocket(destruction), state, ClearFlags(state, NON_BLOCKING),
              second.result, ErrorOf(second), t + [first, reset, second]);
    assert p.events[|t| + 1] == reset;
  }

  /** A close that breaks the agreement: would-block, the reset of the mode fails, and so does the second attempt. */
  lemma FailedResetDisagrees(s: Socket, error: Failure) returns (p: Step)
    requires s != INVALID_SOCKET
    ensures Legal(p) && p.s == s && p.call == CloseSocket(false) && p.before == USER_SET_NON_BLOCKING
    ensures Agree(true, p.before) && !Agree(NonBlockingMode(p.events, p.s, true), p.after)
  {
    var first := Event(CloseCall(s), -1, WouldBlock, 0);
    var reset := Event(Fionbio(s, false), -1, error, 0);
    var second := Event(CloseCall(s), -1, error, 0);
    p := Step(s, CloseSocket(false), USER_SET_NON_BLOCKING, ClearFlags(USER_SET_NON_BLOCKING, NON_BLOCKING),
              -1, error, [first, reset, second]);
    assert p.events[1] == reset;
    StepKeepsAgreement(p, true);
  }

  // ---------------------------------------------------------------- programs

  method Perform(k: Kernel, s: Socket, state: StateWord, c: Call)
    returns (result: int, newState: StateWord, ec: Errc, ghost p: Step)
    modifies k
    ensures p.s == s && p.call == c && p.before == state && Legal(p)
    ensures newState == p.after && ec == p.ec && (result >= 0 <==> p.result >= 0)
    ensures k.trace == old(k.trace) + p.events
  {
    hide Legal;
    match c {
      case SetUserMode(value) =>
        var ok;
        ok, newState, ec, p := SetUserNonBlocking(k, s, state, value);
        result := if ok then 0 else -1;
      case SetInternalMode(value) =>
        var ok;
        ok, newState, ec, p := SetInternalNonBlocking(k, s, state, value);
        result := if ok then 0 else -1;
      case IoctlCall(isFionbio, cmd, arg) =>
        result, newState, ec, p := Ioctl(k, s, state, isFionbio, cmd, arg);
      case SetSockOptCall(option, value, len) =>
        result, newState, ec, p := SetSockOpt(k, s, state, option, value, len);
      case GetSockOptCall(option, len) =>
        var value;
        result, value, ec, p := GetSockOpt(k, s, state, option, len);
        newState := state;
      case CloseSocket(destruction) =>
        result, newState, ec, p := Close(k, s, state, destruction);
    }
  }

  /** Any program that makes these calls one after the other on one descriptor. */
  method PerformAll(k: Kernel, s: Socket, initial: StateWord, calls: seq<Call>)
    returns (state: StateWord, ghost run: seq<Step>)
    modifies k
    ensures |run| == |calls| && forall i :: 0 <= i < |calls| ==> run[i].call == calls[i]
    ensures LegalRun(run, s, initial) && state == StateAfter(run, initial)
    ensures k.trace == old(k.trace) + EventsOf(run)
  {
    hide Legal;
    state, run := initial, [];
    for i := 0 to |calls|
      invariant |run| == i && forall j :: 0 <= j < i ==> run[j].call == calls[j]
      invariant LegalRun(run, s, initial) && state == StateAfter(run, initial)
      invariant k.trace == old(k.trace) + EventsOf(run)
    {
      var result, ec;
      ghost var p;
      result, state, ec, p := Perform(k, s, state, calls[i]);
      assert (run + [p])[..i] == run;
      run := run + [p];
    }
  }
}
