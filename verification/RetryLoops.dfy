/**
 The system-call traces the retry loops of NetLite/socket_ops.ipp can leave
 behind, as languages over events, and what every word of a language satisfies.
 */
module RetryLoops {
  import opened Kernels

  /** The errors an attempt is repeated on. */
  datatype Policy = Policy(wouldBlock: bool, aborted: bool)
  {
    predicate Retries(e: Errc) {
      (wouldBlock && IsWouldBlock(e)) || (aborted && IsAborted(e))
    }
  }

  /** A refused attempt that the policy repeats, and a wait that did not fail. */
  ghost predicate IsRound(e: Event, w: Event, attempt: Op, wait: Op, p: Policy) {
    && e.op == attempt && !e.Succeeded() && p.Retries(e.errno)
    && w.op == wait && w.Succeeded()
  }

  ghost predicate Rounds(t: seq<Event>, attempt: Op, wait: Op, p: Policy) {
    |t| == 0 || (|t| >= 2 && IsRound(t[0], t[1], attempt, wait, p) && Rounds(t[2..], attempt, wait, p))
  }

  /** Any number of rounds, then an attempt that is not repeated, or one whose wait fails. */
  ghost predicate WaitLoop(t: seq<Event>, attempt: Op, wait: Op, p: Policy) {
    && |t| >= 1 && t[0].op == attempt
    && if t[0].Succeeded() || !p.Retries(t[0].errno) then |t| == 1
       else && |t| >= 2 && t[1].op == wait
            && if t[1].Succeeded() then WaitLoop(t[2..], attempt, wait, p) else |t| == 2
  }

  lemma {:induction false} RoundsAppend(t: seq<Event>, e: Event, w: Event, attempt: Op, wait: Op, p: Policy)
    requires Rounds(t, attempt, wait, p) && IsRound(e, w, attempt, wait, p)
    ensures Rounds(t + [e, w], attempt, wait, p)
  {
    if |t| == 0 {
      assert t + [e, w] == [e, w] && [e, w][2..] == [];
    } else {
      RoundsAppend(t[2..], e, w, attempt, wait, p);
      assert (t + [e, w])[2..] == t[2..] + [e, w];
    }
  }

  lemma {:induction false} RoundsThenEnd(t: seq<Event>, u: seq<Event>, attempt: Op, wait: Op, p: Policy)
    requires Rounds(t, attempt, wait, p) && WaitLoop(u, attempt, wait, p)
    ensures WaitLoop(t + u, attempt, wait, p)
  {
    if |t| == 0 {
      assert t + u == u;
    } else {
      RoundsThenEnd(t[2..], u, attempt, wait, p);
      assert (t + u)[2..] == t[2..] + u;
    }
  }

  lemma LoopEndsWithAttempt(t: seq<Event>, e: Event, attempt: Op, wait: Op, p: Policy)
    requires Rounds(t, attempt, wait, p)
    requires e.op == attempt && (e.Succeeded() || !p.Retries(e.errno))
    ensures WaitLoop(t + [e], attempt, wait, p)
  {
    RoundsThenEnd(t, [e], attempt, wait, p);
  }

  lemma LoopEndsWithWait(t: seq<Event>, e: Event, w: Event, attempt: Op, wait: Op, p: Policy)
    requires Rounds(t, attempt, wait, p)
    requires e.op == attempt && !e.Succeeded() && p.Retries(e.errno)
    requires w.op == wait && !w.Succeeded()
    ensures WaitLoop(t + [e, w], attempt, wait, p)
  {
    RoundsThenEnd(t, [e, w], attempt, wait, p);
  }

  function Last(t: seq<Event>): Event
    requires |t| > 0
  {
    t[|t| - 1]
  }

  /** How many attempts were refused for a reason the policy repeats. */
  function Refusals(t: seq<Event>, attempt: Op, p: Policy): nat {
    if |t| == 0 then 0
    else (if t[0].op == attempt && !t[0].Succeeded() && p.Retries(t[0].errno) then 1 else 0)
         + Refusals(t[1..], attempt, p)
  }

  function Attempts(t: seq<Event>, attempt: Op): nat {
    if |t| == 0 then 0
    else (if t[0].op == attempt then 1 else 0) + Attempts(t[1..], attempt)
  }

  /** Shape of a finished loop: only the last event can be a successful or a final attempt, every
      attempt but the last was refused and every wait but a final one succeeded. */
  lemma {:induction false} WaitLoopShape(t: seq<Event>, attempt: Op, wait: Op, p: Policy)
    requires attempt != wait && WaitLoop(t, attempt, wait, p)
    ensures Last(t).op == attempt || Last(t).op == wait
    ensures Last(t).op == attempt ==> Last(t).Succeeded() || !p.Retries(Last(t).errno)
    ensures Last(t).op == wait ==> !Last(t).Succeeded()
    ensures forall i :: 0 <= i < |t| - 1 && t[i].op == attempt ==> !t[i].Succeeded() && p.Retries(t[i].errno)
    ensures forall i :: 0 <= i < |t| - 1 ==> t[i].op == if i % 2 == 0 then attempt else wait
    ensures forall i :: 0 <= i < |t| - 1 && t[i].op == wait ==> t[i].Succeeded()
    ensures (|t| % 2 == 1) <==> Last(t).op == attempt
  {
    if |t| > 2 {
      WaitLoopShape(t[2..], attempt, wait, p);
      assert forall i :: 2 <= i < |t| ==> t[i] == t[2..][i - 2];
    }
  }

  /** The loop makes as many attempts as it was refused, and one more if the last event is an attempt. */
  lemma {:induction false} WaitLoopCount(t: seq<Event>, attempt: Op, wait: Op, p: Policy)
    requires attempt != wait && WaitLoop(t, attempt, wait, p)
    ensures Attempts(t, attempt) ==
            Refusals(t, attempt, p) + if Last(t).op == attempt then 1 else 0
  {
    if |t| == 1 {
      assert t[1..] == [];
    } else if |t| == 2 {
      assert t[1..][1..] == [];
      assert Attempts(t[1..], attempt) == 0 && Refusals(t[1..], attempt, p) == 0;
    } else {
      assert t[1..][1..] == t[2..];
      WaitLoopCount(t[2..], attempt, wait, p);
    }
  }

  /** Attempts interrupted by a signal, then one that was not. */
  ghost predicate SpinLoop(t: seq<Event>, attempt: Op) {
    && |t| >= 1 && t[0].op == attempt
    && if t[0].Succeeded() || t[0].errno != Interrupted then |t| == 1
       else SpinLoop(t[1..], attempt)
  }

  ghost predicate Spins(t: seq<Event>, attempt: Op) {
    forall i :: 0 <= i < |t| ==> t[i].op == attempt && !t[i].Succeeded() && t[i].errno == Interrupted
  }

  lemma {:induction false} SpinsThenEnd(t: seq<Event>, e: Event, attempt: Op)
    requires Spins(t, attempt) && SpinLoop([e], attempt)
    ensures SpinLoop(t + [e], attempt)
  {
    if |t| == 0 {
      assert t + [e] == [e];
    } else {
      SpinsThenEnd(t[1..], e, attempt);
      assert (t + [e])[1..] == t[1..] + [e];
    }
  }

  lemma {:induction false} SpinLoopShape(t: seq<Event>, attempt: Op)
    requires SpinLoop(t, attempt)
    ensures Spins(t[..|t| - 1], attempt)
    ensures Last(t).op == attempt && (Last(t).Succeeded() || Last(t).errno != Interrupted)
  {
    if |t| > 1 {
      SpinLoopShape(t[1..], attempt);
      assert forall i :: 1 <= i < |t| ==> t[i] == t[1..][i - 1];
    }
  }
}
