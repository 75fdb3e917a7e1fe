/**
 Starting and stopping the socket library (NetLite/winsock_init.hpp,
 NetLite/winsock_init.ipp): a lock-free count of users around `WSAStartup` and
 `WSACleanup`, as atomic steps that any number of threads interleave.
 */
module WinsockInit {

  type Tid = nat

  /** What a thread does next inside a constructor or destructor. */
  datatype Pc = Outside | CallStartup | PublishResult(result: int) | CallCleanup

  /** `instances` counts the objects whose constructor has returned and whose destructor has not begun. */
  datatype State = State(initCount: int, result: int, instances: nat, pcs: map<Tid, Pc>,
                         startups: nat, cleanups: nat)
  {
    function PcOf(t: Tid): Pc {
      if t in pcs then pcs[t] else Outside
    }

    ghost function Starting(): set<Tid> {
      set t | t in pcs && pcs[t].CallStartup?
    }

    ghost function Publishing(): set<Tid> {
      set t | t in pcs && pcs[t].PublishResult?
    }

    ghost function Cleaning(): set<Tid> {
      set t | t in pcs && pcs[t].CallCleanup?
    }

    /** More calls of `WSAStartup` than of `WSACleanup` have been made, whatever they answered. */
    predicate Outstanding() {
      startups > cleanups
    }
  }

  const INITIAL := State(0, 0, 0, map[], 0, 0)

  datatype Step =
    | Enter(t: Tid)                  // constructor: increment, and see whether it is the first
    | Startup(t: Tid, answer: int)   // constructor: call WSAStartup
    | Publish(t: Tid)                // constructor: store its result
    | Leave(t: Tid)                  // destructor: decrement, and see whether it was the last
    | Cleanup(t: Tid)                // destructor: call WSACleanup

  /** A destructor needs an object whose constructor has returned. */
  predicate Enabled(s: State, p: Step) {
    match p
    case Enter(t) => s.PcOf(t).Outside?
    case Startup(t, _) => s.PcOf(t).CallStartup?
    case Publish(t) => s.PcOf(t).PublishResult?
    case Leave(t) => s.PcOf(t).Outside? && s.instances > 0
    case Cleanup(t) => s.PcOf(t).CallCleanup?
  }

  function Apply(s: State, p: Step): State
    requires Enabled(s, p)
  {
    match p
    case Enter(t) =>
      if s.initCount + 1 == 1 then s.(initCount := s.initCount + 1, pcs := s.pcs[t := CallStartup])
      else s.(initCount := s.initCount + 1, instances := s.instances + 1)
    case Startup(t, answer) =>
      s.(startups := s.startups + 1, pcs := s.pcs[t := PublishResult(answer)])
    case Publish(t) =>
      s.(result := s.pcs[t].result, instances := s.instances + 1, pcs := s.pcs[t := Outside])
    case Leave(t) =>
      var s' := s.(initCount := s.initCount - 1, instances := s.instances - 1);
      if s.initCount - 1 == 0 then s'.(pcs := s.pcs[t := CallCleanup]) else s'
    case Cleanup(t) =>
      s.(cleanups := s.cleanups + 1, pcs := s.pcs[t := Outside])
  }

  // --------------------------------------------------------------- invariant

  ghost predicate Inv(s: State) {
    && |s.Starting()| + |s.Publishing()| <= 1
    && s.initCount == s.instances + |s.Starting()| + |s.Publishing()|
    && s.startups + |s.Starting()| - s.cleanups - |s.Cleaning()| == if s.initCount > 0 then 1 else 0
  }

  lemma Recount(a: set<Tid>, b: set<Tid>, t: Tid)
    requires b == a + {t} || b == a - {t}
    ensures |b| == |a| + (if t in b then 1 else 0) - (if t in a then 1 else 0)
  {
    if t in a {
      assert a == (a - {t}) + {t};
    } else {
      assert a - {t} == a;
    }
  }

  lemma MoveBetweenSets(s: State, s': State, t: Tid, pc: Pc)
    requires s'.pcs == s.pcs[t := pc]
    ensures s'.Starting() == if pc.CallStartup? then s.Starting() + {t} else s.Starting() - {t}
    ensures s'.Publishing() == if pc.PublishResult? then s.Publishing() + {t} else s.Publishing() - {t}
    ensures s'.Cleaning() == if pc.CallCleanup? then s.Cleaning() + {t} else s.Cleaning() - {t}
    ensures t in s.Starting() <==> s.PcOf(t).CallStartup?
    ensures t in s.Publishing() <==> s.PcOf(t).PublishResult?
    ensures t in s.Cleaning() <==> s.PcOf(t).CallCleanup?
  {
  }

  /** How moving one thread changes the numbers of threads in each place. */
  lemma MoveThread(s: State, s': State, t: Tid, pc: Pc)
    requires s'.pcs == s.pcs[t := pc]
    ensures |s'.Starting()| == |s.Starting()| + (if pc.CallStartup? then 1 else 0)
                               - (if s.PcOf(t).CallStartup? then 1 else 0)
    ensures |s'.Publishing()| == |s.Publishing()| + (if pc.PublishResult? then 1 else 0)
                                 - (if s.PcOf(t).PublishResult? then 1 else 0)
    ensures |s'.Cleaning()| == |s.Cleaning()| + (if pc.CallCleanup? then 1 else 0)
                               - (if s.PcOf(t).CallCleanup? then 1 else 0)
  {
    hide State.Starting, State.Publishing, State.Cleaning, State.PcOf;
    MoveBetweenSets(s, s', t, pc);
    Recount(s.Starting(), s'.Starting(), t);
    Recount(s.Publishing(), s'.Publishing(), t);
    Recount(s.Cleaning(), s'.Cleaning(), t);
  }

  lemma StepKeepsInv(s: State, p: Step)
    requires Inv(s) && Enabled(s, p)
    ensures Inv(Apply(s, p))
  {
    hide State.Starting, State.Publishing, State.Cleaning;
    var s' := Apply(s, p);
    if s'.pcs != s.pcs {
      MoveThread(s, s', p.t, s'.PcOf(p.t));
      if s.PcOf(p.t).CallStartup? {
        SomewhereMeansPositive(s, p.t);
      }
    } else {
      SamePlaces(s, s');
    }
  }

  lemma SomewhereMeansPositive(s: State, t: Tid)
    requires s.PcOf(t).CallStartup?
    ensures |s.Starting()| > 0
  {
    assert t in s.Starting();
  }

  lemma SamePlaces(s: State, s': State)
    requires s'.pcs == s.pcs
    ensures s'.Starting() == s.Starting() && s'.Publishing() == s.Publishing() && s'.Cleaning() == s.Cleaning()
  {
  }

  ghost predicate LegalRun(s: State, steps: seq<Step>)
    decreases |steps|
  {
    |steps| == 0 || (Enabled(s, steps[0]) && LegalRun(Apply(s, steps[0]), steps[1..]))
  }

  function Run(s: State, steps: seq<Step>): State
    requires LegalRun(s, steps)
    decreases |steps|
  {
    if |steps| == 0 then s else Run(Apply(s, steps[0]), steps[1..])
  }

  lemma {:induction false} RunKeepsInv(s: State, steps: seq<Step>)
    requires Inv(s) && LegalRun(s, steps)
    ensures Inv(Run(s, steps))
    decreases |steps|
  {
    if |steps| > 0 {
      StepKeepsInv(s, steps[0]);
      RunKeepsInv(Apply(s, steps[0]), steps[1..]);
    }
  }

  /** Under every interleaving: calls made and pending balance to one exactly while the count is
      positive, at most one startup is pending, cleanups never outnumber startups, and a startup call is not yet
      undone exactly when there are users and no startup pending, or a cleanup is still to come. */
  lemma CountIsSound(steps: seq<Step>)
    requires LegalRun(INITIAL, steps)
    ensures var s := Run(INITIAL, steps);
            && (s.startups + |s.Starting()|) - (s.cleanups + |s.Cleaning()|) ==
               (if s.initCount > 0 then 1 else 0)
            && |s.Starting()| <= 1
            && s.cleanups <= s.startups
            && (s.Outstanding() <==> (s.initCount > 0 && s.Starting() == {}) || s.Cleaning() != {})
  {
    assert INITIAL.Starting() == {} && INITIAL.Publishing() == {} && INITIAL.Cleaning() == {};
    RunKeepsInv(INITIAL, steps);
    var s := Run(INITIAL, steps);
    assert s.Starting() == {} <==> |s.Starting()| == 0;
    assert s.Cleaning() == {} <==> |s.Cleaning()| == 0;
  }

  /** The count alone does not protect an object's user: with two threads constructing at once, the
      second constructor can return before the first has called `WSAStartup`. */
  lemma ConstructorsCanRace()
    ensures var steps := [Enter(0), Enter(1)];
            && LegalRun(INITIAL, steps)
            && var s := Run(INITIAL, steps);
               s.instances == 1 && s.startups == 0 && !s.Outstanding()
  {
    var s1 := Apply(INITIAL, Enter(0));
    var steps := [Enter(0), Enter(1)];
    assert steps[1..] == [Enter(1)] && [Enter(1)][1..] == [];
    assert LegalRun(s1, [Enter(1)]);
    assert Run(s1, [Enter(1)]) == Apply(s1, Enter(1));
  }

  /** Each step: who must call the library, when an object exists, and when the result is published. */
  lemma StepByStep(s: State, p: Step)
    requires Enabled(s, p)
    ensures var s' := Apply(s, p);
            && (forall u :: u != p.t ==> s'.PcOf(u) == s.PcOf(u))
            && s'.startups == s.startups + (if p.Startup? then 1 else 0)
            && s'.cleanups == s.cleanups + (if p.Cleanup? then 1 else 0)
            && (s'.result == if p.Publish? then s.PcOf(p.t).result else s.result)
            && match p
               case Enter(t) =>
                 && s'.initCount == s.initCount + 1
                 && if s.initCount == 0 then s'.PcOf(t) == CallStartup && s'.instances == s.instances
                    else s'.PcOf(t) == Outside && s'.instances == s.instances + 1
               case Startup(t, answer) =>
                 s'.PcOf(t) == PublishResult(answer) && s'.initCount == s.initCount && s'.instances == s.instances
               case Publish(t) =>
                 s'.PcOf(t) == Outside && s'.initCount == s.initCount && s'.instances == s.instances + 1
               case Leave(t) =>
                 && s'.initCount == s.initCount - 1 && s'.instances == s.instances - 1
                 && s'.PcOf(t) == if s.initCount == 1 then CallCleanup else Outside
               case Cleanup(t) =>
                 s'.PcOf(t) == Outside && s'.initCount == s.initCount && s'.instances == s.instances
  {
  }

  // ------------------------------------------------- what the library counts

  /** The library counts the starts that answer 0, and a stop takes one of them back if there is one. */
  function RefsAfter(refs: nat, p: Step): nat {
    match p
    case Startup(_, answer) => if answer == 0 then refs + 1 else refs
    case Cleanup(_) => if refs > 0 then refs - 1 else 0
    case _ => refs
  }

  /** The library's count after these steps; it is started while the count is positive. */
  function Refs(refs: nat, steps: seq<Step>): nat
    decreases |steps|
  {
    if |steps| == 0 then refs else Refs(RefsAfter(refs, steps[0]), steps[1..])
  }

  predicate AllStartsSucceed(steps: seq<Step>) {
    forall i :: 0 <= i < |steps| && steps[i].Startup? ==> steps[i].answer == 0
  }

  /** At every point of the run the library counts the difference of the calls made. */
  ghost predicate CountsMatch(s: State, refs: nat, steps: seq<Step>) {
    forall n :: 0 <= n <= |steps| ==> CountMatchesAt(s, refs, steps[..n])
  }

  ghost predicate CountMatchesAt(s: State, refs: nat, steps: seq<Step>) {
    LegalRun(s, steps) && Refs(refs, steps) == Run(s, steps).startups - Run(s, steps).cleanups
  }

  /** Calls made are what the library counts, throughout a run, if and only if every start in it succeeds. */
  lemma {:induction false} CountsMatchIff(s: State, steps: seq<Step>)
    requires Inv(s) && LegalRun(s, steps)
    ensures s.startups >= s.cleanups
    ensures CountsMatch(s, s.startups - s.cleanups, steps) <==> AllStartsSucceed(steps)
    decreases |steps|
  {
    hide Inv, Apply, RefsAfter, Enabled;
    CleanupsFollowStartups(s);
    var refs := s.startups - s.cleanups;
    if |steps| == 0 {
      assert steps[..0] == steps;
    } else {
      var p, rest := steps[0], steps[1..];
      var s' := Apply(s, p);
      StepKeepsInv(s, p);
      CleanupsFollowStartups(s');
      StepMatchesIff(s, p);
      MatchesAtStart(s, refs, steps);
      if p.Startup? && p.answer != 0 {
        assert !CountMatchesAt(s, refs, steps[..1]);
        assert !AllStartsSucceed(steps);
      } else {
        CountsMatchIff(s', rest);
        forall n | 1 <= n <= |steps|
          ensures CountMatchesAt(s, refs, steps[..n]) <==> CountMatchesAt(s', s'.startups - s'.cleanups, rest[..n - 1])
        {
          assert steps[..n][1..] == rest[..n - 1];
        }
        MatchesShift(s, steps);
        assert AllStartsSucceed(steps) <==> AllStartsSucceed(rest) by {
          assert forall i :: 1 <= i < |steps| ==> steps[i] == rest[i - 1];
          assert forall i :: 0 <= i < |rest| ==> rest[i] == steps[i + 1];
        }
      }
    }
  }

  /** In particular from the beginning. */
  lemma CountsMatchFromTheBeginningIff(steps: seq<Step>)
    requires LegalRun(INITIAL, steps)
    ensures CountsMatch(INITIAL, 0, steps) <==> AllStartsSucceed(steps)
  {
    assert INITIAL.Starting() == {} && INITIAL.Publishing() == {} && INITIAL.Cleaning() == {};
    hide CountsMatch, AllStartsSucceed;
    CountsMatchIff(INITIAL, steps);
  }

  /** Matching along a run is matching at its start and along the rest. */
  lemma MatchesShift(s: State, steps: seq<Step>)
    requires |steps| > 0 && s.startups >= s.cleanups && Enabled(s, steps[0])
    requires Apply(s, steps[0]).startups >= Apply(s, steps[0]).cleanups
    requires CountMatchesAt(s, s.startups - s.cleanups, steps[..0])
    requires var s' := Apply(s, steps[0]);
             forall n :: 1 <= n <= |steps| ==>
               (CountMatchesAt(s, s.startups - s.cleanups, steps[..n])
                <==> CountMatchesAt(s', s'.startups - s'.cleanups, steps[1..][..n - 1]))
    ensures var s' := Apply(s, steps[0]);
            CountsMatch(s, s.startups - s.cleanups, steps) <==> CountsMatch(s', s'.startups - s'.cleanups, steps[1..])
  {
    hide CountMatchesAt, Apply, Enabled;
    var s', rest := Apply(s, steps[0]), steps[1..];
    if CountsMatch(s, s.startups - s.cleanups, steps) {
      forall n | 0 <= n <= |rest| ensures CountMatchesAt(s', s'.startups - s'.cleanups, rest[..n]) {
        assert CountMatchesAt(s, s.startups - s.cleanups, steps[..n + 1]);
      }
    }
  }

  lemma CleanupsFollowStartups(s: State)
    requires Inv(s)
    ensures s.startups >= s.cleanups
    ensures s.Cleaning() != {} ==> s.startups > s.cleanups
  {
  }

  /** One step keeps the library's count equal to the difference of the calls exactly unless it is a start
      that fails. */
  lemma StepMatchesIff(s: State, p: Step)
    requires Inv(s) && Enabled(s, p) && s.startups >= s.cleanups
    ensures var s' := Apply(s, p);
            RefsAfter(s.startups - s.cleanups, p) == s'.startups - s'.cleanups <==> !(p.Startup? && p.answer != 0)
  {
    if p.Cleanup? {
      assert p.t in s.Cleaning();
      CleanupsFollowStartups(s);
    }
  }

  lemma MatchesAtStart(s: State, refs: nat, steps: seq<Step>)
    requires |steps| > 0 && Enabled(s, steps[0])
    ensures CountMatchesAt(s, refs, steps[..0]) <==> refs == s.startups - s.cleanups
    ensures var s' := Apply(s, steps[0]);
            CountMatchesAt(s, refs, steps[..1]) <==> RefsAfter(refs, steps[0]) == s'.startups - s'.cleanups
  {
    assert steps[..1] == [steps[0]] + [];
    Nothing(Apply(s, steps[0]), RefsAfter(refs, steps[0]));
    Prepend(s, steps[0], [], refs);
  }

  lemma Prepend(s: State, p: Step, rest: seq<Step>, refs: nat)
    requires Enabled(s, p) && LegalRun(Apply(s, p), rest)
    ensures LegalRun(s, [p] + rest) && Run(s, [p] + rest) == Run(Apply(s, p), rest)
    ensures Refs(refs, [p] + rest) == Refs(RefsAfter(refs, p), rest)
  {
    assert ([p] + rest)[1..] == rest;
  }

  /** A start fails, its object is destroyed, another thread starts the library with success, and only then
      the stop for the failed start is made: an object exists, nothing is pending, the stored result says
      success, and the library is stopped. */
  lemma StaleCleanupStopsTheLibrary() returns (steps: seq<Step>)
    ensures LegalRun(INITIAL, steps)
    ensures var s := Run(INITIAL, steps);
            && s.initCount == s.instances == 1 && s.result == 0 && s.Outstanding()
            && forall t :: s.PcOf(t).Outside?
    ensures Refs(0, steps) == 0
  {
    hide LegalRun, Run, Refs;
    var s1 := Apply(INITIAL, Enter(0));
    var s2 := Apply(s1, Startup(0, 1));
    var s3 := Apply(s2, Publish(0));
    var s4 := Apply(s3, Leave(0));
    var s5 := Apply(s4, Enter(1));
    var s6 := Apply(s5, Startup(1, 0));
    var s7 := Apply(s6, Publish(1));
    var s8 := Apply(s7, Cleanup(0));
    Nothing(s8, 0);
    steps := [];
    Prepend(s7, Cleanup(0), steps, 1);
    steps := [Cleanup(0)] + steps;
    Prepend(s6, Publish(1), steps, 1);
    steps := [Publish(1)] + steps;
    Prepend(s5, Startup(1, 0), steps, 0);
    steps := [Startup(1, 0)] + steps;
    Prepend(s4, Enter(1), steps, 0);
    steps := [Enter(1)] + steps;
    Prepend(s3, Leave(0), steps, 0);
    steps := [Leave(0)] + steps;
    Prepend(s2, Publish(0), steps, 0);
    steps := [Publish(0)] + steps;
    Prepend(s1, Startup(0, 1), steps, 0);
    steps := [Startup(0, 1)] + steps;
    Prepend(INITIAL, Enter(0), steps, 0);
    steps := [Enter(0)] + steps;
  }

  lemma Nothing(s: State, refs: nat)
    ensures LegalRun(s, []) && Run(s, []) == s && Refs(refs, []) == refs
  {
  }

  // --------------------------------------------------------- static instance

  /** The state once the static instance has been constructed, before any other thread exists. */
  function AfterStaticInit(t: Tid, answer: int): State {
    State(1, answer, 1, map[t := Outside], 1, 0)
  }

  function RefsAfterStaticInit(answer: int): nat {
    if answer == 0 then 1 else 0
  }

  lemma StaticInitReaches(t: Tid, answer: int)
    ensures var steps := [Enter(t), Startup(t, answer), Publish(t)];
            && LegalRun(INITIAL, steps) && Run(INITIAL, steps) == AfterStaticInit(t, answer)
            && Refs(0, steps) == RefsAfterStaticInit(answer)
  {
    hide LegalRun, Run, Refs;
    var s1 := Apply(INITIAL, Enter(t));
    var s2 := Apply(s1, Startup(t, answer));
    var s3 := Apply(s2, Publish(t));
    assert s3 == AfterStaticInit(t, answer);
    Nothing(s3, RefsAfterStaticInit(answer));
    Prepend(s2, Publish(t), [], RefsAfterStaticInit(answer));
    Prepend(s1, Startup(t, answer), [Publish(t)] + [], 0);
    Prepend(INITIAL, Enter(t), [Startup(t, answer)] + ([Publish(t)] + []), 0);
    assert [Enter(t)] + ([Startup(t, answer)] + ([Publish(t)] + [])) == [Enter(t), Startup(t, answer), Publish(t)];
  }

  /** No step destroys the last instance, as the static one lives to the end of the program. */
  ghost predicate KeepsStaticInstance(s: State, steps: seq<Step>)
    requires LegalRun(s, steps)
    decreases |steps|
  {
    |steps| == 0 ||
    ((steps[0].Leave? ==> s.instances > 1) && KeepsStaticInstance(Apply(s, steps[0]), steps[1..]))
  }

  ghost predicate Quiet(s: State, answer: int) {
    && s.startups == 1 && s.cleanups == 0 && s.result == answer
    && s.initCount == s.instances >= 1
    && forall t :: t in s.pcs ==> s.pcs[t].Outside?
  }

  lemma {:induction false} QuietRun(s: State, steps: seq<Step>, answer: int, refs: nat)
    requires Quiet(s, answer) && LegalRun(s, steps) && KeepsStaticInstance(s, steps)
    ensures Quiet(Run(s, steps), answer) && Refs(refs, steps) == refs
    decreases |steps|
  {
    if |steps| > 0 {
      QuietRun(Apply(s, steps[0]), steps[1..], answer, refs);
    }
  }

  /** Once the static instance stands, no interleaving of any threads ever calls the library's startup
      or cleanup again, every constructor finds its result published, and the library is started if and
      only if the static instance started it with success. */
  lemma StaticInstanceProtects(t: Tid, answer: int, steps: seq<Step>)
    requires LegalRun(AfterStaticInit(t, answer), steps)
    requires KeepsStaticInstance(AfterStaticInit(t, answer), steps)
    ensures var s := Run(AfterStaticInit(t, answer), steps);
            && s.Outstanding() && s.startups == 1 && s.cleanups == 0 && s.result == answer
            && forall u :: s.PcOf(u).Outside?
    ensures Refs(RefsAfterStaticInit(answer), steps) > 0 <==> answer == 0
  {
    QuietRun(AfterStaticInit(t, answer), steps, answer, RefsAfterStaticInit(answer));
  }

  // ------------------------------------------------------------- shared data

  /** The static data; each method is one interlocked operation or library call of a thread. */
  class Data {
    var initCount: int
    var result: int
    ghost var state: State

    ghost predicate Valid()
      reads this
    {
      initCount == state.initCount && result == state.result
    }

    constructor ()
      ensures Valid() && state == INITIAL
    {
      initCount, result, state := 0, 0, INITIAL;
    }

    /** `first` says that the caller must start the library. */
    method IncrementCount(ghost t: Tid) returns (first: bool)
      requires Valid() && Enabled(state, Enter(t))
      modifies this
      ensures Valid() && state == Apply(old(state), Enter(t))
      ensures first <==> state.PcOf(t).CallStartup?
      ensures initCount == old(initCount) + 1 && (first <==> initCount == 1) && result == old(result)
    {
      initCount := initCount + 1;
      first := initCount == 1;
      state := Apply(state, Enter(t));
    }

    ghost method WSAStartup(t: Tid, answer: int)
      requires Valid() && Enabled(state, Startup(t, answer))
      modifies this
      ensures Valid() && state == Apply(old(state), Startup(t, answer))
    {
      state := Apply(state, Startup(t, answer));
    }

    method ExchangeResult(ghost t: Tid, answer: int)
      requires Valid() && state.PcOf(t) == PublishResult(answer)
      modifies this
      ensures Valid() && state == Apply(old(state), Publish(t))
      ensures result == answer && initCount == old(initCount)
    {
      result := answer;
      state := Apply(state, Publish(t));
    }

    /** `last` says that the caller must stop the library. */
    method DecrementCount(ghost t: Tid) returns (last: bool)
      requires Valid() && Enabled(state, Leave(t))
      modifies this
      ensures Valid() && state == Apply(old(state), Leave(t))
      ensures last <==> state.PcOf(t).CallCleanup?
      ensures initCount == old(initCount) - 1 && (last <==> initCount == 0) && result == old(result)
    {
      initCount := initCount - 1;
      last := initCount == 0;
      state := Apply(state, Leave(t));
    }

    ghost method WSACleanup(t: Tid)
      requires Valid() && Enabled(state, Cleanup(t))
      modifies this
      ensures Valid() && state == Apply(old(state), Cleanup(t))
    {
      state := Apply(state, Cleanup(t));
    }
  }
}
