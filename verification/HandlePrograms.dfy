/**
 Programs that construct, use and destroy handles, on the real objects: whatever
 the commands and whatever the system answers, as long as no system call fails
 the program has made a safe run of `HandleRuns`.
 */
module HandlePrograms {
  import opened Kernels
  import opened BasicSockets
  import opened HandleRuns
  import Accepts

  /** Handles are named by their place in the program's list; a construction adds one at the end. */
  datatype Command =
    | New(protocol: Protocol)
    | NewCopy(i: nat)
    | NewMove(i: nat)
    | NewAccepted(i: nat)
    | CopyAssign(i: nat, j: nat)
    | MoveAssign(i: nat, j: nat)
    | Open(i: nat, kind: SocketKind)
    | SetMode(i: nat, mode: bool)
    | Close(i: nat)
    | Destroy(i: nat)
  {
    predicate Constructs() {
      New? || NewCopy? || NewMove? || NewAccepted?
    }

    /** The handles it names exist in a list of this length. */
    predicate Names(n: nat) {
      (New? || i < n) && (CopyAssign? || MoveAssign? ==> j < n)
    }
  }

  /** `Refused` commands, which name no handle or would be unsafe, are not carried out. */
  datatype Status = Performed | Refused | Failed(ec: Errc)

  const NOTHING := World(map[], map[], {})

  /** The action is the one the command asks for, on the handles it names. */
  ghost predicate Does(c: Command, handles: seq<BasicSocket>, a: Action)
    requires c.Names(|handles|)
  {
    && (c.Constructs() || a.h == handles[c.i])
    && match c
       case New(_) => a.Create?
       case NewCopy(i) => a.CopyTo? && a.other == handles[i]
       case NewMove(i) => a.MoveTo? && a.other == handles[i]
       case NewAccepted(_) => a.AcceptOn?
       case CopyAssign(_, j) => a.CopyTo? && a.other == handles[j]
       case MoveAssign(_, j) => a.MoveTo? && a.other == handles[j]
       case Open(_, kind) => a.OpenOn? && a.b.kind == kind
       case SetMode(_, _) => a.SetState?
       case Close(_) => a.CloseOf?
       case Destroy(_) => a.Destroy?
  }

  /** The list has every handle of the world once. */
  ghost predicate Lists(handles: seq<BasicSocket>, w: World) {
    && (forall i, j :: 0 <= i < j < |handles| ==> handles[i] != handles[j])
    && (forall h :: h in handles ==> h in w.views)
    && (forall h :: h in w.views ==> h in handles)
  }

  /** The objects are as the good world `w` says, and the program has them all. */
  ghost predicate Have(k: Kernel, handles: seq<BasicSocket>, w: World)
    reads k, w.views.Keys, w.counts.Keys
  {
    Shows(k, w) && w.Good() && Lists(handles, w)
  }

  method IsSoleOwner(k: Kernel, h: BasicSocket, ghost w: World) returns (sole: bool)
    requires Shows(k, w) && w.Good() && h in w.views
    ensures sole <==> w.SoleOwner(h)
  {
    BlocksAreCounted(w);
    hide World.Good, World.Counted;
    sole := h.shared != null && h.shared.useCount == 1;
  }

  lemma RepointAdds(w: World, h: BasicSocket, v: View)
    ensures w.Repoint(h, v).views.Keys == w.views.Keys + {h}
    ensures w.Repoint(h, v).counts.Keys <= w.counts.Keys + if v.block == null then {} else {v.block}
  {
  }

  lemma MovedAdds(w: World, h: BasicSocket, other: BasicSocket)
    requires other in w.views
    ensures w.Moved(h, other).views.Keys == w.views.Keys + {h}
    ensures w.Moved(h, other).counts.Keys <= w.counts.Keys
  {
  }

  /** What an action adds to the world. */
  lemma ActionKeys(w: World, a: Action)
    requires Possible(w, a) && w.Counted()
    ensures After(w, a).views.Keys == if a.Destroy? then w.views.Keys - {a.h} else w.views.Keys + {a.h}
    ensures After(w, a).counts.Keys <= w.counts.Keys + if a.OpenOn? || a.AcceptOn? then {a.b} else {}
  {
    hide World.Counted, World.Repoint, World.Moved, Repointed;
    match a
    case Create(h) => RepointAdds(w, h, View(null, false, 0));
    case CopyTo(h, other) =>
      RepointAdds(w, h, w.views[other]);
      if w.BlockOf(other) != null {
        BlockIsCounted(w, other);
      }
    case MoveTo(h, other) => MovedAdds(w, h, other);
    case OpenOn(h, b) => RepointAdds(w, h, View(b, true, InitialState(b.kind)));
    case AcceptOn(h, b) => RepointAdds(w, h, View(b, true, AssignedState(b.kind)));
    case SetState(h, state) =>
    case CloseOf(h, state) =>
      var w1 := w.Tuned(h, state);
      RepointAdds(if w.BlockOf(h) == null then w1 else w1.KernelClosed(w.BlockOf(h).fd), h, View(null, false, state));
    case Destroy(h) =>
      RepointAdds(if w.SoleOwner(h) then w.KernelClosed(w.views[h].block.fd) else w, h,
                  View(null, false, w.views[h].state));
  }

  /** The program's list after the action that a command asked for. */
  ghost function ListAfter(handles: seq<BasicSocket>, c: Command, a: Action): seq<BasicSocket>
    requires c.Names(|handles|)
  {
    if c.Constructs() then handles + [a.h]
    else if c.Destroy? then handles[..c.i] + handles[c.i + 1..]
    else handles
  }

  /** Removing one element of a list without repetitions. */
  lemma RemoveAt(handles: seq<BasicSocket>, i: nat)
    requires i < |handles| && forall j, l :: 0 <= j < l < |handles| ==> handles[j] != handles[l]
    ensures var rest := handles[..i] + handles[i + 1..];
            && (forall j, l :: 0 <= j < l < |rest| ==> rest[j] != rest[l])
            && (forall h :: h in rest ==> h in handles && h != handles[i])
            && (forall h :: h in handles && h != handles[i] ==> h in rest)
  {
    var rest := handles[..i] + handles[i + 1..];
    forall h | h in handles && h != handles[i] ensures h in rest {
      var j :| 0 <= j < |handles| && handles[j] == h;
      assert rest[if j < i then j else j - 1] == h;
    }
  }

  /** The list follows the handles that exist. */
  lemma ListsFollow(handles: seq<BasicSocket>, w: World, w': World, c: Command, a: Action)
    requires Lists(handles, w) && c.Names(|handles|) && Does(c, handles, a)
    requires c.Constructs() ==> a.h !in w.views
    requires w'.views.Keys == if c.Destroy? then w.views.Keys - {a.h} else w.views.Keys + {a.h}
    ensures Lists(ListAfter(handles, c, a), w')
  {
    assert forall h :: h in w'.views <==> h in w'.views.Keys;
    if c.Destroy? {
      RemoveAt(handles, c.i);
    }
  }

  lemma DoesDestroy(handles: seq<BasicSocket>, c: Command, a: Action)
    requires c.Names(|handles|) && Does(c, handles, a)
    ensures c.Destroy? <==> a.Destroy?
    ensures !c.Constructs() ==> a.h in handles
  {
  }

  lemma ListsAfter(handles: seq<BasicSocket>, w: World, c: Command, a: Action)
    requires Lists(handles, w) && w.Counted() && c.Names(|handles|) && Does(c, handles, a) && Possible(w, a)
    requires c.Constructs() ==> a.h !in w.views
    ensures Lists(ListAfter(handles, c, a), After(w, a))
  {
    hide After, Possible, Lists, Does, World.Counted;
    ActionKeys(w, a);
    DoesDestroy(handles, c, a);
    ListsFollow(handles, w, After(w, a), c, a);
  }

  /** Where the objects of the world came from. */
  lemma KeysAfter(w: World, a: Action)
    requires w.Counted() && Possible(w, a)
    ensures forall h :: h in After(w, a).views ==> h in w.views || h == a.h
    ensures forall b :: b in After(w, a).counts ==> b in w.counts || ((a.OpenOn? || a.AcceptOn?) && b == a.b)
  {
    hide After, Possible, World.Counted;
    ActionKeys(w, a);
    assert forall h :: h in After(w, a).views ==> h in After(w, a).views.Keys;
    assert forall b :: b in After(w, a).counts ==> b in After(w, a).counts.Keys;
  }

  /** What a command leaves if it did the action. */
  lemma AfterCommand(handles: seq<BasicSocket>, w: World, c: Command, a: Action)
    requires w.Good() && Lists(handles, w) && c.Names(|handles|) && Does(c, handles, a) && Possible(w, a) && Safe(w, a)
    requires c.Constructs() ==> a.h !in w.views
    ensures After(w, a).Good() && Lists(ListAfter(handles, c, a), After(w, a))
  {
    hide World.Good, World.Counted, After, Possible, Safe, Lists, Does;
    BlocksAreCounted(w);
    ActionKeepsGoodIff(w, a);
    ListsAfter(handles, w, c, a);
  }

  lemma NamesExist(handles: seq<BasicSocket>, w: World, c: Command, a: Action)
    requires Lists(handles, w) && c.Names(|handles|) && Does(c, handles, a) && !c.Constructs()
    ensures a.h in w.views
  {
    DoesDestroy(handles, c, a);
  }

  method AcceptOne(k: Kernel, listener: BasicSocket, ghost quiet: nat, ghost w: World)
    returns (h: BasicSocket, status: Status, ghost a: Action, ghost t: seq<Event>)
    requires Shows(k, w) && w.Counted() && listener in w.views && k.QuietFrom(quiet)
    modifies k
    ensures !status.Refused? && a.AcceptOn? && a.h == h && fresh(h) && fresh(a.b)
    ensures h.protocol == listener.protocol && a.b.kind == listener.protocol.kind
    ensures k.trace == old(k.trace) + t && Traced(w, a, t)
    ensures status.Performed? ==> Possible(w, a) && Shows(k, After(w, a))
  {
    hide World.Counted, World.Accepted, Shows, Traced, Accepts.LegalSync;
    var ec;
    ghost var b;
    h, ec, b, t := listener.Accept(k, quiet, w);
    status, a := if ec == NoError then Performed else Failed(ec), AcceptOn(h, b);
    Accepts.SyncAcceptNeverCloses(listener.NativeHandle(), listener.state, t, b.fd, ec);
    NothingTraced(w, a, t);
  }

  /** A command that constructs a handle. */
  method Construct(k: Kernel, handles: seq<BasicSocket>, c: Command, ghost quiet: nat, ghost w: World)
    returns (status: Status, after: seq<BasicSocket>, ghost a: Action, ghost t: seq<Event>)
    requires Have(k, handles, w) && c.Constructs() && c.Names(|handles|) && k.QuietFrom(quiet)
    modifies k, w.counts.Keys, w.views.Keys
    ensures !status.Refused? && Does(c, handles, a) && fresh(a.h) && (a.OpenOn? || a.AcceptOn? ==> fresh(a.b))
    ensures a.h.protocol == if c.New? then c.protocol else old(handles[c.i].protocol)
    ensures k.trace == old(k.trace) + t && Traced(w, a, t)
    ensures status.Performed? ==>
              && Possible(w, a) && Safe(w, a)
              && Shows(k, After(w, a)) && after == ListAfter(handles, c, a)
  {
    BlocksAreCounted(w);
    ShowsMeans(k, w);
    hide World.Good, World.Counted, World.Repoint, World.Moved, World.Holding, Shows, Traced;
    status, after, t := Performed, handles, [];
    if c.New? {
      var h := new BasicSocket(c.protocol, k, w);
      after, a := handles + [h], Create(h);
      NothingTraced(w, a, t);
    } else if c.NewCopy? {
      var h := new BasicSocket.Copy(handles[c.i], k, w);
      after, a := handles + [h], CopyTo(h, handles[c.i]);
      NothingTraced(w, a, t);
    } else if c.NewMove? {
      var h := new BasicSocket.Move(handles[c.i], k, w);
      after, a := handles + [h], MoveTo(h, handles[c.i]);
      NothingTraced(w, a, t);
    } else {
      var h;
      h, status, a, t := AcceptOne(k, handles[c.i], quiet, w);
      after := handles + [h];
    }
  }

  /** The request a command makes of an existing handle. */
  function RequestOf(c: Command, handles: seq<BasicSocket>): Request
    requires !c.Constructs() && c.Names(|handles|)
  {
    match c
    case CopyAssign(_, j) => CopyFrom(handles[j])
    case MoveAssign(_, j) => MoveFrom(handles[j])
    case Open(_, kind) => OpenAs(kind)
    case SetMode(_, mode) => SetNonBlocking(mode)
    case Close(_) => CloseIt
    case Destroy(_) => DestroyIt
  }

  method Check(k: Kernel, h: BasicSocket, r: Request, ghost w: World) returns (ok: bool)
    requires Shows(k, w) && w.Good() && h in w.views
    ensures ok <==> Observes(w, h, r)
  {
    hide World.Good;
    var sole := IsSoleOwner(k, h, w);
    match r {
      case CopyFrom(other) => ok := h == other || !sole;
      case MoveFrom(other) => ok := !sole && (h != other || h.shared == null);
      case OpenAs(_) => ok := !sole;
      case CloseIt => ok := h.shared == null || sole;
      case SetNonBlocking(_) => ok := true;
      case DestroyIt => ok := true;
    }
  }

  /** The command names handles that exist, and the program checks out what it must. */
  ghost predicate Allowed(c: Command, handles: seq<BasicSocket>, w: World) {
    c.Names(|handles|) && (c.Constructs() || Observes(w, handles[c.i], RequestOf(c, handles)))
  }

  /** A command for a mode asks the system for that mode and nothing else. */
  ghost predicate Speaks(c: Command, t: seq<Event>) {
    c.SetMode? ==> forall e :: e in t ==> e.op.Fionbio? && e.op.value == c.mode
  }

  /** A command for an existing handle, carried out exactly if that is safe. */
  method Use(k: Kernel, handles: seq<BasicSocket>, c: Command, ghost w: World)
    returns (status: Status, after: seq<BasicSocket>, ghost a: Action, ghost t: seq<Event>)
    requires Have(k, handles, w) && !c.Constructs() && c.Names(|handles|)
    modifies k, w.counts.Keys, w.views.Keys
    ensures status.Refused? <==> !Allowed(c, handles, w)
    ensures status.Refused? ==> Have(k, handles, w) && after == handles && t == []
    ensures k.trace == old(k.trace) + t && (!status.Refused? ==> Speaks(c, t))
    ensures !status.Refused? ==>
              Does(c, handles, a) && (a.OpenOn? || a.AcceptOn? ==> fresh(a.b))
    ensures status.Performed? ==>
              && Possible(w, a) && Safe(w, a)
              && Shows(k, After(w, a)) && Traced(w, a, t)
              && after == ListAfter(handles, c, a)
  {
    hide World.Good, After, Possible, Shows, Traced;
    var h, r := handles[c.i], RequestOf(c, handles);
    status, after, a, t := Refused, handles, Action.Destroy(h), [];
    var ok := Check(k, h, r, w);
    if ok {
      var ec;
      ec, a, t := Perform(k, h, r, w);
      status := if ec == NoError || r.SetNonBlocking? then Performed else Failed(ec);
      if c.Destroy? {
        after := handles[..c.i] + handles[c.i + 1..];
      }
    }
  }

  /** The system calls of a run, action by action. */
  ghost predicate TracedRun(w: World, run: seq<Action>, traces: seq<seq<Event>>)
    requires SafeRun(w, run)
    decreases |run|
  {
    && |traces| == |run|
    && (run == [] || (Traced(w, run[0], traces[0]) && TracedRun(After(w, run[0]), run[1..], traces[1..])))
  }

  function Flat(traces: seq<seq<Event>>): seq<Event> {
    if |traces| == 0 then [] else traces[0] + Flat(traces[1..])
  }

  lemma {:induction false} FlatAppend(traces: seq<seq<Event>>, t: seq<Event>)
    ensures Flat(traces + [t]) == Flat(traces) + t
  {
    if |traces| == 0 {
      assert (traces + [t])[1..] == [];
    } else {
      FlatAppend(traces[1..], t);
      assert (traces + [t])[1..] == traces[1..] + [t];
      Regroup(traces[0], Flat(traces[1..]), t);
    }
  }

  lemma {:induction false} SafeRunAppend(w: World, run: seq<Action>, a: Action, traces: seq<seq<Event>>, t: seq<Event>)
    requires SafeRun(w, run) && Possible(Last(w, run), a) && Safe(Last(w, run), a)
    requires TracedRun(w, run, traces) && Traced(Last(w, run), a, t)
    ensures SafeRun(w, run + [a]) && Last(w, run + [a]) == After(Last(w, run), a)
    ensures TracedRun(w, run + [a], traces + [t])
    decreases |run|
  {
    hide After, Possible, Safe, Traced;
    if run == [] {
      assert run + [a] == [a] && [a][1..] == [];
      assert traces + [t] == [t] && [t][1..] == [];
    } else {
      SafeRunAppend(After(w, run[0]), run[1..], a, traces[1..], t);
      assert (run + [a])[1..] == run[1..] + [a];
      assert (traces + [t])[1..] == traces[1..] + [t];
    }
  }

  /** The successful close calls of a run are the closings of its actions. */
  lemma {:induction false} ClosedByRun(w: World, run: seq<Action>, traces: seq<seq<Event>>, fd: Socket)
    requires SafeRun(w, run) && TracedRun(w, run, traces)
    ensures Closed(Flat(traces), fd) == Closings(w, run, fd)
    decreases |run|
  {
    hide After, Possible, Safe, Closes;
    if run != [] {
      ClosedByRun(After(w, run[0]), run[1..], traces[1..], fd);
      ClosedConcat(traces[0], Flat(traces[1..]), fd);
    }
  }

  /** One command of a program. */
  method Step(k: Kernel, handles: seq<BasicSocket>, c: Command, ghost quiet: nat, ghost w: World)
    returns (status: Status, after: seq<BasicSocket>, ghost a: Action, ghost t: seq<Event>)
    requires Have(k, handles, w) && c.Names(|handles|) && k.QuietFrom(quiet)
    modifies k, w.counts.Keys, w.views.Keys
    ensures status.Refused? <==> !Allowed(c, handles, w)
    ensures status.Refused? ==> Have(k, handles, w) && after == handles && t == []
    ensures k.trace == old(k.trace) + t
    ensures status.Performed? ==>
              && Possible(w, a) && Safe(w, a) && Does(c, handles, a) && Traced(w, a, t) && Speaks(c, t)
              && after == ListAfter(handles, c, a) && Have(k, after, After(w, a))
              && (forall h :: h in After(w, a).views ==> h in w.views || fresh(h))
              && (forall b :: b in After(w, a).counts ==> b in w.counts || fresh(b))
  {
    hide World.Good, World.Counted, After, Possible, Safe, Shows, Lists, Does, ListAfter, Traced;
    if c.Constructs() {
      status, after, a, t := Construct(k, handles, c, quiet, w);
    } else {
      status, after, a, t := Use(k, handles, c, w);
    }
    if status.Performed? {
      if !c.Constructs() {
        NamesExist(handles, w, c, a);
      }
      BlocksAreCounted(w);
      AfterCommand(handles, w, c, a);
      KeysAfter(w, a);
    }
  }

  /** The actions are those the commands ask for, `lists` are the program's lists between them, and the system
      is asked for the modes the commands name. */
  ghost predicate Follows(commands: seq<Command>, run: seq<Action>, lists: seq<seq<BasicSocket>>,
                          traces: seq<seq<Event>>) {
    && |run| <= |commands| && |lists| == |run| + 1 && |traces| == |run| && lists[0] == []
    && forall i :: 0 <= i < |run| ==>
         && commands[i].Names(|lists[i]|) && Speaks(commands[i], traces[i])
         && Does(commands[i], lists[i], run[i])
         && lists[i + 1] == ListAfter(lists[i], commands[i], run[i])
  }

  /** Any program that starts with no handles and no descriptors, against any system. It stops at the first
      command that is not allowed or whose system call fails. The actions so far are a safe run. Unless a call
      failed the objects are what the run makes of nothing, and the system calls close what the run closes and
      never try to close a descriptor that is not open. When no handle is left, every descriptor has been
      closed as often as it was opened. */
  method PerformAll(k: Kernel, commands: seq<Command>, ghost quiet: nat)
    returns (status: Status, handles: seq<BasicSocket>, ghost run: seq<Action>,
             ghost lists: seq<seq<BasicSocket>>, ghost traces: seq<seq<Event>>)
    requires k.open == {} && k.QuietFrom(quiet)
    modifies k
    ensures |run| <= |commands| && |lists| == |run| + 1 && Follows(commands, run, lists, traces)
    ensures status.Performed? <==> |run| == |commands|
    ensures SafeRun(NOTHING, run) && TracedRun(NOTHING, run, traces)
    ensures status.Refused? ==> !Allowed(commands[|run|], handles, Last(NOTHING, run))
    ensures !status.Failed? ==> handles == lists[|run|] && Have(k, handles, Last(NOTHING, run))
    ensures !status.Failed? ==> k.trace == old(k.trace) + Flat(traces)
    ensures forall fd :: Closed(Flat(traces), fd) == Closings(NOTHING, run, fd)
    ensures !status.Failed? && handles == [] ==>
              k.open == {} && forall fd :: Closed(Flat(traces), fd) == Openings(run, fd)
  {
    hide World.Good, After, Possible, Safe, Does, Lists, ListAfter, Shows, Speaks, Traced, TracedRun, Flat,
         Follows, Have, SafeRun, Last;
    status, handles, run, lists, traces := Performed, [], [], [[]], [];
    ghost var w, told := NOTHING, [];
    StartsGood(k, commands);
    var i := 0;
    while i < |commands|
      invariant |run| == i <= |commands| && status.Performed?
      invariant |lists| == i + 1 && handles == lists[i] && Follows(commands, run, lists, traces)
      invariant SafeRun(NOTHING, run) && TracedRun(NOTHING, run, traces) && w == Last(NOTHING, run)
      invariant Have(k, handles, w) && told == Flat(traces) && k.trace == old(k.trace) + told
      invariant forall h :: h in w.views ==> fresh(h)
      invariant forall b :: b in w.counts ==> fresh(b)
    {
      if !commands[i].Names(|handles|) {
        status := Refused;
        break;
      }
      ghost var a, t;
      status, handles, a, t := Step(k, handles, commands[i], quiet, w);
      if !status.Performed? {
        break;
      }
      SafeRunAppend(NOTHING, run, a, traces, t);
      FollowsAppend(commands, run, lists, traces, a, handles, t);
      FlatAppend(traces, t);
      Regroup(old(k.trace), told, t);
      w, run, lists, traces, told := After(w, a), run + [a], lists + [handles], traces + [t], told + t;
      i := i + 1;
    }
    ClosedByProgram(run, traces);
    if !status.Failed? && handles == [] {
      EndsClean(k, run);
    }
  }

  lemma StartsGood(k: Kernel, commands: seq<Command>)
    requires k.open == {}
    ensures Have(k, [], NOTHING) && Follows(commands, [], [[]], [])
    ensures SafeRun(NOTHING, []) && Last(NOTHING, []) == NOTHING && TracedRun(NOTHING, [], []) && Flat([]) == []
  {
  }

  lemma FollowsAppend(commands: seq<Command>, run: seq<Action>, lists: seq<seq<BasicSocket>>,
                      traces: seq<seq<Event>>, a: Action, handles: seq<BasicSocket>, t: seq<Event>)
    requires Follows(commands, run, lists, traces) && |run| < |commands|
    requires var c, was := commands[|run|], lists[|run|];
             c.Names(|was|) && Speaks(c, t) && Does(c, was, a) && handles == ListAfter(was, c, a)
    ensures Follows(commands, run + [a], lists + [handles], traces + [t])
  {
    hide Does, ListAfter, Speaks;
  }

  lemma ClosedByProgram(run: seq<Action>, traces: seq<seq<Event>>)
    requires SafeRun(NOTHING, run) && TracedRun(NOTHING, run, traces)
    ensures forall fd :: Closed(Flat(traces), fd) == Closings(NOTHING, run, fd)
  {
    hide SafeRun, TracedRun, Flat;
    forall fd ensures Closed(Flat(traces), fd) == Closings(NOTHING, run, fd) {
      ClosedByRun(NOTHING, run, traces, fd);
    }
  }

  lemma EndsClean(k: Kernel, run: seq<Action>)
    requires SafeRun(NOTHING, run) && Have(k, [], Last(NOTHING, run))
    ensures k.open == {} && forall fd :: Closings(NOTHING, run, fd) == Openings(run, fd)
  {
    hide SafeRun, Last, World.Good;
    assert Last(NOTHING, run).views == map[];
    forall fd ensures Closings(NOTHING, run, fd) == Openings(run, fd) {
      NothingIsLeft(run, fd);
    }
    NothingIsLeft(run, 0);
  }
}
