/**
 Whole lives of handles that share descriptors: any sequence of constructions,
 assignments, openings, mode changes, closings and destructions, in terms of the
 worlds that the operations of `BasicSocket` are proved to produce.
 */
module HandleRuns {
  import opened Kernels
  import opened SocketState
  import opened BasicSockets
  import opened ModeRuns

  /** What the program does next. `CopyTo` and `MoveTo` are construction if the handle is new, and
      assignment if it is not; `OpenOn`, `AcceptOn` and `CloseOf` are calls that succeed. */
  datatype Action =
    | Create(h: BasicSocket)
    | CopyTo(h: BasicSocket, other: BasicSocket)
    | MoveTo(h: BasicSocket, other: BasicSocket)
    | OpenOn(h: BasicSocket, b: SharedSocket)
    | AcceptOn(h: BasicSocket, b: SharedSocket)
    | SetState(h: BasicSocket, state: StateWord)
    | CloseOf(h: BasicSocket, state: StateWord)
    | Destroy(h: BasicSocket)

  /** The action can happen at all: handles exist or not as it says, and a descriptor the kernel
      hands out is valid and was not open. */
  ghost predicate Possible(w: World, a: Action) {
    match a
    case Create(h) => h !in w.views
    case CopyTo(_, other) => other in w.views
    case MoveTo(_, other) => other in w.views
    case OpenOn(h, b) => h in w.views && b !in w.counts && b.fd !in w.open && b.fd != INVALID_SOCKET
    case AcceptOn(h, b) => h !in w.views && b !in w.counts && b.fd !in w.open && b.fd != INVALID_SOCKET
    case SetState(h, state) => h in w.views && state & ORIENTATION == w.views[h].state & ORIENTATION
    case CloseOf(h, state) => h in w.views && state & ORIENTATION == w.views[h].state & ORIENTATION
    case Destroy(h) => h in w.views
  }

  ghost function After(w: World, a: Action): World
    requires Possible(w, a)
  {
    match a
    case Create(h) => w.Repoint(h, View(null, false, 0))
    case CopyTo(h, other) => w.Copied(h, other)
    case MoveTo(h, other) => w.Moved(h, other)
    case OpenOn(h, b) => w.Opened(h, b)
    case AcceptOn(h, b) => w.Accepted(h, b)
    case SetState(h, state) => w.Tuned(h, state)
    case CloseOf(h, state) =>
      if w.BlockOf(h) == null then w.Tuned(h, state).LetGo(h)
      else w.Tuned(h, state).KernelClosed(w.BlockOf(h).fd).LetGo(h)
    case Destroy(h) => w.Destroyed(h)
  }

  /** What a program can ask of an existing handle. */
  datatype Request =
    | CopyFrom(other: BasicSocket)
    | MoveFrom(other: BasicSocket)
    | OpenAs(kind: SocketKind)
    | SetNonBlocking(mode: bool)
    | CloseIt
    | DestroyIt

  /** What the program must see to. */
  ghost predicate Observes(w: World, h: BasicSocket, r: Request) {
    match r
    case CopyFrom(other) => h == other || !w.SoleOwner(h)
    case MoveFrom(other) => !w.SoleOwner(h) && (h != other || w.BlockOf(h) == null)
    case OpenAs(_) => !w.SoleOwner(h)
    case CloseIt => w.BlockOf(h) == null || w.SoleOwner(h)
    case _ => true
  }

  ghost predicate Safe(w: World, a: Action) {
    match a
    case CopyTo(h, other) => Observes(w, h, CopyFrom(other))
    case MoveTo(h, other) => Observes(w, h, MoveFrom(other))
    case OpenOn(h, b) => Observes(w, h, OpenAs(b.kind))
    case CloseOf(h, _) => Observes(w, h, CloseIt)
    case _ => true
  }

  /** An action is right exactly if the program sees to what it must. */
  lemma ActionKeepsGoodIff(w: World, a: Action)
    requires w.Good() && Possible(w, a)
    ensures After(w, a).Good() <==> Safe(w, a)
  {
    hide World.Good, Repointed, World.Destroyed, World.Moved, World.Copied, World.Opened, World.Accepted;
    match a
    case Create(h) => GivingUpIsGoodIff(w, h, 0);
    case CopyTo(h, other) => CopyKeepsGoodIff(w, h, other);
    case MoveTo(h, other) => MoveKeepsGoodIff(w, h, other);
    case OpenOn(h, b) => OpenKeepsGoodIff(w, h, b);
    case AcceptOn(h, b) => AcceptKeepsGood(w, h, b);
    case SetState(h, state) => TunedKeepsGoodIff(w, h, state);
    case CloseOf(h, state) => CloseOfKeepsGoodIff(w, h, state);
    case Destroy(h) => DestroyKeepsGood(w, h);
  }

  lemma CloseOfKeepsGoodIff(w: World, h: BasicSocket, state: StateWord)
    requires w.Good() && Possible(w, CloseOf(h, state))
    ensures After(w, CloseOf(h, state)).Good() <==> w.BlockOf(h) == null || w.SoleOwner(h)
  {
    hide World.Good, Repointed, World.LetGo;
    TunedKeepsGoodIff(w, h, state);
    var w1 := w.Tuned(h, state);
    if w.BlockOf(h) == null {
      LetGoKeepsGoodIff(w1, h);
    } else {
      CloseKeepsGoodIff(w1, h);
    }
  }

  // --------------------------------------------------------------------- runs

  ghost predicate SafeRun(w: World, run: seq<Action>)
    decreases |run|
  {
    run == [] || (Possible(w, run[0]) && Safe(w, run[0]) && SafeRun(After(w, run[0]), run[1..]))
  }

  ghost function Last(w: World, run: seq<Action>): World
    requires SafeRun(w, run)
    decreases |run|
  {
    if run == [] then w else Last(After(w, run[0]), run[1..])
  }

  /** Every safe run keeps counts, descriptors and handles in agreement. */
  lemma {:induction false} RunKeepsGood(w: World, run: seq<Action>)
    requires w.Good() && SafeRun(w, run)
    ensures Last(w, run).Good()
    decreases |run|
  {
    hide World.Good, After, Safe, Possible;
    if run != [] {
      ActionKeepsGoodIff(w, run[0]);
      RunKeepsGood(After(w, run[0]), run[1..]);
    }
  }

  ghost predicate Refers(w: World, fd: Socket) {
    exists h :: h in w.views && w.views[h].block != null && w.views[h].block.fd == fd
  }

  lemma OpenIffReferred(w: World, fd: Socket)
    requires w.Good()
    ensures fd in w.open <==> Refers(w, fd)
  {
    if fd in w.open {
      var b :| b in w.counts && b.fd == fd;
      assert w.Held(b);
    }
    hide World.Holders, World.Held;
    if Refers(w, fd) {
      var h :| h in w.views && w.views[h].block != null && w.views[h].block.fd == fd;
    }
  }

  // ------------------------------------------------------------ what goes wrong

  /** A descriptor that is open and that no handle refers to. */
  ghost predicate Leaks(w: World, fd: Socket) {
    fd in w.open && !Refers(w, fd)
  }

  lemma NobodyElse(w: World, h: BasicSocket, g: BasicSocket)
    requires w.Good() && w.SoleOwner(h) && g != h && w.BlockOf(g) != null
    ensures w.BlockOf(g).fd != w.BlockOf(h).fd && w.BlockOf(h).fd in w.open
  {
    SoleHolder(w, h, w.BlockOf(h));
    BlockIsCounted(w, h);
    BlockIsCounted(w, g);
  }

  /** Whatever a sole owner points to instead, the descriptor it had leaks unless it is closed. */
  lemma GivenUpLeaks(w: World, w': World, h: BasicSocket)
    requires w.Good() && w.SoleOwner(h) && w.open <= w'.open
    requires forall g :: g in w'.views && w'.views[g].block != null && w'.views[g].block.fd == w.BlockOf(h).fd ==>
               exists f :: f != h && w.BlockOf(f) != null && w.BlockOf(f).fd == w.BlockOf(h).fd
    ensures Leaks(w', w.BlockOf(h).fd)
  {
    BlockIsCounted(w, h);
    forall f | f != h && w.BlockOf(f) != null ensures w.BlockOf(f).fd != w.BlockOf(h).fd {
      NobodyElse(w, h, f);
    }
  }

  /** Opening over the only handle of a descriptor leaks it. */
  lemma OpenLeaks(w: World, h: BasicSocket, b: SharedSocket)
    requires w.Good() && w.SoleOwner(h) && Possible(w, OpenOn(h, b))
    ensures Leaks(w.Opened(h, b), w.BlockOf(h).fd)
  {
    var w' := w.Opened(h, b);
    BlockIsCounted(w, h);
    assert w.BlockOf(h).fd in w.open;
    forall g | g in w'.views && w'.views[g].block != null && w'.views[g].block.fd == w.BlockOf(h).fd
      ensures exists f :: f != h && w.BlockOf(f) != null && w.BlockOf(f).fd == w.BlockOf(h).fd
    {
      assert g != h && w.BlockOf(g) == w'.views[g].block;
    }
    hide World.Good, World.SoleOwner;
    GivenUpLeaks(w, w', h);
  }

  /** So does copying another handle over it. */
  lemma CopyLeaks(w: World, h: BasicSocket, other: BasicSocket)
    requires w.Good() && w.SoleOwner(h) && other in w.views && other != h
    ensures Leaks(w.Copied(h, other), w.BlockOf(h).fd)
  {
    var w' := w.Copied(h, other);
    forall g | g in w'.views && w'.views[g].block != null && w'.views[g].block.fd == w.BlockOf(h).fd
      ensures exists f :: f != h && w.BlockOf(f) != null && w.BlockOf(f).fd == w.BlockOf(h).fd
    {
      var f := if g == h then other else g;
      assert f != h && w.BlockOf(f) == w'.views[g].block;
    }
    hide World.Good, World.SoleOwner;
    GivenUpLeaks(w, w', h);
  }

  /** And moving another handle into it. */
  lemma MoveLeaks(w: World, h: BasicSocket, other: BasicSocket)
    requires w.Good() && w.SoleOwner(h) && other in w.views && other != h
    ensures Leaks(w.Moved(h, other), w.BlockOf(h).fd)
  {
    var w' := w.Moved(h, other);
    forall g | g in w'.views && w'.views[g].block != null && w'.views[g].block.fd == w.BlockOf(h).fd
      ensures exists f :: f != h && w.BlockOf(f) != null && w.BlockOf(f).fd == w.BlockOf(h).fd
    {
      var f := if g == h then other else g;
      assert f != h && w.BlockOf(f) == w'.views[g].block;
    }
    hide World.Good, World.SoleOwner;
    GivenUpLeaks(w, w', h);
  }

  /** Moved onto itself, a handle with a descriptor keeps it and says it is closed. */
  lemma SelfMoveForgets(w: World, h: BasicSocket)
    requires w.Good() && w.BlockOf(h) != null
    ensures w.views[h].isOpen
    ensures w.Moved(h, h).BlockOf(h) == w.BlockOf(h) && !w.Moved(h, h).views[h].isOpen
  {
    GoodMeans(w, h, h);
  }

  /** Closing a descriptor that another handle shares leaves that handle open on a closed descriptor. */
  lemma CloseDangles(w: World, h: BasicSocket, state: StateWord) returns (g: BasicSocket)
    requires w.Good() && w.BlockOf(h) != null && !w.SoleOwner(h) && Possible(w, CloseOf(h, state))
    ensures var w' := After(w, CloseOf(h, state));
            g in w'.views && w'.BlockOf(g) == w.BlockOf(h) && w'.views[g].isOpen && w.BlockOf(h).fd !in w'.open
  {
    g := AnotherHolder(w, h);
    GoodMeans(w, g, g);
  }

  /** One handle of one descriptor. */
  lemma OneHandle(h: BasicSocket, b: SharedSocket) returns (w: World)
    requires b.fd != INVALID_SOCKET
    ensures w.Good() && w.SoleOwner(h) && w.BlockOf(h) == b && w.open == {b.fd} && w.counts.Keys == {b}
  {
    w := World(map[h := View(b, true, InitialState(b.kind))], map[b := 1], {b.fd});
    assert w.Holders(b) == {h};
    assert w.Held(b) by { assert w.views[h].block == b; }
  }

  /** Two handles of one descriptor. */
  lemma TwoHandles(h: BasicSocket, g: BasicSocket, b: SharedSocket) returns (w: World)
    requires h != g && b.fd != INVALID_SOCKET
    ensures w.Good() && w.BlockOf(h) == b == w.BlockOf(g) && !w.SoleOwner(h) && !w.SoleOwner(g)
    ensures w.views.Keys == {h, g}
    ensures w.views[h].state == w.views[g].state == InitialState(b.kind)
  {
    var v := View(b, true, InitialState(b.kind));
    w := World(map[h := v, g := v], map[b := 2], {b.fd});
    assert w.Holders(b) == {h, g};
    assert w.Held(b) by { assert w.views[h].block == b; }
  }

  /** A program of one handle that opens twice leaks the first descriptor. */
  lemma OpeningTwiceLeaks(h: BasicSocket, b: SharedSocket, c: SharedSocket) returns (w: World)
    requires b != c && b.fd != c.fd && b.fd != INVALID_SOCKET && c.fd != INVALID_SOCKET
    ensures w.Good() && w.BlockOf(h) == b && Possible(w, OpenOn(h, c)) && Leaks(w.Opened(h, c), b.fd)
  {
    w := OneHandle(h, b);
    OpenLeaks(w, h, c);
  }

  /** A program of two handles of one descriptor that closes one of them leaves the other dangling. */
  lemma ClosingOneOfTwoDangles(h: BasicSocket, g: BasicSocket, b: SharedSocket) returns (w: World)
    requires h != g && b.fd != INVALID_SOCKET
    ensures w.Good() && w.BlockOf(h) == b && Possible(w, CloseOf(h, w.views[h].state))
    ensures var w' := After(w, CloseOf(h, w.views[h].state));
            w'.BlockOf(g) == b && w'.views[g].isOpen && b.fd !in w'.open
  {
    w := TwoHandles(h, g, b);
    GoodMeans(w, h, g);
  }

  // -------------------------------------------------------- opening and closing

  /** A descriptor is closed exactly when its last handle goes, and by nothing else. */
  lemma ClosedWithTheLastHandle(w: World, a: Action, fd: Socket)
    requires w.Good() && Possible(w, a) && Safe(w, a)
    ensures fd in w.open && fd !in After(w, a).open <==> Refers(w, fd) && !Refers(After(w, a), fd)
  {
    hide World.Good, After, Safe, Possible, Refers;
    ActionKeepsGoodIff(w, a);
    OpenIffReferred(w, fd);
    OpenIffReferred(After(w, a), fd);
  }

  predicate Opens(a: Action, fd: Socket) {
    (a.OpenOn? || a.AcceptOn?) && a.b.fd == fd
  }

  /** How often a run opens and closes the descriptor `fd`. */
  ghost function Openings(run: seq<Action>, fd: Socket): nat {
    if run == [] then 0
    else (if Opens(run[0], fd) then 1 else 0) + Openings(run[1..], fd)
  }

  ghost predicate Closes(w: World, a: Action, fd: Socket) {
    match a
    case CloseOf(h, _) => w.BlockOf(h) != null && w.BlockOf(h).fd == fd
    case Destroy(h) => w.SoleOwner(h) && w.BlockOf(h).fd == fd
    case _ => false
  }

  ghost function Closings(w: World, run: seq<Action>, fd: Socket): nat
    requires SafeRun(w, run)
    decreases |run|
  {
    if run == [] then 0
    else (if Closes(w, run[0], fd) then 1 else 0) + Closings(After(w, run[0]), run[1..], fd)
  }

  lemma OpenAfterAction(w: World, a: Action, fd: Socket)
    requires w.Good() && Possible(w, a)
    ensures Closes(w, a, fd) ==> fd in w.open
    ensures Opens(a, fd) ==> fd !in w.open
    ensures fd in After(w, a).open <==> (fd in w.open && !Closes(w, a, fd)) || Opens(a, fd)
  {
    hide World.Holders, World.Held, Repointed;
  }

  /** Every opening of a descriptor is matched by one closing, or the descriptor is still open. */
  lemma {:induction false} OpeningsAreClosed(w: World, run: seq<Action>, fd: Socket)
    requires w.Good() && SafeRun(w, run)
    ensures Openings(run, fd) + (if fd in w.open then 1 else 0)
         == Closings(w, run, fd) + (if fd in Last(w, run).open then 1 else 0)
    decreases |run|
  {
    hide World.Good, After, Safe, Possible, Closes, Opens;
    if run != [] {
      ActionKeepsGoodIff(w, run[0]);
      OpenAfterAction(w, run[0], fd);
      OpeningsAreClosed(After(w, run[0]), run[1..], fd);
    }
  }

  /** A program that starts with nothing and destroys all its handles closes every descriptor exactly
      as often as it opened it. */
  lemma NothingIsLeft(run: seq<Action>, fd: Socket)
    requires SafeRun(World(map[], map[], {}), run)
    requires Last(World(map[], map[], {}), run).views == map[]
    ensures Last(World(map[], map[], {}), run).open == {}
    ensures Closings(World(map[], map[], {}), run, fd) == Openings(run, fd)
  {
    var start := World(map[], map[], {});
    assert start.Good();
    hide World.Good;
    RunKeepsGood(start, run);
    NoHandlesNoDescriptors(Last(start, run));
    OpeningsAreClosed(start, run, fd);
  }

  /** After any safe run, an open handle has an open descriptor, and handles on one descriptor agree on
      its orientation. */
  lemma HandlesAgreeAfterRun(w: World, run: seq<Action>, h: BasicSocket, g: BasicSocket)
    requires w.Good() && SafeRun(w, run) && h in Last(w, run).views && g in Last(w, run).views
    ensures var v, u := Last(w, run).views[h], Last(w, run).views[g];
            && (v.isOpen <==> v.block != null)
            && (v.isOpen ==> v.block.fd in Last(w, run).open)
            && (v.block != null && u.block != null && v.block.fd == u.block.fd ==>
                  v.state & ORIENTATION == u.state & ORIENTATION)
  {
    RunKeepsGood(w, run);
    GoodMeans(Last(w, run), h, g);
  }

  // ------------------------------------------------------------- blocking modes

  /** Every handle of the block has a state word that agrees with the kernel's mode. */
  ghost predicate AllAgree(w: World, b: SharedSocket, mode: bool) {
    forall g :: g in w.views && w.views[g].block == b ==> Agree(mode, w.views[g].state)
  }

  /** A mode request through one handle leaves all handles of the descriptor in agreement with the kernel
      if and only if there is no other handle or the kernel was in that mode already. */
  lemma RequestKeepsAllAgreeingIff(w: World, h: BasicSocket, p: Modes.Step, mode: bool)
    requires w.Counted() && w.BlockOf(h) != null
    requires p.s == w.BlockOf(h).fd && p.s != INVALID_SOCKET && p.before == w.views[h].state && ChangedMode(p)
    requires AllAgree(w, w.BlockOf(h), mode)
    ensures AllAgree(w.Tuned(h, p.after), w.BlockOf(h), NonBlockingMode(p.events, p.s, mode))
            <==> w.SoleOwner(h) || p.events[0].op.value == mode
  {
    hide NonBlockingMode, Modes.Legal, World.Holders, World.Held;
    var b, w' := w.BlockOf(h), w.Tuned(h, p.after);
    var after := NonBlockingMode(p.events, p.s, mode);
    assert Agree(after, p.after) by { OpenStepKeepsAgreement(p, mode); }
    OtherHandleAgrees(p, mode, p.before);
    PositiveCount(w, b);
    if w.SoleOwner(h) {
      SoleHolder(w, h, b);
    } else {
      var g := AnotherHolder(w, h);
      assert Agree(mode, w.views[g].state) && w'.views[g] == w.views[g];
    }
  }

  /** A block with another count than one has another holder. */
  lemma AnotherHolder(w: World, h: BasicSocket) returns (g: BasicSocket)
    requires w.Counted() && w.BlockOf(h) != null && !w.SoleOwner(h)
    ensures g != h && g in w.views && w.views[g].block == w.BlockOf(h)
  {
    var b := w.BlockOf(h);
    assert h in w.Holders(b);
    var others := w.Holders(b) - {h};
    assert w.Holders(b) == others + {h};
    assert b in w.counts;
    assert |others| > 0;
    g :| g in others;
  }

  /** Two handles of a blocking descriptor; a request through one makes the other's word wrong. */
  lemma SecondHandleDisagrees(h: BasicSocket, g: BasicSocket, b: SharedSocket) returns (w: World, p: Modes.Step)
    requires h != g && b.fd != INVALID_SOCKET
    ensures w.Good() && w.BlockOf(h) == b == w.BlockOf(g) && AllAgree(w, b, false)
    ensures ChangedMode(p) && p.s == b.fd && p.before == w.views[h].state && p.call == Modes.SetUserMode(true)
    ensures NonBlockingMode(p.events, p.s, false) && !Agree(true, w.Tuned(h, p.after).views[g].state)
  {
    w := TwoHandles(h, g, b);
    var state := InitialState(b.kind);
    var e := Event(Fionbio(b.fd, true), 0, NoError, 0);
    p := Modes.Step(b.fd, Modes.SetUserMode(true), state, Modes.WithUserMode(state, true), 0, NoError, [e]);
    OtherHandleAgrees(p, false, state);
  }

  // -------------------------------------------------------------- failed closing

  /** A close that fails leaves the descriptor open and the handle without it, which is wrong exactly if
      nobody else holds it. */
  lemma FailedCloseIsGoodIff(w: World, h: BasicSocket, p: Modes.Step)
    requires w.Good() && w.BlockOf(h) != null
    requires Modes.Legal(p) && p.call.CloseSocket? && p.s == w.BlockOf(h).fd && p.s != INVALID_SOCKET
    requires p.before == w.views[h].state && p.result < 0
    ensures forall e :: e in p.events && e.op == CloseCall(p.s) ==> !e.Succeeded()
    ensures var w' := w.Tuned(h, p.after).LetGo(h);
            && p.s in w'.open && w'.BlockOf(h) == null && (w'.Good() <==> !w.SoleOwner(h))
  {
    hide Modes.Legal, World.Good, Repointed;
    Modes.FailedCloseClosesNothing(p);
    KeepsOrientation(p);
    var w1 := w.Tuned(h, p.after);
    assert w1.Good() by { TunedKeepsGoodIff(w, h, p.after); }
    LetGoKeepsGoodIff(w1, h);
    HeldIsOpen(w, h);
  }

  lemma HeldIsOpen(w: World, h: BasicSocket)
    requires w.Good() && w.BlockOf(h) != null
    ensures w.BlockOf(h).fd in w.open
  {
  }

  // ----------------------------------------------------------------- programs

  /** The action was possible in the world `w`, and the world is now what it makes of `w`. */
  ghost predicate Done(k: Kernel, w: World, a: Action)
    reads k, if Possible(w, a) then After(w, a).views.Keys else {},
          if Possible(w, a) then After(w, a).counts.Keys else {}
  {
    Possible(w, a) && Shows(k, After(w, a))
  }

  /** The system calls `t` close what the action says, once, with the last of them, and never try to close
      a descriptor that is not open. */
  ghost predicate Traced(w: World, a: Action, t: seq<Event>) {
    && (forall fd :: Closed(t, fd) == if Closes(w, a, fd) then 1 else 0)
    && (forall i :: 0 <= i < |t| && t[i].op.CloseCall? ==>
          t[i].op.s in w.open && (t[i].Succeeded() ==> i == |t| - 1))
  }

  lemma NothingTraced(w: World, a: Action, t: seq<Event>)
    requires forall fd :: !Closes(w, a, fd)
    requires forall i :: 0 <= i < |t| ==> !t[i].op.CloseCall?
    ensures Traced(w, a, t)
  {
    forall fd ensures Closed(t, fd) == 0 {
      ClosedNothing(t, fd);
    }
  }

  /** The calls of a close, after others that close nothing. */
  lemma CloseTraced(w: World, a: Action, u: seq<Event>, p: Modes.Step)
    requires Modes.Legal(p) && p.call.CloseSocket? && p.s != INVALID_SOCKET && p.result >= 0 && p.s in w.open
    requires forall i :: 0 <= i < |u| ==> !u[i].op.CloseCall?
    requires forall fd :: Closes(w, a, fd) <==> fd == p.s
    ensures Traced(w, a, u + p.events)
  {
    hide Modes.Legal, Closes;
    forall fd ensures Closed(u + p.events, fd) == if fd == p.s then 1 else 0 {
      Modes.CloseClosesOnce(p, fd);
      ClosedNothing(u, fd);
      ClosedConcat(u, p.events, fd);
    }
    Modes.CloseClosesOnce(p, p.s);
  }

  method OpenHandle(k: Kernel, h: BasicSocket, kind: SocketKind, ghost w: World)
    returns (ec: Errc, ghost a: Action, ghost t: seq<Event>)
    requires Shows(k, w) && w.Good() && h in w.views
    modifies k, w.views.Keys, w.counts.Keys
    ensures a.OpenOn? && a.h == h && fresh(a.b) && a.b.kind == kind
    ensures k.trace == old(k.trace) + t && Traced(w, a, t)
    ensures ec == NoError ==> Done(k, w, a)
  {
    BlocksAreCounted(w);
    ShowsMeans(k, w);
    hide World.Good, World.Counted, World.Opened, Shows, Traced;
    ghost var b, e;
    ec, b, e := h.Open(k, kind, w);
    a, t := OpenOn(h, b), [e];
    NothingTraced(w, a, t);
  }

  lemma ModeTraced(w: World, h: BasicSocket, state: StateWord, p: Modes.Step)
    requires Modes.Legal(p) && !p.call.CloseSocket?
    ensures Traced(w, SetState(h, state), p.events)
  {
    hide Modes.Legal, Traced;
    Modes.OthersNeverClose(p);
    NothingTraced(w, SetState(h, state), p.events);
  }

  /** What a mode request asks the system: exactly the mode, of exactly the handle's descriptor. */
  ghost predicate AsksForMode(w: World, h: BasicSocket, r: Request, t: seq<Event>) {
    r.SetNonBlocking? ==>
      if w.BlockOf(h) == null then t == []
      else |t| == 1 && t[0].op == Fionbio(w.BlockOf(h).fd, r.mode)
  }

  lemma ModeAsked(w: World, h: BasicSocket, mode: bool, p: Modes.Step)
    requires w.Good() && Modes.Legal(p) && p.call == Modes.SetUserMode(mode)
    requires p.s == if w.BlockOf(h) == null then INVALID_SOCKET else w.BlockOf(h).fd
    ensures AsksForMode(w, h, SetNonBlocking(mode), p.events)
  {
    NeverInvalid(w);
    hide World.Good;
  }

  method TuneHandle(k: Kernel, h: BasicSocket, mode: bool, ghost w: World)
    returns (ec: Errc, ghost a: Action, ghost t: seq<Event>)
    requires Shows(k, w) && w.Good() && h in w.views
    modifies k, w.views.Keys, w.counts.Keys
    ensures a.SetState? && a.h == h && Done(k, w, a)
    ensures k.trace == old(k.trace) + t && Traced(w, a, t) && AsksForMode(w, h, SetNonBlocking(mode), t)
  {
    ShowsMeans(k, w);
    hide World.Good, World.Tuned, Shows, Traced, Modes.Legal, AsksForMode;
    ghost var p;
    ec, p := h.NonBlocking(k, mode, w);
    a, t := SetState(h, h.state), p.events;
    ModeTraced(w, h, h.state, p);
    ModeAsked(w, h, mode, p);
  }

  lemma CloseOfTraced(w: World, h: BasicSocket, p: Modes.Step)
    requires w.Good() && h in w.views && Modes.Legal(p) && p.call.CloseSocket? && p.result == 0
    requires p.s == if w.BlockOf(h) == null then INVALID_SOCKET else w.BlockOf(h).fd
    ensures Traced(w, CloseOf(h, p.after), p.events)
  {
    NeverInvalid(w);
    if w.BlockOf(h) == null {
      NothingTraced(w, CloseOf(h, p.after), p.events);
    } else {
      HeldIsOpen(w, h);
      hide Modes.Legal, Traced, World.Good;
      CloseTraced(w, CloseOf(h, p.after), [], p);
      assert [] + p.events == p.events;
    }
  }

  method CloseHandle(k: Kernel, h: BasicSocket, ghost w: World)
    returns (ec: Errc, ghost a: Action, ghost t: seq<Event>)
    requires Shows(k, w) && w.Good() && h in w.views
    modifies k, w.views.Keys, w.counts.Keys
    ensures a.CloseOf? && a.h == h && k.trace == old(k.trace) + t
    ensures ec == NoError ==> Done(k, w, a) && Traced(w, a, t)
  {
    BlocksAreCounted(w);
    ShowsMeans(k, w);
    NeverInvalid(w);
    hide World.Good, World.Counted, World.LetGo, Shows, Modes.Legal, Traced;
    ghost var p;
    ec, p := h.Close(k, w);
    KeepsOrientation(p);
    a, t := CloseOf(h, p.after), p.events;
    if ec == NoError {
      CloseOfTraced(w, h, p);
    }
  }

  lemma DestroyTraced(w: World, h: BasicSocket, shut: seq<Event>, p: Modes.Step)
    requires w.Good() && h in w.views
    requires if w.SoleOwner(h) then DestructorCalls(w.BlockOf(h).fd, NoError, shut, p) else shut == [] && p.events == []
    ensures Traced(w, Action.Destroy(h), shut + p.events)
  {
    if w.SoleOwner(h) {
      HeldIsOpen(w, h);
      hide Modes.Legal, Traced, World.Good, World.SoleOwner;
      CloseTraced(w, Action.Destroy(h), shut, p);
    } else {
      NothingTraced(w, Action.Destroy(h), shut + p.events);
    }
  }

  lemma Regroup(t: seq<Event>, u: seq<Event>, v: seq<Event>)
    ensures t + u + v == t + (u + v)
  {
  }

  method DestroyHandle(k: Kernel, h: BasicSocket, ghost w: World)
    returns (ec: Errc, ghost a: Action, ghost t: seq<Event>)
    requires Shows(k, w) && w.Good() && h in w.views
    modifies k, w.views.Keys, w.counts.Keys
    ensures a.Destroy? && a.h == h && k.trace == old(k.trace) + t
    ensures ec == NoError ==> Done(k, w, a) && Traced(w, a, t)
  {
    BlocksAreCounted(w);
    ShowsMeans(k, w);
    hide World.Good, World.Counted, World.Destroyed, Shows, Modes.Legal, Traced, DestructorCalls;
    ghost var shut, p;
    ec, shut, p := h.Destroy(k, w);
    a, t := Action.Destroy(h), shut + p.events;
    Regroup(old(k.trace), shut, p.events);
    if ec == NoError {
      DestroyTraced(w, h, shut, p);
    }
  }

  method CarryOut(k: Kernel, h: BasicSocket, r: Request, ghost w: World)
    returns (ec: Errc, ghost a: Action, ghost t: seq<Event>)
    requires Shows(k, w) && w.Good() && h in w.views
    requires r.CopyFrom? || r.MoveFrom? ==> r.other in w.views
    modifies k, w.views.Keys, w.counts.Keys
    ensures a.h == h && Asks(r, a) && (a.OpenOn? ==> fresh(a.b))
    ensures k.trace == old(k.trace) + t
    ensures AsksForMode(w, h, r, t)
    ensures ec == NoError || r.SetNonBlocking? ==> Done(k, w, a) && Traced(w, a, t)
  {
    BlocksAreCounted(w);
    ShowsMeans(k, w);
    hide World.Good, World.Counted, World.Moved, World.Copied, Shows, Traced;
    match r {
      case CopyFrom(other) =>
        h.CopyAssign(other, k, w);
        ec, a, t := NoError, CopyTo(h, other), [];
        NothingTraced(w, a, t);
      case MoveFrom(other) =>
        h.MoveAssign(other, k, w);
        ec, a, t := NoError, MoveTo(h, other), [];
        NothingTraced(w, a, t);
      case OpenAs(kind) => ec, a, t := OpenHandle(k, h, kind, w);
      case SetNonBlocking(mode) => ec, a, t := TuneHandle(k, h, mode, w);
      case CloseIt => ec, a, t := CloseHandle(k, h, w);
      case DestroyIt => ec, a, t := DestroyHandle(k, h, w);
    }
  }

  /** The action is the one the request asks for. */
  ghost predicate Asks(r: Request, a: Action) {
    match r
    case CopyFrom(other) => a.CopyTo? && a.other == other
    case MoveFrom(other) => a.MoveTo? && a.other == other
    case OpenAs(kind) => a.OpenOn? && a.b.kind == kind
    case SetNonBlocking(_) => a.SetState?
    case CloseIt => a.CloseOf?
    case DestroyIt => a.Destroy?
  }

  /** Unless a system call fails, every request is one of the actions above, and right under exactly
      their conditions. A refused mode request is an action that changes nothing. */
  method Perform(k: Kernel, h: BasicSocket, r: Request, ghost w: World)
    returns (ec: Errc, ghost a: Action, ghost t: seq<Event>)
    requires Shows(k, w) && w.Good() && h in w.views
    requires r.CopyFrom? || r.MoveFrom? ==> r.other in w.views
    modifies k, w.views.Keys, w.counts.Keys
    ensures a.h == h && Asks(r, a) && (a.OpenOn? ==> fresh(a.b))
    ensures k.trace == old(k.trace) + t && AsksForMode(w, h, r, t)
    ensures ec == NoError || r.SetNonBlocking? ==>
              Done(k, w, a) && Traced(w, a, t) && (After(w, a).Good() <==> Safe(w, a))
  {
    hide World.Good, After, Safe, Possible, Shows, Asks, Traced, AsksForMode;
    ec, a, t := CarryOut(k, h, r, w);
    if ec == NoError || r.SetNonBlocking? {
      ActionKeepsGoodIff(w, a);
    }
  }

  lemma NeverInvalid(w: World)
    requires w.Good()
    ensures forall h :: h in w.views && w.views[h].block != null ==> w.views[h].block.fd != INVALID_SOCKET
  {
  }

  lemma KeepsOrientation(p: Modes.Step)
    requires Modes.Legal(p)
    ensures p.after & ORIENTATION == p.before & ORIENTATION
  {
    hide Modes.Legal;
    StepFrame(p);
  }

  lemma BlocksAreCounted(w: World)
    requires w.Good()
    ensures w.Counted()
    ensures forall h :: h in w.views && w.views[h].block != null ==> w.views[h].block in w.counts
  {
  }
}
