/**
 The kernel's blocking modes and the state words of all handles over whole runs:
 every handle keeps its own word, and what one handle asks for another does not
 learn.
 */
module HandleModes {
  import opened Kernels
  import opened SocketState
  import opened BasicSockets
  import opened ModeRuns
  import opened HandleRuns

  /** An action that leaves modes alone, or a call on the state word of the open handle `h`. */
  datatype Stage = Act(a: Action) | Ask(h: BasicSocket, p: Modes.Step)

  ghost predicate Fits(w: World, m: Stage) {
    match m
    case Act(a) => Possible(w, a) && !a.SetState?
    case Ask(h, p) =>
      && w.BlockOf(h) != null && p.s == w.BlockOf(h).fd
      && Modes.Legal(p) && !p.call.CloseSocket? && p.before == w.views[h].state
  }

  function ActionOf(m: Stage): Action {
    match m
    case Act(a) => a
    case Ask(h, p) => SetState(h, p.after)
  }

  /** The kernel's mode for a descriptor; a new descriptor is in blocking mode. */
  function ModeIn(modes: map<Socket, bool>, fd: Socket): bool {
    fd in modes && modes[fd]
  }

  function ModesAfter(modes: map<Socket, bool>, m: Stage): map<Socket, bool> {
    match m
    case Ask(h, p) => modes[p.s := NonBlockingMode(p.events, p.s, ModeIn(modes, p.s))]
    case Act(a) => if a.OpenOn? || a.AcceptOn? then modes[a.b.fd := false] else modes
  }

  /** Every handle's word agrees with the mode of its descriptor. */
  ghost predicate Agreeing(w: World, modes: map<Socket, bool>) {
    forall h :: h in w.views ==> ViewAgrees(w.views[h], modes)
  }

  ghost predicate ViewAgrees(v: View, modes: map<Socket, bool>) {
    v.block != null ==> Agree(ModeIn(modes, v.block.fd), v.state)
  }

  /** A request that changes a mode is made by the only handle of its descriptor. */
  ghost predicate Considerate(w: World, modes: map<Socket, bool>, m: Stage) {
    m.Ask? && ChangedMode(m.p) ==> w.SoleOwner(m.h) || m.p.events[0].op.value == ModeIn(modes, m.p.s)
  }

  /** After an action a handle looks as some handle did before, or holds nothing, or has a new descriptor. */
  lemma ViewsAfter(w: World, a: Action, g: BasicSocket)
    requires w.Good() && Possible(w, a) && !a.SetState? && g in After(w, a).views
    ensures var v := After(w, a).views[g];
            || v.block == null
            || (exists f :: f in w.views && w.views[f].block == v.block && w.views[f].state == v.state)
            || ((a.OpenOn? || a.AcceptOn?) && v.block == a.b
                && (v.state == InitialState(a.b.kind) || v.state == AssignedState(a.b.kind)))
  {
    hide World.Good, Repointed;
    var v := After(w, a).views[g];
    if g in w.views && g != a.h {
      assert v.block == null || v == w.views[g];
    } else if (a.CopyTo? || a.MoveTo?) && v.block != null {
      assert w.views[a.other].block == v.block && w.views[a.other].state == v.state;
    }
  }

  lemma NewWordsAreBlocking(kind: SocketKind)
    ensures Agree(false, InitialState(kind)) && Agree(false, AssignedState(kind))
  {
  }

  lemma ActKeepsAgreeing(w: World, modes: map<Socket, bool>, a: Action)
    requires w.Good() && Agreeing(w, modes) && Fits(w, Act(a))
    ensures Agreeing(After(w, a), ModesAfter(modes, Act(a)))
  {
    hide World.Good, After, Possible;
    var modes' := ModesAfter(modes, Act(a));
    forall g | g in After(w, a).views ensures ViewAgrees(After(w, a).views[g], modes') {
      var v := After(w, a).views[g];
      ViewsAfter(w, a, g);
      if f :| f in w.views && w.views[f].block == v.block && w.views[f].state == v.state && v.block != null {
        assert ViewAgrees(w.views[f], modes);
        if a.OpenOn? || a.AcceptOn? {
          NewIsElsewhere(w, a, f);
        }
      } else if v.block != null {
        NewWordsAreBlocking(a.b.kind);
      }
    }
  }

  lemma NewIsElsewhere(w: World, a: Action, f: BasicSocket)
    requires w.Good() && Possible(w, a) && (a.OpenOn? || a.AcceptOn?) && w.BlockOf(f) != null
    ensures w.BlockOf(f).fd != a.b.fd
  {
    HeldIsOpen(w, f);
  }

  /** The handles of other descriptors do not notice a request. */
  lemma AskIsLocal(w: World, modes: map<Socket, bool>, h: BasicSocket, p: Modes.Step)
    requires w.Good() && Agreeing(w, modes) && Fits(w, Ask(h, p))
    ensures var w', modes' := w.Tuned(h, p.after), ModesAfter(modes, Ask(h, p));
            Agreeing(w', modes') <==> AllAgree(w', w.BlockOf(h), ModeIn(modes', p.s))
  {
    hide Modes.Legal, NonBlockingMode;
    var b, w', modes' := w.BlockOf(h), w.Tuned(h, p.after), ModesAfter(modes, Ask(h, p));
    forall g | g in w'.views && w'.views[g].block != null && w'.views[g].block != b
      ensures ViewAgrees(w'.views[g], modes')
    {
      DifferentBlocks(w, h, g);
      assert ViewAgrees(w.views[g], modes);
    }
    forall g | g in w'.views && w'.views[g].block == b
      ensures ViewAgrees(w'.views[g], modes') <==> Agree(ModeIn(modes', p.s), w'.views[g].state)
    {
    }
    assert AllAgree(w', b, ModeIn(modes', p.s)) ==> forall g :: g in w'.views ==> ViewAgrees(w'.views[g], modes');
  }

  lemma DifferentBlocks(w: World, h: BasicSocket, g: BasicSocket)
    requires w.Good() && w.BlockOf(h) != null && w.BlockOf(g) != null && w.BlockOf(g) != w.BlockOf(h)
    ensures w.BlockOf(g).fd != w.BlockOf(h).fd
  {
    BlockIsCounted(w, h);
    BlockIsCounted(w, g);
  }

  lemma AskKeepsAgreeingIff(w: World, modes: map<Socket, bool>, h: BasicSocket, p: Modes.Step)
    requires w.Good() && Agreeing(w, modes) && Fits(w, Ask(h, p))
    ensures Agreeing(w.Tuned(h, p.after), ModesAfter(modes, Ask(h, p))) <==> Considerate(w, modes, Ask(h, p))
  {
    var b, mode := w.BlockOf(h), ModeIn(modes, p.s);
    NeverInvalid(w);
    BlocksAreCounted(w);
    AskIsLocal(w, modes, h, p);
    assert AllAgree(w, b, mode) by {
      forall g | g in w.views && w.views[g].block == b ensures Agree(mode, w.views[g].state) {
        assert ViewAgrees(w.views[g], modes);
      }
    }
    hide World.Good, World.Counted, Modes.Legal, NonBlockingMode, Agreeing;
    if ChangedMode(p) {
      RequestKeepsAllAgreeingIff(w, h, p, mode);
    } else {
      OnlyRequestsChangeModes(p);
      QuietStep(p, mode);
      OpenStepKeepsAgreement(p, mode);
    }
  }

  lemma OnlyRequestsChangeModes(p: Modes.Step)
    requires Modes.Legal(p) && !p.call.CloseSocket? && !ChangedMode(p)
    ensures !SetsMode(p)
  {
  }

  /** One stage keeps all words and modes in agreement if and only if it is considerate. */
  lemma StageKeepsAgreeingIff(w: World, modes: map<Socket, bool>, m: Stage)
    requires w.Good() && Agreeing(w, modes) && Fits(w, m) && Possible(w, ActionOf(m))
    ensures Agreeing(After(w, ActionOf(m)), ModesAfter(modes, m)) <==> Considerate(w, modes, m)
  {
    hide World.Good, Agreeing, Fits;
    match m
    case Act(a) => ActKeepsAgreeing(w, modes, a);
    case Ask(h, p) => AskKeepsAgreeingIff(w, modes, h, p);
  }

  // --------------------------------------------------------------------- runs

  ghost predicate Run(w: World, modes: map<Socket, bool>, run: seq<Stage>)
    decreases |run|
  {
    run == []
    || (var m, a := run[0], ActionOf(run[0]);
        && Fits(w, m) && Possible(w, a) && Safe(w, a) && Considerate(w, modes, m)
        && Run(After(w, a), ModesAfter(modes, m), run[1..]))
  }

  ghost function LastWorld(w: World, modes: map<Socket, bool>, run: seq<Stage>): World
    requires Run(w, modes, run)
    decreases |run|
  {
    if run == [] then w else LastWorld(After(w, ActionOf(run[0])), ModesAfter(modes, run[0]), run[1..])
  }

  ghost function LastModes(w: World, modes: map<Socket, bool>, run: seq<Stage>): map<Socket, bool>
    requires Run(w, modes, run)
    decreases |run|
  {
    if run == [] then modes else LastModes(After(w, ActionOf(run[0])), ModesAfter(modes, run[0]), run[1..])
  }

  /** If every request that changes a mode is made by a sole owner, then over any run of any handles, copied,
      moved, opened, accepted, closed and destroyed, every handle's word agrees with the kernel. */
  lemma {:induction false} RunKeepsAgreeing(w: World, modes: map<Socket, bool>, run: seq<Stage>)
    requires w.Good() && Agreeing(w, modes) && Run(w, modes, run)
    ensures LastWorld(w, modes, run).Good()
    ensures Agreeing(LastWorld(w, modes, run), LastModes(w, modes, run))
    decreases |run|
  {
    hide World.Good, After, Possible, Safe, Fits, Considerate, Agreeing, ActionOf, ModesAfter;
    if run != [] {
      ActionKeepsGoodIff(w, ActionOf(run[0]));
      StageKeepsAgreeingIff(w, modes, run[0]);
      RunKeepsAgreeing(After(w, ActionOf(run[0])), ModesAfter(modes, run[0]), run[1..]);
    }
  }
}
