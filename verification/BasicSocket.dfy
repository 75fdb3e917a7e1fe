/**
 Sharing one descriptor among handles (NetLite/basic_socket.hpp). A `World` is all
 the handles of a program at once. `World.Good` says that the reference counts
 are right, that they are what keeps descriptors open, and that every handle
 knows whether it is open and how its descriptor is oriented. The effect of each
 operation on all the handles together is a function of `World`.
 */
module BasicSockets {
  import opened Kernels
  import opened SocketState
  import opened ModeRuns
  import Accepts

  datatype SocketKind = SockStream | SockDgram | OtherKind

  datatype Protocol = Protocol(kind: SocketKind, family: int)

  /** The state word a newly opened socket starts with. */
  function InitialState(kind: SocketKind): StateWord {
    match kind
    case SockStream => STREAM_ORIENTED
    case SockDgram => DATAGRAM_ORIENTED
    case OtherKind => 0
  }

  /** The state word of a handle that was given a native descriptor. */
  function AssignedState(kind: SocketKind): StateWord {
    SetFlags(InitialState(kind), POSSIBLE_DUP)
  }

  /** What a shared pointer points to: the descriptor, and the number of pointers to it. */
  class SharedSocket {
    const fd: Socket
    ghost const kind: SocketKind
    var useCount: nat

    constructor (fd: Socket, ghost kind: SocketKind)
      ensures this.fd == fd && this.kind == kind && useCount == 0
    {
      this.fd, this.kind, useCount := fd, kind, 0;
    }
  }

  // ------------------------------------------------- all handles as one value

  datatype View = View(block: SharedSocket?, isOpen: bool, state: StateWord)
  {
    /** A handle is open exactly if it holds a descriptor, and then knows its orientation. */
    ghost predicate Informed() {
      && (isOpen <==> block != null)
      && (block != null ==> state & ORIENTATION == InitialState(block.kind) & ORIENTATION)
    }
  }

  /** The counts after one pointer is changed from `was` to `b`; a block goes with its last pointer. */
  ghost function Repointed(counts: map<SharedSocket, nat>, was: SharedSocket?, b: SharedSocket?)
    : map<SharedSocket, nat>
  {
    if was == b then counts
    else
      var up := if b == null then counts else counts[b := (if b in counts then counts[b] else 0) + 1];
      if was == null || was !in up then up
      else if up[was] <= 1 then up - {was}
      else up[was := up[was] - 1]
  }

  /** The handles that exist, the counts of the blocks they point to, and the kernel's open descriptors. */
  datatype World = World(views: map<BasicSocket, View>, counts: map<SharedSocket, nat>, open: set<Socket>)
  {
    ghost function Holders(b: SharedSocket): set<BasicSocket> {
      set h | h in views && views[h].block == b
    }

    ghost predicate Held(b: SharedSocket) {
      exists h :: h in views && views[h].block == b
    }

    /** Counts are kept for the blocks that are held, and each is the number of its holders. */
    ghost predicate Counted() {
      && (forall h :: h in views && views[h].block != null ==> views[h].block in counts)
      && (forall b :: b in counts ==> Held(b) && counts[b] == |Holders(b)|)
    }

    /** The held blocks are exactly the open descriptors, each held in one block. */
    ghost predicate KeepsOpen() {
      && (forall b :: b in counts ==> b.fd in open)
      && (forall fd :: fd in open ==> exists b :: b in counts && b.fd == fd)
      && (forall b, c :: b in counts && c in counts && b.fd == c.fd ==> b == c)
      && INVALID_SOCKET !in open
    }

    /** Every handle knows whether it is open. */
    ghost predicate Informed() {
      forall h :: h in views ==> views[h].Informed()
    }

    ghost predicate Good() {
      Counted() && KeepsOpen() && Informed()
    }

    ghost function BlockOf(h: BasicSocket): SharedSocket? {
      if h in views then views[h].block else null
    }

    /** The handle is the only one that holds its descriptor. */
    ghost predicate SoleOwner(h: BasicSocket) {
      var b := BlockOf(h);
      b != null && b in counts && counts[b] == 1
    }

    /** The handle `h`, new or not, looks like `v` from now on. */
    ghost function Repoint(h: BasicSocket, v: View): World {
      World(views[h := v], Repointed(counts, BlockOf(h), v.block), open)
    }

    /** The handle becomes a copy of `other`, letting go of what it held. */
    ghost function Copied(h: BasicSocket, other: BasicSocket): World
      requires other in views
    {
      Repoint(h, views[other])
    }

    /** The handle lets go of its block. */
    ghost function LetGo(h: BasicSocket): World
      requires h in views
    {
      Repoint(h, View(null, false, views[h].state))
    }

    /** The handle takes over from `other`, letting go of what it held; moved onto itself, a handle
        only forgets that it is open. */
    ghost function Moved(h: BasicSocket, other: BasicSocket): World
      requires other in views
    {
      var v := views[other];
      if h == other then this.(views := views[h := View(v.block, false, v.state)])
      else World(views[other := View(null, false, v.state)][h := v],
                 Repointed(counts, BlockOf(h), null), open)
    }

    /** The handle gets the descriptor of a new block, letting go of what it held. */
    ghost function Holding(h: BasicSocket, b: SharedSocket, state: StateWord): World {
      Repoint(h, View(b, true, state)).(open := open + {b.fd})
    }

    ghost function Opened(h: BasicSocket, b: SharedSocket): World {
      Holding(h, b, InitialState(b.kind))
    }

    /** A new handle gets the descriptor of an accepted connection. */
    ghost function Accepted(h: BasicSocket, b: SharedSocket): World {
      Holding(h, b, AssignedState(b.kind))
    }

    /** What a failed `accept` returns: a new handle that holds a block without a descriptor, and whose
        open flag is not initialised. */
    ghost function AcceptFailed(h: BasicSocket, b: SharedSocket, isOpen: bool): World {
      Repoint(h, View(b, isOpen, AssignedState(b.kind)))
    }

    /** What a failed `open` leaves: a handle that holds a block without a descriptor. */
    ghost function OpenFailed(h: BasicSocket, b: SharedSocket): World
      requires h in views
    {
      Repoint(h, View(b, views[h].isOpen, InitialState(b.kind)))
    }

    /** The handle's state word changes. */
    ghost function Tuned(h: BasicSocket, state: StateWord): World
      requires h in views
    {
      this.(views := views[h := views[h].(state := state)])
    }

    /** The kernel closes a descriptor. */
    ghost function KernelClosed(fd: Socket): World {
      this.(open := open - {fd})
    }

    /** The handle ceases to exist. */
    ghost function Without(h: BasicSocket): World {
      this.(views := views - {h})
    }

    /** The handle is destroyed, and takes the descriptor with it if it was the last. */
    ghost function Destroyed(h: BasicSocket): World
      requires h in views
    {
      (if SoleOwner(h) then KernelClosed(views[h].block.fd) else this).LetGo(h).Without(h)
    }
  }

  // ------------------------------------------------- what changes, and what not

  /** A copy looks like the original; no descriptor opens or closes. */
  lemma CopiedMeans(w: World, h: BasicSocket, other: BasicSocket)
    requires other in w.views
    ensures w.Copied(h, other).views == w.views[h := w.views[other]] && w.Copied(h, other).open == w.open
  {
  }

  /** A handle that takes over looks as the other did, and the other holds nothing and is not open. */
  lemma MovedMeans(w: World, h: BasicSocket, other: BasicSocket)
    requires other in w.views
    ensures var v, w' := w.views[other], w.Moved(h, other);
            && w'.open == w.open && w'.views.Keys == w.views.Keys + {h}
            && (forall g :: g in w.views && g != h && g != other ==> w'.views[g] == w.views[g])
            && if h == other then w'.views[h] == View(v.block, false, v.state)
               else w'.views[h] == v && w'.views[other] == View(null, false, v.state)
  {
  }

  lemma LetGoMeans(w: World, h: BasicSocket)
    requires h in w.views
    ensures w.LetGo(h).views == w.views[h := View(null, false, w.views[h].state)] && w.LetGo(h).open == w.open
  {
  }

  /** Opening and accepting give an open handle, the block, the starting word and the descriptor; failing gives
      a handle on the block that is as open as before, or for `accept` as the memory happened to say. */
  lemma OpenedMeans(w: World, h: BasicSocket, b: SharedSocket, isOpen: bool)
    ensures w.Opened(h, b).views == w.views[h := View(b, true, InitialState(b.kind))]
    ensures w.Opened(h, b).open == w.open + {b.fd}
    ensures w.Accepted(h, b).views == w.views[h := View(b, true, InitialState(b.kind) | 64)]
    ensures w.Accepted(h, b).open == w.open + {b.fd}
    ensures h in w.views ==>
              && w.OpenFailed(h, b).views == w.views[h := View(b, w.views[h].isOpen, InitialState(b.kind))]
              && w.OpenFailed(h, b).open == w.open
    ensures w.AcceptFailed(h, b, isOpen).views == w.views[h := View(b, isOpen, InitialState(b.kind) | 64)]
    ensures w.AcceptFailed(h, b, isOpen).open == w.open
  {
  }

  /** Destroying takes the handle, and the descriptor exactly if nobody else counts on it. */
  lemma DestroyedMeans(w: World, h: BasicSocket)
    requires h in w.views
    ensures w.Destroyed(h).views == w.views - {h}
    ensures var b := w.BlockOf(h);
            w.Destroyed(h).open == w.open - if b != null && b in w.counts && w.counts[b] == 1 then {b.fd} else {}
  {
  }

  lemma DifferInOne<T>(a: set<T>, b: set<T>, x: T)
    requires a - {x} == b - {x}
    ensures |b| == |a| + (if x in b then 1 else 0) - (if x in a then 1 else 0)
  {
    assert |a - {x}| == |a| - if x in a then 1 else 0;
    assert |b - {x}| == |b| - if x in b then 1 else 0;
  }

  /** If only the handle `h` changes, the number of holders of a block changes by whether `h` holds it. */
  lemma CountMatchesHolders(w: World, w': World, b: SharedSocket, h: BasicSocket)
    requires forall g :: g != h ==> (g in w'.views <==> g in w.views)
    requires forall g :: g != h && g in w.views ==> w'.views[g].block == w.views[g].block
    ensures |w'.Holders(b)| == |w.Holders(b)|
                               + (if h in w'.views && w'.views[h].block == b then 1 else 0)
                               - (if h in w.views && w.views[h].block == b then 1 else 0)
  {
    var before, after := w.Holders(b), w'.Holders(b);
    assert before - {h} == after - {h};
    assert h in before <==> h in w.views && w.views[h].block == b;
    assert h in after <==> h in w'.views && w'.views[h].block == b;
    hide World.Holders;
    DifferInOne(before, after, h);
  }

  lemma HeldIffHolders(w: World, b: SharedSocket)
    ensures w.Held(b) <==> |w.Holders(b)| > 0
  {
    if w.Held(b) {
      var h :| h in w.views && w.views[h].block == b;
      assert h in w.Holders(b);
    } else {
      assert w.Holders(b) == {};
    }
  }

  /** A handle that changes what it holds keeps every count right if the counts follow. */
  lemma RecountKeepsCounted(w: World, w': World, h: BasicSocket)
    requires w.Counted() && h in w'.views
    requires forall g :: g != h ==> (g in w'.views <==> g in w.views)
    requires forall g :: g != h && g in w.views ==> w'.views[g].block == w.views[g].block
    requires forall g :: g in w'.views && w'.views[g].block != null ==> w'.views[g].block in w'.counts
    requires forall b :: b in w'.counts ==>
               w'.counts[b] > 0 &&
               w'.counts[b] + (if h in w.views && w.views[h].block == b then 1 else 0) ==
               (if b in w.counts then w.counts[b] else 0) + (if w'.views[h].block == b then 1 else 0)
    ensures w'.Counted()
  {
    hide World.Holders, World.Held;
    forall b | b in w'.counts ensures w'.Held(b) && w'.counts[b] == |w'.Holders(b)| {
      CountMatchesHolders(w, w', b, h);
      HeldIffHolders(w, b);
      HeldIffHolders(w', b);
      if b !in w.counts && w.Held(b) {
        HeldInCounts(w, b);
      }
    }
  }

  lemma HeldInCounts(w: World, b: SharedSocket)
    requires w.Counted() && w.Held(b)
    ensures b in w.counts
  {
  }

  lemma PositiveCount(w: World, b: SharedSocket)
    requires w.Counted() && b in w.counts
    ensures w.counts[b] > 0
  {
    HeldIffHolders(w, b);
  }

  /** A block with count one has no other holder. */
  lemma SoleHolder(w: World, h: BasicSocket, b: SharedSocket)
    requires w.Counted() && h in w.views && w.views[h].block == b && w.counts[b] == 1
    ensures forall g :: g in w.views && w.views[g].block == b ==> g == h
  {
    assert h in w.Holders(b);
    assert |w.Holders(b) - {h}| == 0;
    forall g | g in w.views && w.views[g].block == b ensures g == h {
      assert g in w.Holders(b) && g !in w.Holders(b) - {h};
    }
  }

  /** Pointing one handle elsewhere keeps every count right. */
  lemma RepointKeepsCounted(w: World, h: BasicSocket, v: View)
    requires w.Counted()
    ensures w.Repoint(h, v).Counted()
  {
    hide World.Holders, World.Held;
    var w', b := w.Repoint(h, v), w.BlockOf(h);
    forall c | c in w.counts ensures w.counts[c] > 0 {
      PositiveCount(w, c);
    }
    if w.SoleOwner(h) {
      SoleHolder(w, h, b);
    }
    RecountKeepsCounted(w, w', h);
  }

  /** The blocks that are held afterwards. */
  lemma RepointKeys(w: World, h: BasicSocket, v: View)
    requires w.Counted()
    ensures w.Repoint(h, v).counts.Keys ==
            w.counts.Keys
            - (if w.SoleOwner(h) && v.block != w.BlockOf(h) then {w.BlockOf(h)} else {})
            + (if v.block == null then {} else {v.block})
  {
    hide World.Holders, World.Held;
    var b := w.BlockOf(h);
    if b != null {
      PositiveCount(w, b);
    }
  }

  lemma SameViewsSameCounted(w: World, w': World)
    requires w.Counted() && w'.views == w.views && w'.counts == w.counts
    ensures w'.Counted()
  {
    forall b | b in w.counts ensures w'.Holders(b) == w.Holders(b) && w'.Held(b) {
      var h :| h in w.views && w.views[h].block == b;
    }
  }

  /** Giving up a descriptor that stays open and that nobody else holds is wrong. */
  lemma OrphanIsBad(w: World, w': World, b: SharedSocket)
    requires w.KeepsOpen() && b in w.counts && b !in w'.counts
    requires w'.counts.Keys <= w.counts.Keys && w.open <= w'.open
    ensures !w'.KeepsOpen()
  {
  }

  lemma SameBlocksKeepOpen(w: World, w': World)
    requires w.KeepsOpen() && w'.counts.Keys == w.counts.Keys && w'.open == w.open
    ensures w'.KeepsOpen()
  {
    forall fd | fd in w'.open ensures exists b :: b in w'.counts && b.fd == fd {
      var b :| b in w.counts && b.fd == fd;
      assert b in w'.counts;
    }
  }

  lemma SameKeepsOpenIff(w: World, w': World)
    requires w'.counts == w.counts && w'.open == w.open
    ensures w'.KeepsOpen() <==> w.KeepsOpen()
  {
  }

  lemma OneLessKeepsOpen(w: World, w': World, b: SharedSocket)
    requires w.KeepsOpen() && b in w.counts && w'.counts.Keys == w.counts.Keys - {b} && w'.open == w.open - {b.fd}
    ensures w'.KeepsOpen()
  {
    forall fd | fd in w'.open ensures exists c :: c in w'.counts && c.fd == fd {
      var c :| c in w.counts && c.fd == fd;
      assert c in w'.counts;
    }
  }

  lemma OneMoreKeepsOpen(w: World, w': World, b: SharedSocket)
    requires w.KeepsOpen() && b.fd !in w.open && b.fd != INVALID_SOCKET
    requires w'.counts.Keys == w.counts.Keys + {b} && w'.open == w.open + {b.fd}
    ensures w'.KeepsOpen()
  {
    assert b in w'.counts;
    forall fd | fd in w'.open && fd != b.fd ensures exists c :: c in w'.counts && c.fd == fd {
      var c :| c in w.counts && c.fd == fd;
      assert c in w'.counts;
    }
    assert forall c :: c in w.counts ==> c.fd in w.open;
  }

  /** Pointing a handle elsewhere is right exactly if it keeps the right descriptors open. */
  lemma RepointIsGoodIff(w: World, h: BasicSocket, v: View, w': World)
    requires w.Good() && v.Informed() && w' == w.Repoint(h, v).(open := w'.open)
    ensures w.KeepsOpen() && (w'.Good() <==> w'.KeepsOpen())
    ensures w'.counts.Keys ==
            w.counts.Keys
            - (if w.SoleOwner(h) && v.block != w.BlockOf(h) then {w.BlockOf(h)} else {})
            + (if v.block == null then {} else {v.block})
    ensures w.BlockOf(h) != null ==> w.BlockOf(h) in w.counts
  {
    hide World.Holders, World.Held, World.KeepsOpen, View.Informed;
    RepointKeepsCounted(w, h, v);
    RepointKeys(w, h, v);
    SameViewsSameCounted(w.Repoint(h, v), w');
  }

  lemma BlockIsCounted(w: World, h: BasicSocket)
    requires w.Counted() && w.BlockOf(h) != null
    ensures w.BlockOf(h) in w.counts
  {
  }

  /** Copying, by construction or assignment, is right exactly unless the handle was the sole owner of
      a descriptor that it gives up. */
  lemma CopyKeepsGoodIff(w: World, h: BasicSocket, other: BasicSocket)
    requires w.Good() && other in w.views
    ensures w.Copied(h, other).Good() <==> h == other || !w.SoleOwner(h)
  {
    var w', v := w.Copied(h, other), w.views[other];
    RepointIsGoodIff(w, h, v, w');
    if v.block != null {
      BlockIsCounted(w, other);
    }
    if w.SoleOwner(h) && h != other {
      SoleHolder(w, h, w.BlockOf(h));
    }
    hide World.Good, World.KeepsOpen, Repointed;
    if w.SoleOwner(h) && h != other {
      OrphanIsBad(w, w', w.BlockOf(h));
    } else {
      SameBlocksKeepOpen(w, w');
    }
  }

  lemma GivingUpIsGoodIff(w: World, h: BasicSocket, state: StateWord)
    requires w.Good()
    ensures w.Repoint(h, View(null, false, state)).Good() <==> !w.SoleOwner(h)
  {
    hide World.Good, World.KeepsOpen, World.Held, World.Holders, Repointed;
    var v := View(null, false, state);
    var w' := w.Repoint(h, v);
    RepointIsGoodIff(w, h, v, w');
    if w.SoleOwner(h) {
      OrphanIsBad(w, w', w.BlockOf(h));
    } else {
      SameBlocksKeepOpen(w, w');
    }
  }

  /** Letting go without closing is right exactly unless the handle was the only one to hold its
      descriptor: then the descriptor stays open with nobody to close it. */
  lemma LetGoKeepsGoodIff(w: World, h: BasicSocket)
    requires w.Good() && h in w.views
    ensures w.LetGo(h).Good() <==> !w.SoleOwner(h)
  {
    hide World.Good;
    GivingUpIsGoodIff(w, h, w.views[h].state);
  }

  /** Closing the descriptor and letting go is right exactly for the sole owner: otherwise another handle
      is left holding a closed descriptor. */
  lemma CloseKeepsGoodIff(w: World, h: BasicSocket)
    requires w.Good() && h in w.views && w.views[h].block != null
    ensures w.KernelClosed(w.views[h].block.fd).LetGo(h).Good() <==> w.SoleOwner(h)
  {
    var b, v := w.views[h].block, View(null, false, w.views[h].state);
    var w' := w.KernelClosed(b.fd).LetGo(h);
    RepointIsGoodIff(w, h, v, w');
    hide World.Good, World.KeepsOpen, Repointed;
    if w.SoleOwner(h) {
      OneLessKeepsOpen(w, w', b);
    } else {
      ClosedButHeldIsBad(w', b);
    }
  }

  lemma ClosedButHeldIsBad(w: World, b: SharedSocket)
    requires b in w.counts && b.fd !in w.open
    ensures !w.KeepsOpen()
  {
  }

  lemma HoldingIsGoodIff(w: World, h: BasicSocket, b: SharedSocket, state: StateWord)
    requires w.Good() && b !in w.counts && b.fd !in w.open && b.fd != INVALID_SOCKET
    requires state & ORIENTATION == InitialState(b.kind) & ORIENTATION
    ensures w.Holding(h, b, state).Good() <==> !w.SoleOwner(h)
  {
    var w', v := w.Holding(h, b, state), View(b, true, state);
    RepointIsGoodIff(w, h, v, w');
    hide World.Counted, World.Informed, Repointed;
    if w.SoleOwner(h) {
      assert w.BlockOf(h).fd in w'.open && w.BlockOf(h) !in w'.counts;
      assert forall c :: c in w'.counts ==> c.fd != w.BlockOf(h).fd;
    } else {
      OneMoreKeepsOpen(w, w', b);
    }
  }

  /** Opening is right exactly unless the handle was the sole owner of another descriptor. */
  lemma OpenKeepsGoodIff(w: World, h: BasicSocket, b: SharedSocket)
    requires w.Good() && b !in w.counts && b.fd !in w.open && b.fd != INVALID_SOCKET
    ensures w.Opened(h, b).Good() <==> !w.SoleOwner(h)
  {
    hide World.Good, World.Holding;
    HoldingIsGoodIff(w, h, b, InitialState(b.kind));
  }

  /** Accepting into a new handle is always right. */
  lemma AcceptKeepsGood(w: World, h: BasicSocket, b: SharedSocket)
    requires w.Good() && h !in w.views && b !in w.counts && b.fd !in w.open && b.fd != INVALID_SOCKET
    ensures w.Accepted(h, b).Good()
  {
    hide World.Good, World.Holding;
    assert AssignedState(b.kind) & ORIENTATION == InitialState(b.kind) & ORIENTATION;
    HoldingIsGoodIff(w, h, b, AssignedState(b.kind));
  }

  /** A handle of a block without a descriptor is its sole owner and never right. */
  lemma HoldingNothingIsBad(w: World, h: BasicSocket, v: View)
    requires w.Good() && v.block != null && v.block !in w.counts && v.block.fd == INVALID_SOCKET
    ensures w.Repoint(h, v).Counted() && w.Repoint(h, v).SoleOwner(h)
    ensures !w.Repoint(h, v).Good()
  {
    var w' := w.Repoint(h, v);
    RepointKeepsCounted(w, h, v);
    assert w'.SoleOwner(h);
    hide World.Counted;
    ClosedButHeldIsBad(w', v.block);
  }

  /** A failed `open` always leaves a handle with a block but no descriptor. */
  lemma FailedOpenIsBad(w: World, h: BasicSocket, b: SharedSocket)
    requires w.Good() && h in w.views && b !in w.counts && b.fd == INVALID_SOCKET
    ensures w.OpenFailed(h, b).Counted() && w.OpenFailed(h, b).SoleOwner(h)
    ensures !w.OpenFailed(h, b).Good()
  {
    hide World.Good, World.Counted, World.SoleOwner, Repointed;
    HoldingNothingIsBad(w, h, View(b, w.views[h].isOpen, InitialState(b.kind)));
  }

  /** So does a failed `accept`, whatever its open flag happens to be; without that handle all would be right. */
  lemma FailedAcceptIsBad(w: World, h: BasicSocket, b: SharedSocket, isOpen: bool)
    requires w.Good() && h !in w.views && b !in w.counts && b.fd == INVALID_SOCKET
    ensures var w' := w.AcceptFailed(h, b, isOpen);
            w'.Counted() && w'.SoleOwner(h) && !w'.Good() && w'.LetGo(h).Without(h) == w
  {
    var v := View(b, isOpen, AssignedState(b.kind));
    var w' := w.AcceptFailed(h, b, isOpen);
    assert w'.LetGo(h).Without(h) == w;
    hide World.Good, World.Counted, World.SoleOwner, World.LetGo, World.Without, Repointed;
    HoldingNothingIsBad(w, h, v);
  }

  lemma RepointTwice(counts: map<SharedSocket, nat>, was: SharedSocket?, b: SharedSocket)
    requires b !in counts && was != b
    ensures Repointed(Repointed(counts, was, b), b, null) == Repointed(counts, was, null)
  {
  }

  /** Closing the handle repairs that, exactly unless it had been a sole owner before the `open`. */
  lemma FailedOpenIsRepairedByCloseIff(w: World, h: BasicSocket, b: SharedSocket)
    requires w.Good() && h in w.views && b !in w.counts && b.fd == INVALID_SOCKET
    ensures w.OpenFailed(h, b).LetGo(h).Good() <==> !w.SoleOwner(h)
  {
    var w2, v2 := w.OpenFailed(h, b).LetGo(h), View(null, false, InitialState(b.kind));
    if w.BlockOf(h) != null {
      BlockIsCounted(w, h);
    }
    RepointTwice(w.counts, w.BlockOf(h), b);
    hide World.Good, Repointed;
    assert w2 == w.Repoint(h, v2);
    GivingUpIsGoodIff(w, h, InitialState(b.kind));
  }

  /** A handle that holds nothing takes over from another: the number of holders stays the same. */
  lemma TakeOverKeepsCounted(w: World, w': World, h: BasicSocket, other: BasicSocket)
    requires w.Counted() && h in w.views && other in w.views && h != other && w.views[h].block == null
    requires w'.counts == w.counts && w'.views.Keys == w.views.Keys
    requires w'.views[h].block == w.views[other].block && w'.views[other].block == null
    requires forall g :: g in w.views && g != h && g != other ==> w'.views[g].block == w.views[g].block
    ensures w'.Counted()
  {
    hide World.Holders, World.Held;
    var mid := w.(views := w.views[other := View(null, false, 0)]);
    forall b | b in w.counts ensures w'.Held(b) && w'.counts[b] == |w'.Holders(b)| {
      CountMatchesHolders(w, mid, b, other);
      CountMatchesHolders(mid, w', b, h);
      HeldIffHolders(w, b);
      HeldIffHolders(w', b);
    }
  }

  /** Moving is right exactly unless the handle gives up a descriptor it was the sole owner of, or moves
      a descriptor onto itself. */
  lemma MoveKeepsGoodIff(w: World, h: BasicSocket, other: BasicSocket)
    requires w.Good() && other in w.views
    ensures w.Moved(h, other).Good() <==> !w.SoleOwner(h) && (h != other || w.BlockOf(h) == null)
  {
    if h == other {
      SelfMoveIsGoodIff(w, h);
    } else {
      MoveFromOtherIsGoodIff(w, h, other);
    }
  }

  lemma MoveFromOtherIsGoodIff(w: World, h: BasicSocket, other: BasicSocket)
    requires w.Good() && other in w.views && h != other
    ensures w.Moved(h, other).Good() <==> !w.SoleOwner(h)
  {
    var w1, w' := w.Repoint(h, View(null, false, 0)), w.Moved(h, other);
    GivingUpIsGoodIff(w, h, 0);
    RepointKeepsCounted(w, h, View(null, false, 0));
    TakeOverKeepsCounted(w1, w', h, other);
    hide World.Counted, Repointed;
    SameKeepsOpenIff(w1, w');
  }

  lemma SelfMoveIsGoodIff(w: World, h: BasicSocket)
    requires w.Good() && h in w.views
    ensures w.Moved(h, h).Good() <==> w.BlockOf(h) == null
  {
    var w' := w.Moved(h, h);
    if w.BlockOf(h) == null {
      assert w'.views == w.views;
    } else {
      assert !w'.views[h].Informed();
    }
  }

  /** An empty handle can disappear unnoticed. */
  lemma RemoveKeepsGood(w: World, h: BasicSocket)
    requires w.Good() && h in w.views && w.views[h].block == null
    ensures w.Without(h).Good()
  {
    var w' := w.Without(h);
    forall b | b in w'.counts ensures w'.Held(b) && w'.Holders(b) == w.Holders(b) {
      assert w.Held(b);
      var g :| g in w.views && w.views[g].block == b;
      assert g in w'.views;
    }
  }

  /** A change of the state word is right exactly if it leaves the orientation, or the handle is empty. */
  lemma TunedKeepsGoodIff(w: World, h: BasicSocket, state: StateWord)
    requires w.Good() && h in w.views
    ensures w.Tuned(h, state).Good() <==>
            w.views[h].block == null || state & ORIENTATION == w.views[h].state & ORIENTATION
  {
    var w' := w.Tuned(h, state);
    TunedKeepsCounted(w, w', h, state);
    SameBlocksKeepOpen(w, w');
    hide World.Counted, World.KeepsOpen;
    assert w'.views[h].Informed() <==>
           w.views[h].block == null || state & ORIENTATION == w.views[h].state & ORIENTATION;
  }

  /** Destroying any handle is right. */
  lemma DestroyKeepsGood(w: World, h: BasicSocket)
    requires w.Good() && h in w.views
    ensures w.Destroyed(h).Good() && h !in w.Destroyed(h).views
  {
    var w1 := (if w.SoleOwner(h) then w.KernelClosed(w.views[h].block.fd) else w).LetGo(h);
    assert w1.Good() by {
      LetGoKeepsGoodIff(w, h);
      if w.SoleOwner(h) {
        CloseKeepsGoodIff(w, h);
      }
    }
    hide World.Good, Repointed;
    RemoveKeepsGood(w1, h);
  }

  /** When the last handle is gone every descriptor has been closed. */
  lemma NoHandlesNoDescriptors(w: World)
    requires w.Good() && w.views == map[]
    ensures w.open == {}
  {
    forall b ensures b !in w.counts {
      assert !w.Held(b);
    }
    assert forall fd :: fd !in w.open;
  }

  /** No live handle refers to a closed descriptor, and handles of one descriptor agree about it. */
  lemma GoodMeans(w: World, h: BasicSocket, g: BasicSocket)
    requires w.Good() && h in w.views && g in w.views
    ensures w.views[h].isOpen <==> w.views[h].block != null
    ensures w.views[h].isOpen ==> w.views[h].block.fd in w.open
    ensures w.views[h].isOpen && w.views[g].isOpen && w.views[h].block.fd == w.views[g].block.fd ==>
              && w.views[h].block == w.views[g].block
              && w.views[h].state & ORIENTATION == w.views[g].state & ORIENTATION
  {
  }

  // ------------------------------------------------------------- the handles

  /** The world as it is now: the fields of every handle, the counters, and the kernel's descriptors. */
  ghost predicate Shows(k: Kernel, w: World)
    reads k, w.views.Keys, w.counts.Keys
  {
    && (forall h :: h in w.views ==> w.views[h] == View(h.shared, h.isOpen, h.state))
    && (forall b :: b in w.counts ==> w.counts[b] == b.useCount)
    && w.open == k.open
  }

  /** The counts know the blocks that handles point to. */
  ghost predicate Knows(counts: map<SharedSocket, nat>, b: SharedSocket?) {
    b != null ==> b in counts && counts[b] > 0
  }

  lemma KnowsBlocks(w: World, h: BasicSocket)
    requires w.Counted()
    ensures Knows(w.counts, w.BlockOf(h))
  {
    hide World.Holders, World.Held;
    if w.BlockOf(h) != null {
      PositiveCount(w, w.BlockOf(h));
    }
  }

  method NewDescriptor(k: Kernel) returns (fd: Socket, ec: Errc, ghost e: Event)
    modifies k
    ensures e.op == SocketCall && k.trace == old(k.trace) + [e]
    ensures fd == e.result && ec == (if e.result >= 0 then NoError else e.errno)
    ensures ec == NoError ==> fd >= 0 && fd !in old(k.open) && k.open == old(k.open) + {fd}
    ensures ec != NoError ==> fd == INVALID_SOCKET && k.open == old(k.open)
  {
    var answer := k.Call(SocketCall);
    return answer.result, ErrorOf(answer), answer;
  }

  lemma ShowsMeans(k: Kernel, w: World)
    requires Shows(k, w)
    ensures forall h :: h in w.views ==> w.views[h] == View(h.shared, h.isOpen, h.state)
    ensures forall b :: b in w.counts ==> w.counts[b] == b.useCount
    ensures w.open == k.open
  {
  }

  /** If one handle now looks like `v`, the others are as they were, and the counters followed, then
      the world now is `w` with that handle repointed. */
  lemma NowRepointed(k: Kernel, w: World, h: BasicSocket, v: View)
    requires v == View(h.shared, h.isOpen, h.state)
    requires forall g :: g in w.views && g != h ==> w.views[g] == View(g.shared, g.isOpen, g.state)
    requires var after := Repointed(w.counts, w.BlockOf(h), v.block);
             forall c :: c in after ==> after[c] == c.useCount
    ensures Shows(k, w.Repoint(h, v).(open := k.open))
  {
  }

  /** The same when the handle took over from another. */
  lemma NowMoved(k: Kernel, w: World, h: BasicSocket, other: BasicSocket)
    requires other in w.views && h != other
    requires w.views[other] == View(h.shared, h.isOpen, h.state)
    requires other.shared == null && !other.isOpen && other.state == w.views[other].state
    requires forall g :: g in w.views && g != h && g != other ==> w.views[g] == View(g.shared, g.isOpen, g.state)
    requires var after := Repointed(w.counts, w.BlockOf(h), null);
             forall c :: c in after ==> after[c] == c.useCount
    ensures Shows(k, w.Moved(h, other).(open := k.open))
  {
  }

  /** A handle that has let go, whether or not it closed its descriptor first, can disappear. */
  lemma NowDestroyed(k: Kernel, w: World, h: BasicSocket, state: StateWord)
    requires h in w.views
    requires Shows(k, (if w.SoleOwner(h) then w.Tuned(h, state).KernelClosed(w.views[h].block.fd) else w).LetGo(h))
    ensures Shows(k, w.Destroyed(h))
  {
  }

  /** The calls of a sole owner's destructor: a shutdown, and unless that failed for another reason than not
      being connected, a close; either error is thrown. Without a descriptor the shutdown is refused. */
  ghost predicate DestructorCalls(s: Socket, thrown: Errc, shut: seq<Event>, p: Modes.Step) {
    if s == INVALID_SOCKET then thrown == BadFileDescriptor && shut == [] && p.events == []
    else
      && |shut| == 1 && shut[0].op == ShutdownCall(s, ShutdownBoth)
      && if ErrorOf(shut[0]) == NoError || ErrorOf(shut[0]) == NotConnected then
           && Modes.Legal(p) && p.s == s && p.call == Modes.CloseSocket(false) && thrown == p.ec
           && (thrown == NoError <==> p.result == 0)
         else p.events == [] && thrown == ErrorOf(shut[0])
  }

  /** Step by step: the shutdown is of both directions; that the socket was not connected is no error, and then
      as after success the descriptor is closed and only an error of that is thrown. */
  lemma DestructorStepByStep(s: Socket, thrown: Errc, shut: seq<Event>, p: Modes.Step)
    requires DestructorCalls(s, thrown, shut, p)
    ensures s == -1 ==> thrown == BadFileDescriptor && shut == [] && p.events == []
    ensures s != -1 ==> |shut| == 1 && shut[0].op == ShutdownCall(s, ShutdownBoth)
    ensures s != -1 && (shut[0].result >= 0 || shut[0].errno == NotConnected) ==>
              && p.events != [] && p.events[0].op == CloseCall(s)
              && thrown == p.ec && (thrown == NoError <==> p.result == 0)
    ensures s != -1 && shut[0].result < 0 && shut[0].errno != NotConnected && shut[0].errno != NoError ==>
              p.events == [] && thrown == shut[0].errno
  {
    if s != INVALID_SOCKET && (shut[0].result >= 0 || shut[0].errno == NotConnected) {
      Modes.ClosingStepByStep(p);
    }
  }

  /** The state words handles start with: the stream bit (16) or the datagram bit (32) and, with a native
      descriptor, the bit that it may be shared (64). */
  lemma StartingWords()
    ensures InitialState(SockStream) == 16 && InitialState(SockDgram) == 32 && InitialState(OtherKind) == 0
    ensures forall kind :: AssignedState(kind) == InitialState(kind) | 64
    ensures ORIENTATION == 48
  {
  }

  class BasicSocket {
    var shared: SharedSocket?
    var state: StateWord
    var protocol: Protocol
    var isOpen: bool

    /** An empty handle. */
    constructor (protocol: Protocol, ghost k: Kernel, ghost w: World)
      requires Shows(k, w)
      ensures Shows(k, w.Repoint(this, View(null, false, 0)))
      ensures shared == null && !isOpen && state == 0 && this.protocol == protocol
    {
      shared, state, isOpen := null, 0, false;
      this.protocol := protocol;
    }

    /** A new handle on the same descriptor. */
    constructor Copy(other: BasicSocket, ghost k: Kernel, ghost w: World)
      requires Shows(k, w) && w.Counted() && other in w.views
      modifies if other.shared == null then {} else {other.shared}
      ensures Shows(k, w.Copied(this, other))
      ensures shared == other.shared && isOpen == other.isOpen && state == other.state && protocol == other.protocol
      ensures shared != null ==> shared.useCount == old(other.shared.useCount) + 1
    {
      KnowsBlocks(w, other);
      ShowsMeans(k, w);
      hide World.Counted, Shows;
      shared, isOpen, state, protocol := other.shared, other.isOpen, other.state, other.protocol;
      new;
      if shared != null {
        shared.useCount := shared.useCount + 1;
      }
      NowRepointed(k, w, this, w.views[other]);
    }

    /** A new handle that takes over from the other. */
    constructor Move(other: BasicSocket, ghost k: Kernel, ghost w: World)
      requires Shows(k, w) && other in w.views
      modifies other
      ensures Shows(k, w.Moved(this, other))
      ensures shared == old(other.shared) && isOpen == old(other.isOpen) && state == old(other.state)
      ensures protocol == old(other.protocol)
      ensures other.shared == null && !other.isOpen && other.state == old(other.state)
    {
      shared, isOpen, state, protocol := other.shared, other.isOpen, other.state, other.protocol;
      new;
      other.shared, other.isOpen := null, false;
    }

    /** A handle on a native descriptor, or with an error on the invalid one; the error leaves the open
        flag without a value. */
    constructor Assigned(protocol: Protocol, fd: Socket, ec: Errc)
      ensures shared != null && fresh(shared) && shared.useCount == 1
      ensures shared.fd == fd && shared.kind == protocol.kind && this.protocol == protocol
      ensures state == AssignedState(protocol.kind) && (ec == NoError ==> isOpen)
    {
      var block := new SharedSocket(fd, protocol.kind);
      block.useCount := 1;
      shared, state := block, SetFlags(InitialState(protocol.kind), POSSIBLE_DUP);
      this.protocol := protocol;
      if ec == NoError {
        isOpen := true;
      }
    }

    function NativeHandle(): Socket
      reads this
    {
      if shared == null then INVALID_SOCKET else shared.fd
    }

    /** Assignment of the shared pointer: one more for the new block, one less for the old. */
    method PointTo(b: SharedSocket?, ghost counts: map<SharedSocket, nat>)
      requires forall c :: c in counts ==> counts[c] == c.useCount
      requires Knows(counts, shared) && (b != null && b !in counts ==> b.useCount == 0)
      modifies this`shared, (if shared == null then {} else {shared})`useCount, (if b == null then {} else {b})`useCount
      ensures shared == b
      ensures var after := Repointed(counts, old(shared), b);
              forall c :: c in after ==> after[c] == c.useCount
    {
      var was := shared;
      if b != null {
        b.useCount := b.useCount + 1;
      }
      if was != null {
        was.useCount := was.useCount - 1;
      }
      shared := b;
    }

    /** Afterwards the handle is empty. */
    method Reset(ghost k: Kernel, ghost w: World)
      requires Shows(k, w) && w.Counted() && this in w.views
      modifies this, if shared == null then {} else {shared}
      ensures Shows(k, w.LetGo(this))
    {
      KnowsBlocks(w, this);
      ShowsMeans(k, w);
      hide World.Counted, Repointed, Shows;
      PointTo(null, w.counts);
      isOpen := false;
      NowRepointed(k, w, this, View(null, false, state));
    }

    method CopyAssign(other: BasicSocket, ghost k: Kernel, ghost w: World)
      requires Shows(k, w) && w.Counted() && this in w.views && other in w.views
      modifies this, if shared == null then {} else {shared}, if other.shared == null then {} else {other.shared}
      ensures Shows(k, w.Copied(this, other))
      ensures protocol == old(other.protocol)
    {
      KnowsBlocks(w, this);
      KnowsBlocks(w, other);
      ShowsMeans(k, w);
      hide World.Counted, Repointed, Shows;
      PointTo(other.shared, w.counts);
      isOpen, state, protocol := other.isOpen, other.state, other.protocol;
      NowRepointed(k, w, this, w.views[other]);
    }

    method MoveFromOther(other: BasicSocket, ghost k: Kernel, ghost w: World)
      requires Shows(k, w) && w.Counted() && this in w.views && other in w.views
      requires other != this
      modifies this, other, if shared == null then {} else {shared}
      ensures Shows(k, w.Moved(this, other))
      ensures protocol == old(other.protocol)
    {
      KnowsBlocks(w, this);
      ShowsMeans(k, w);
      hide World.Counted, Repointed, Shows;
      PointTo(null, w.counts);
      shared, other.shared := other.shared, null;
      isOpen, state, protocol := other.isOpen, other.state, other.protocol;
      other.isOpen := false;
      NowMoved(k, w, this, other);
    }

    method MoveAssign(other: BasicSocket, ghost k: Kernel, ghost w: World)
      requires Shows(k, w) && w.Counted() && this in w.views && other in w.views
      modifies this, other, if shared == null then {} else {shared}
      ensures Shows(k, w.Moved(this, other))
      ensures protocol == old(other.protocol)
    {
      hide World.Counted;
      if other != this {
        MoveFromOther(other, k, w);
      } else {
        isOpen := false;
      }
    }

    /** A block for `fd` replaces what the handle held. */
    method HoldsSocket(fd: Socket, ghost kind: SocketKind, ghost counts: map<SharedSocket, nat>)
      returns (ghost b: SharedSocket)
      requires forall c :: c in counts ==> counts[c] == c.useCount
      requires Knows(counts, shared)
      modifies this`shared, (if shared == null then {} else {shared})`useCount
      ensures fresh(b) && b.fd == fd && b.kind == kind && shared == b
      ensures var after := Repointed(counts, old(shared), b);
              forall c :: c in after ==> after[c] == c.useCount
    {
      hide Repointed;
      var block := new SharedSocket(fd, kind);
      b := block;
      PointTo(block, counts);
    }

    /** A descriptor from the kernel, or on failure the invalid one, replaces what the handle held. */
    method Open(k: Kernel, kind: SocketKind, ghost w: World)
      returns (ec: Errc, ghost b: SharedSocket, ghost e: Event)
      requires Shows(k, w) && w.Counted() && this in w.views
      modifies k, this, if shared == null then {} else {shared}
      ensures fresh(b) && b.kind == kind
      ensures e.op == SocketCall && k.trace == old(k.trace) + [e]
      ensures b.fd == e.result && ec == (if e.result >= 0 then NoError else e.errno)
      ensures ec == NoError ==>
                b.fd !in w.open && b.fd != INVALID_SOCKET && Shows(k, w.Opened(this, b))
      ensures ec != NoError ==> b.fd == INVALID_SOCKET && Shows(k, w.OpenFailed(this, b))
    {
      KnowsBlocks(w, this);
      ShowsMeans(k, w);
      var fd;
      fd, ec, e := NewDescriptor(k);
      hide World.Counted, Repointed, Shows;
      b := HoldsSocket(fd, kind, w.counts);
      state := InitialState(kind);
      if ec == NoError {
        isOpen := true;
      }
      NowRepointed(k, w, this, View(shared, isOpen, state));
    }

    /** A new handle for the next connection. */
    method Accept(k: Kernel, ghost quiet: nat, ghost w: World)
      returns (h: BasicSocket, ec: Errc, ghost b: SharedSocket, ghost t: seq<Event>)
      requires Shows(k, w) && w.Counted() && this in w.views && k.QuietFrom(quiet)
      modifies k
      ensures fresh(h) && fresh(b) && b.kind == protocol.kind && h.protocol == protocol
      ensures h.shared == b && h.state == AssignedState(protocol.kind) && (ec == NoError ==> h.isOpen)
      ensures k.trace == old(k.trace) + t && Accepts.LegalSync(NativeHandle(), state, t, b.fd, ec)
      ensures ec == NoError ==> b.fd !in w.open && b.fd != INVALID_SOCKET && Shows(k, w.Accepted(h, b))
      ensures ec != NoError ==> b.fd == INVALID_SOCKET && Shows(k, w.AcceptFailed(h, b, h.isOpen))
    {
      ShowsMeans(k, w);
      hide World.Counted, Shows, Accepts.LegalSync;
      var fd;
      fd, ec, t := Accepts.SyncAccept(k, NativeHandle(), state, quiet);
      Accepts.AcceptConserves(Accepts.Record(NativeHandle(), state, true, t, true, fd, ec));
      h := new BasicSocket.Assigned(protocol, fd, ec);
      b := h.shared;
      NowRepointed(k, w, h, View(b, h.isOpen, h.state));
    }

    method NonBlocking(k: Kernel, mode: bool, ghost w: World) returns (ec: Errc, ghost p: Modes.Step)
      requires Shows(k, w) && this in w.views
      modifies k, this
      ensures Modes.Legal(p) && p.s == old(NativeHandle()) && p.call == Modes.SetUserMode(mode)
      ensures p.before == old(state) && state == p.after && ec == p.ec
      ensures k.trace == old(k.trace) + p.events && k.open == old(k.open)
      ensures Shows(k, w.Tuned(this, state)) && state & ORIENTATION == old(state) & ORIENTATION
    {
      var ok;
      ok, state, ec, p := Modes.SetUserNonBlocking(k, NativeHandle(), state, mode);
      StepFrame(p);
    }

    method Close(k: Kernel, ghost w: World) returns (ec: Errc, ghost p: Modes.Step)
      requires Shows(k, w) && w.Counted() && this in w.views
      modifies k, this, if shared == null then {} else {shared}
      ensures Modes.Legal(p) && p.s == old(NativeHandle()) && p.call == Modes.CloseSocket(false)
      ensures k.trace == old(k.trace) + p.events && p.before == old(state)
      ensures p.ec == ec && (ec == NoError <==> p.result == 0)
      ensures Shows(k, (if ec == NoError && p.s != INVALID_SOCKET then w.Tuned(this, p.after).KernelClosed(p.s)
                        else w.Tuned(this, p.after)).LetGo(this))
    {
      hide World.Holders, World.Held, World.Counted, Modes.Legal;
      var result;
      result, state, ec, p := Modes.Close(k, NativeHandle(), state, false);
      ghost var w1 := w.Tuned(this, state).(open := k.open);
      assert w1.Counted() by { TunedKeepsCounted(w, w1, this, state); }
      Reset(k, w1);
    }

    /** What the destructor of a descriptor's sole owner does before the handle goes. */
    method ShutAndClose(k: Kernel, ghost w: World) returns (thrown: Errc, ghost shut: seq<Event>, ghost p: Modes.Step)
      requires Shows(k, w) && w.Counted() && this in w.views && w.SoleOwner(this)
      modifies k, this, if shared == null then {} else {shared}
      ensures k.trace == old(k.trace) + shut + p.events
      ensures DestructorCalls(old(NativeHandle()), thrown, shut, p)
      ensures Shows(k, if thrown == NoError then w.Destroyed(this)
                       else if p.events == [] then w
                       else w.Tuned(this, p.after).LetGo(this))
    {
      ShowsMeans(k, w);
      hide World.Counted, World.LetGo, World.Destroyed, Modes.Legal, Repointed, Answer, Shows;
      p := Modes.Step(INVALID_SOCKET, Modes.CloseSocket(false), state, state, 0, NoError, []);
      var result, ec;
      result, ec, shut := Modes.Shutdown(k, NativeHandle(), ShutdownBoth);
      if ec != NotConnected && ec != NoError {
        return ec, shut, p;
      }
      thrown, p := Close(k, w);
      Modes.CloseMakesACall(p);
      if thrown == NoError {
        NowDestroyed(k, w, this, p.after);
      }
    }

    /** The destructor. The sole owner of a descriptor shuts the connection down and closes the
        descriptor; an error of either, other than not being connected, is thrown. */
    method Destroy(k: Kernel, ghost w: World) returns (thrown: Errc, ghost shut: seq<Event>, ghost p: Modes.Step)
      requires Shows(k, w) && w.Counted() && this in w.views
      modifies k, this, if shared == null then {} else {shared}
      ensures k.trace == old(k.trace) + shut + p.events
      ensures !w.SoleOwner(this) ==> thrown == NoError && shut == [] && p.events == []
      ensures w.SoleOwner(this) ==> DestructorCalls(old(NativeHandle()), thrown, shut, p)
      ensures Shows(k, if thrown == NoError then w.Destroyed(this)
                       else if p.events == [] then w
                       else w.Tuned(this, p.after).LetGo(this))
    {
      KnowsBlocks(w, this);
      ShowsMeans(k, w);
      hide World.Counted, World.LetGo, World.Destroyed, DestructorCalls, Repointed, Shows;
      if shared != null && shared.useCount == 1 {
        thrown, shut, p := ShutAndClose(k, w);
      } else {
        thrown, shut := NoError, [];
        p := Modes.Step(INVALID_SOCKET, Modes.CloseSocket(false), state, state, 0, NoError, []);
        Reset(k, w);
        NowDestroyed(k, w, this, 0);
      }
    }
  }

  lemma TunedKeepsCounted(w: World, w': World, h: BasicSocket, state: StateWord)
    requires w.Counted() && h in w.views
    requires w'.views == w.Tuned(h, state).views && w'.counts == w.counts
    ensures w'.Counted()
  {
    hide World.Holders, World.Held;
    forall b | b in w.counts ensures w.counts[b] > 0 {
      PositiveCount(w, b);
    }
    RecountKeepsCounted(w, w', h);
  }
}
