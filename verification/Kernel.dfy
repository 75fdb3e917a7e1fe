/**
 The operating system as the socket operations meet it: an arbitrary script of
 replies to system calls, and a record of every call made. A failing call
 reports an error and changes nothing; a successful call returns a non-negative
 value and may leave any error number behind.
 */
module Kernels {
  import opened Bytes

  datatype Errc =
    | NoError
    | WouldBlock
    | TryAgain
    | Interrupted
    | ConnectionAborted
    | ProtocolError
    | BadFileDescriptor
    | InvalidArgument
    | NoMessageAvailable
    | NotConnected
    | OtherError(code: int)

  type Failure = e: Errc | e != NoError witness InvalidArgument

  type Socket = int

  const INVALID_SOCKET: Socket := -1

  /** `value` is what a successful call returns, `extra` what it stores (an address length, message flags). */
  datatype Reply = Succeed(value: nat, errno: Errc, extra: nat) | Fail(error: Failure)

  /** Where a send goes: to the peer of a connection, or to a socket address given with the call. */
  datatype Destination = Peer | To(address: seq<byte>)

  datatype ShutdownType = ShutdownReceive | ShutdownSend | ShutdownBoth

  datatype Op =
    | Recvmsg(s: Socket, size: nat)
    | Sendmsg(s: Socket, data: seq<byte>, to: Destination)
    | PollIn(s: Socket, timeout: int)
    | PollOut(s: Socket, timeout: int)
    | AcceptCall(s: Socket)
    | SocketCall
    | CloseCall(s: Socket)
    | ShutdownCall(s: Socket, what: ShutdownType)
    | Fionbio(s: Socket, value: bool)
    | OtherIoctl(s: Socket, cmd: int)
    | SetOption(s: Socket, linger: bool, optVal: int)
    | GetOption(s: Socket)

  datatype Event = Event(op: Op, result: int, errno: Errc, extra: nat)
  {
    predicate Succeeded() {
      result >= 0
    }
  }

  /** The first descriptor from `n` on that is not open. */
  function FreshFrom(open: set<Socket>, n: nat): (fd: nat)
    ensures fd !in open && fd >= n
    decreases |open|
  {
    if n !in open then n else
      var rest := open - {n};
      assert |rest| < |open|;
      var fd := FreshFrom(rest, n + 1);
      fd
  }

  /** A reply as the answer to a call: counts never exceed what was asked for, new descriptors
      are never open ones, and only an open descriptor can be closed. */
  function Answer(op: Op, reply: Reply, open: set<Socket>): (e: Event)
    ensures e.op == op && e.result >= -1
    ensures !e.Succeeded() ==> e.errno != NoError
    ensures op.SetOption? || op.CloseCall? || op.ShutdownCall? || op.GetOption? ==> e.result <= 0
    ensures op.CloseCall? && e.Succeeded() ==> op.s in open
  {
    match reply
    case Fail(error) => Event(op, -1, error, 0)
    case Succeed(value, errno, extra) =>
      match op
      case Recvmsg(_, size) => Event(op, if value <= size then value else size, errno, extra)
      case Sendmsg(_, data, _) => Event(op, if value <= |data| then value else |data|, errno, extra)
      case PollIn(_, _) => Event(op, value, errno, extra)
      case PollOut(_, _) => Event(op, value, errno, extra)
      case OtherIoctl(_, _) => Event(op, value, errno, extra)
      case AcceptCall(_) => Event(op, FreshFrom(open, value), errno, extra)
      case SocketCall => Event(op, FreshFrom(open, value), errno, extra)
      case CloseCall(s) => if s in open then Event(op, 0, errno, extra) else Event(op, -1, BadFileDescriptor, 0)
      case _ => Event(op, 0, errno, extra)
  }

  function OpenAfter(open: set<Socket>, e: Event): set<Socket> {
    if !e.Succeeded() then open
    else match e.op
      case AcceptCall(_) => open + {e.result}
      case SocketCall => open + {e.result}
      case CloseCall(s) => open - {s}
      case _ => open
  }

  class Kernel {
    const replies: nat -> Reply
    var next: nat
    var open: set<Socket>
    ghost var trace: seq<Event>

    constructor (replies: nat -> Reply)
      ensures this.replies == replies && next == 0 && open == {} && trace == []
    {
      this.replies := replies;
      next, open, trace := 0, {}, [];
    }

    /** Every system call: takes the next reply, and is recorded. */
    method Call(op: Op) returns (e: Event)
      modifies this
      ensures e == Answer(op, replies(old(next)), old(open))
      ensures next == old(next) + 1
      ensures open == OpenAfter(old(open), e)
      ensures trace == old(trace) + [e]
    {
      e := Answer(op, replies(next), open);
      next := next + 1;
      open := OpenAfter(open, e);
      trace := trace + [e];
    }

    /** From the reply numbered `n` on, no call is refused for a transient reason. */
    ghost predicate QuietFrom(n: nat) {
      forall i: nat :: i >= n ==> replies(i).Fail? ==> !Transient(replies(i).error)
    }
  }

  predicate IsWouldBlock(e: Errc) {
    e == WouldBlock || e == TryAgain
  }

  predicate IsAborted(e: Errc) {
    e == ConnectionAborted || e == ProtocolError
  }

  predicate Transient(e: Errc) {
    IsWouldBlock(e) || IsAborted(e) || e == Interrupted
  }

  /** The error a system call reports by itself. */
  function ErrorOf(e: Event): Errc {
    if e.Succeeded() then NoError else e.errno
  }

  /** Answers of a kernel: counts lie within what was asked for, and a failure has an error. */
  ghost predicate Answered(e: Event) {
    && (!e.Succeeded() ==> e.errno != NoError)
    && (e.op.Recvmsg? ==> e.result <= e.op.size)
    && (e.op.Sendmsg? ==> e.result <= |e.op.data|)
  }

  /** A refusal for a transient reason comes from a reply before `quiet`. */
  lemma RefusedEarly(k: Kernel, n: nat, op: Op, open: set<Socket>, quiet: nat)
    requires k.QuietFrom(quiet)
    requires var e := Answer(op, k.replies(n), open); !e.Succeeded() && Transient(e.errno)
    ensures n < quiet
  {
  }

  /** `e` is an answer to `op`; only while replies below `quiet` last can it be a transient refusal. */
  ghost predicate Answers(e: Event, op: Op, next: nat, quiet: nat) {
    && e.op == op && Answered(e)
    && (!e.Succeeded() && Transient(e.errno) ==> next < quiet)
  }

  // -------------------------------------------------------- reading a trace

  function BytesOf(e: Event): nat {
    if e.Succeeded() && (e.op.Recvmsg? || e.op.Sendmsg?) then e.result else 0
  }

  /** The bytes the kernel moved. */
  function Moved(t: seq<Event>): nat {
    if |t| == 0 then 0 else Moved(t[..|t| - 1]) + BytesOf(t[|t| - 1])
  }

  function SentBy(e: Event): seq<byte> {
    if e.op.Sendmsg? && 0 <= e.result <= |e.op.data| then e.op.data[..e.result] else []
  }

  /** The bytes that went out, in order. */
  function Sent(t: seq<Event>): seq<byte> {
    if |t| == 0 then [] else Sent(t[..|t| - 1]) + SentBy(t[|t| - 1])
  }

  /** The descriptors `accept` yielded, in order. */
  function Yielded(t: seq<Event>): seq<Socket> {
    if |t| == 0 then []
    else Yielded(t[..|t| - 1]) + if t[|t| - 1].op.AcceptCall? && t[|t| - 1].Succeeded()
                                 then [t[|t| - 1].result] else []
  }

  /** The kernel's blocking mode for a descriptor: that of the last FIONBIO that succeeded. */
  function NonBlockingMode(t: seq<Event>, s: Socket, initially: bool): bool {
    if |t| == 0 then initially
    else
      var e := t[|t| - 1];
      if e.op.Fionbio? && e.op.s == s && e.Succeeded() then e.op.value
      else NonBlockingMode(t[..|t| - 1], s, initially)
  }

  /** How often the descriptor `fd` was closed. */
  function Closed(t: seq<Event>, fd: Socket): nat {
    if |t| == 0 then 0
    else Closed(t[..|t| - 1], fd) + if t[|t| - 1].op == CloseCall(fd) && t[|t| - 1].Succeeded() then 1 else 0
  }

  lemma {:induction false} ClosedConcat(t: seq<Event>, u: seq<Event>, fd: Socket)
    ensures Closed(t + u, fd) == Closed(t, fd) + Closed(u, fd)
  {
    if |u| == 0 {
      assert t + u == t;
    } else {
      var u' := u[..|u| - 1];
      ClosedConcat(t, u', fd);
      assert (t + u)[..|t + u| - 1] == t + u';
    }
  }

  lemma {:induction false} ClosedNothing(t: seq<Event>, fd: Socket)
    requires forall i :: 0 <= i < |t| ==> !(t[i].op == CloseCall(fd) && t[i].Succeeded())
    ensures Closed(t, fd) == 0
  {
    if |t| > 0 {
      ClosedNothing(t[..|t| - 1], fd);
    }
  }

  lemma {:induction false} MovedConcat(t: seq<Event>, u: seq<Event>)
    ensures Moved(t + u) == Moved(t) + Moved(u)
  {
    hide BytesOf, SentBy;
    if |u| == 0 {
      assert t + u == t;
    } else {
      var u' := u[..|u| - 1];
      MovedConcat(t, u');
      assert (t + u)[..|t + u| - 1] == t + u';
    }
  }

  lemma {:induction false} SentConcat(t: seq<Event>, u: seq<Event>)
    ensures Sent(t + u) == Sent(t) + Sent(u)
  {
    hide BytesOf, SentBy;
    if |u| == 0 {
      assert t + u == t;
    } else {
      var u' := u[..|u| - 1];
      SentConcat(t, u');
      assert (t + u)[..|t + u| - 1] == t + u';
    }
  }

  lemma {:induction false} YieldedConcat(t: seq<Event>, u: seq<Event>)
    ensures Yielded(t + u) == Yielded(t) + Yielded(u)
  {
    hide BytesOf, SentBy;
    if |u| == 0 {
      assert t + u == t;
    } else {
      var u' := u[..|u| - 1];
      YieldedConcat(t, u');
      assert (t + u)[..|t + u| - 1] == t + u';
    }
  }

  lemma {:induction false} ModeConcat(t: seq<Event>, u: seq<Event>, s: Socket, initially: bool)
    ensures NonBlockingMode(t + u, s, initially) ==
            NonBlockingMode(u, s, NonBlockingMode(t, s, initially))
  {
    if |u| == 0 {
      assert t + u == t;
    } else {
      var u' := u[..|u| - 1];
      ModeConcat(t, u', s, initially);
      assert (t + u)[..|t + u| - 1] == t + u';
    }
  }
}
