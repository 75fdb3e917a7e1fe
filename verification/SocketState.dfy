/** The socket state word (NetLite/socket_ops.hpp). */
module SocketState {

  type StateWord = bv8

  const USER_SET_NON_BLOCKING: StateWord := 1
  const INTERNAL_NON_BLOCKING: StateWord := 2
  const NON_BLOCKING: StateWord := USER_SET_NON_BLOCKING | INTERNAL_NON_BLOCKING
  const ENABLE_CONNECTION_ABORTED: StateWord := 4
  const USER_SET_LINGER: StateWord := 8
  const STREAM_ORIENTED: StateWord := 16
  const DATAGRAM_ORIENTED: StateWord := 32
  const POSSIBLE_DUP: StateWord := 64

  /** `state |= flags` */
  function SetFlags(state: StateWord, flags: StateWord): StateWord {
    state | flags
  }

  /** `state &= ~flags` */
  function ClearFlags(state: StateWord, flags: StateWord): StateWord {
    state & !flags
  }

  /** Some bit of `flags` is set. */
  predicate Has(state: StateWord, flags: StateWord) {
    state & flags != 0
  }
}
