/** The four ready states of a WebSocket, in the order in which a socket passes through them. */
module Sockets {

  datatype ReadyState = CONNECTING | OPEN | CLOSING | CLOSED
  {
    function Rank(): nat {
      match this
      case CONNECTING => 0
      case OPEN => 1
      case CLOSING => 2
      case CLOSED => 3
    }

    predicate Live() {
      CONNECTING? || OPEN?
    }
  }
}
