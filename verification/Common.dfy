/** What several parts of the model share. */
module Common {

  datatype Option<+T> = None | Some(value: T) {
    function UnwrapOr(default: T): T {
      if None? then default else value
    }
  }

  predicate NoDup<T(==)>(s: seq<T>) {
    forall i, j :: 0 <= i < j < |s| ==> s[i] != s[j]
  }
}

/** The state of a TCP connection (muduo/net/TcpConnection.h). */
module ConnStates {

  datatype ConnState = Connecting | Connected | Disconnecting | Disconnected
}
