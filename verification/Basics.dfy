/** Small value types shared by every module. */
module Basics {

  datatype Option<+T> = None | Some(value: T)

  /** The status bits of a stream operation. */
  datatype Status = Status(success: bool, closed: bool, timeout: bool) {
    predicate Complete() {
      success || closed
    }

    predicate Aborted() {
      !success && !closed && !timeout
    }
  }

  const BLOCKED := Status(false, false, false)
  const SUCCESS := Status(true, false, false)
  const CLOSED := Status(false, true, false)

  /** An optional item seen as a collection of zero or one elements. */
  function Bag<T>(o: Option<T>): multiset<T> {
    match o
    case None => multiset{}
    case Some(x) => multiset{x}
  }
}
