/**
 * The repository the handlers call: a two-argument bounded fetch that
 * returns a window of records or fails. What the window holds is decided
 * by the database; here it is a fixed function of the two arguments, and
 * every call is logged so that what the handler asked for can be stated.
 */
module Storage {
  /** The outcome of one fetch: the rows of the window, or a storage error. */
  datatype Answer<T> = Rows(rows: seq<T>) | StorageError

  class Repository<T> {
    /** What the storage answers for each pair of arguments. */
    const window: (int, int) -> Answer<T>
    /** Every pair of arguments `FetchAll` was called with, in order. */
    ghost var calls: seq<(int, int)>

    constructor (window: (int, int) -> Answer<T>)
      ensures this.window == window && calls == []
    {
      this.window := window;
      calls := [];
    }

    /**
     * `FetchAll(limit, offset)` for books (`FetchAllLimitAndOffset` in
     * pkg/handler), `FetchAll(cursor, limit)` for cars. On failure Go returns
     * a nil slice, which is the empty sequence here.
     */
    method FetchAll(a: int, b: int) returns (rows: seq<T>, failed: bool)
      modifies this`calls
      ensures calls == old(calls) + [(a, b)]
      ensures failed <==> window(a, b).StorageError?
      ensures rows == if failed then [] else window(a, b).rows
    {
      calls := calls + [(a, b)];
      match window(a, b)
      case Rows(found) =>
        rows, failed := found, false;
      case StorageError =>
        rows, failed := [], true;
    }
  }

  /** The data a handler puts in its body for a given answer. */
  function Fetched<T>(answer: Answer<T>): seq<T> {
    if answer.StorageError? then [] else answer.rows
  }
}
