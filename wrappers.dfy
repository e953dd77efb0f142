/** Values that a remote call may or may not deliver. */
module Wrappers {

  /** A value that may be absent: JavaScript's `null`/`undefined`. */
  datatype Option<+T> = None | Some(value: T)

  /** What the backend hands back for one request: either a reply whose
      `data` may still be `null`, or an error. Whether a call succeeds is
      not decided by the client, so every operation takes the reply as a
      parameter. */
  datatype Reply<+T> = Answered(data: Option<T>) | Failed

  /** JavaScript's `data || []` for a list that may be `null`. */
  function OrEmpty<T>(data: Option<seq<T>>): (r: seq<T>)
    ensures data.None? ==> r == []
    ensures data.Some? ==> r == data.value
  {
    match data
    case None => []
    case Some(rows) => rows
  }
}
