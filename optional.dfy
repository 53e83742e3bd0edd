/** Values that may be absent: JavaScript's `null`/`undefined`, and settled promises. */
module Optional {

  /** `None` stands for `null` or `undefined`. */
  datatype Option<+T> = None | Some(value: T) {

    /** The wrapped value, or `default` when absent (JavaScript's `x ?? default`). */
    function GetOr(default: T): T {
      match this
      case Some(v) => v
      case None => default
    }
  }

  /** One entry of the array that `Promise.allSettled` resolves to. */
  datatype Settled<+T> = Fulfilled(value: T) | Rejected

  /** The value of a string-valued expression `e || fallback`: the empty string is falsy. */
  function OrElse(s: string, fallback: string): (r: string)
    ensures s != "" ==> r == s
    ensures s == "" ==> r == fallback
  {
    if s != "" then s else fallback
  }
}
