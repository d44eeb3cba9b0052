/** Small value wrappers shared by every component of the model. */
module Values {

  /** A value that may be absent: JavaScript's `undefined`/`null` next to a present value. */
  datatype Option<+T> = None | Some(value: T) {

    /** The wrapped value, or `default` when absent. */
    function GetOr(default: T): T {
      match this
      case Some(v) => v
      case None => default
    }
  }

  /** JavaScript's `s || ""` on an optional string: absent (or empty) becomes `""`. */
  function OrEmpty(o: Option<string>): (s: string)
    ensures o.None? ==> s == ""
    ensures o.Some? ==> s == o.value
  {
    o.GetOr("")
  }

  function Min(a: int, b: int): int {
    if a <= b then a else b
  }
}
