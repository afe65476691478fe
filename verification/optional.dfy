/** The "value or nothing" wrapper used wherever the hand-input runtime may
    report nothing: an input source without a hand skeleton, a timestamp that
    has not been seen yet. */
module Optional {

  datatype Option<+T> = None | Some(value: T) {

    /** Returns the value in Some or the given default for None. */
    function GetOr(default: T): (r: T)
      ensures Some? ==> r == value
      ensures None? ==> r == default
    {
      match this
      case Some(v) => v
      case None => default
    }
  }
}
