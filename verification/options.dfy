/** The optional value used wherever the dashboard reads something that may be
    absent: a `localStorage` slot that was never written, a JSON field a
    response did not carry, a list search that found nothing. */
module Options {

  datatype Option<+T> = None | Some(value: T) {

    /** The carried value, or `default` when there is none. */
    function GetOr(default: T): (r: T)
      ensures Some? ==> r == value
      ensures None? ==> r == default
    {
      match this
      case Some(v) => v
      case None => default
    }
  }
}
