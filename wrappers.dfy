// Option, the one failure-compatible wrapper the model needs: a Python
// `None` (a missing key, a search that found nothing) or an external call
// that raised.
module Wrappers {

  datatype Option<+T> = None | Some(value: T) {

    /** The wrapped value, or `default` when there is none (Python's `x or default`, `d.get(k, default)`). */
    function GetOr(default: T): T {
      match this
      case Some(v) => v
      case None => default
    }
  }

  /** Moves a split point: if x is y followed by tail and y is head followed by mid,
      then x is head followed by z = mid + tail. */
  lemma Reassociate<T>(x: seq<T>, y: seq<T>, head: seq<T>, mid: seq<T>, tail: seq<T>, z: seq<T>)
    requires x == y + tail && y == head + mid && z == mid + tail
    ensures x == head + z
  {
    assert (head + mid) + tail == head + (mid + tail);
  }
}
