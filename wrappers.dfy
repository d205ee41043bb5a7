/** Option, the failure-compatible wrapper the rest of the model uses. */
module Wrappers {

  /** A value that may be absent: an optional record field, or a key missing from a patch. */
  datatype Option<+T> = None | Some(value: T) {
    predicate IsFailure() { None? }

    function PropagateFailure<U>(): Option<U>
      requires None?
    {
      None
    }

    function Extract(): T
      requires Some?
    {
      value
    }

    /** JavaScript's `o || fallback` on an optional string-like field. */
    function GetOr(fallback: T): T {
      if Some? then value else fallback
    }

    /** A spread `{ ...x, ...patch }` on an optional property: the patch's value when it has the key. */
    function Otherwise(other: Option<T>): Option<T> {
      if Some? then this else other
    }
  }
}
