/** Types shared by every part of the model. */
module Prelude {
  datatype Option<+T> = None | Some(value: T)

  /** Seconds since the epoch, as `time.time()` reports them. */
  type Time = real

  /** A request identifier (a UUID in the service). */
  type Id = string

  /** The value a nullable column holds after an UPDATE that may leave it alone. */
  function Coalesce<T>(written: Option<T>, stored: Option<T>): Option<T> {
    if written.Some? then written else stored
  }

  /** Python's `int(x)` on a float: truncation toward zero. */
  function Truncate(x: real): int {
    if x >= 0.0 then x.Floor else -((-x).Floor)
  }

  lemma Member<T>(s: set<T>) returns (x: T)
    requires s != {}
    ensures x in s
  {
    x :| x in s;
  }
}
