/** Timestamps as the component sees them.

    A JavaScript `Date` compared with `<=`/`>=` is coerced to its epoch
    milliseconds, and `addSeconds` builds a new `Date` from
    `getTime() + seconds * 1000`, so a timestamp is modelled as an integer
    number of milliseconds and every operation on it is integer arithmetic.
 */
module Time {

  /** Epoch milliseconds. */
  type Millis = int

  /** Length, in seconds, of the default gap kept between start and end. */
  const DefaultAdsDurationSeconds: int := 60

  /** The same gap in milliseconds. */
  const DefaultAdsDurationMillis: int := DefaultAdsDurationSeconds * 1000

  /** The instant `seconds` seconds after (or, for a negative count, before) `t`. */
  function AddSeconds(t: Millis, seconds: int): (r: Millis)
    ensures seconds > 0 ==> t < r
    ensures seconds < 0 ==> r < t
    ensures seconds == 0 ==> r == t
  {
    t + seconds * 1000
  }
}
