/** What the throttles of the web server share. */
module Throttle {
  import opened Base

  const WINDOW_MS: u64 := 5 * 60 * 1000

  // A client address, as a number.
  type Origin = nat
}
