/** Instants and durations: in microseconds for the database, in seconds for Redis. */
module Instants {
  type Time = int

  const SECOND: int := 1_000_000
  const MINUTE: int := 60 * SECOND
  const DAY: int := 1440 * MINUTE

  type Seconds = nat
}
