module Basics {
  datatype Option<+T> = None | Some(value: T)

  // Durations and clock readings are in nanoseconds.
  const SECOND := 1_000_000_000
}
