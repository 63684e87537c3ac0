/** Notions that several components share. */
module Wrappers {
  datatype Option<+T> = None | Some(value: T)
}

module Numbers {
  function Min(a: int, b: int): int { if a <= b then a else b }
  function Max(a: int, b: int): int { if a >= b then a else b }
}

module Characters {
  /** ASCII white space: tab, line feed, vertical tab, form feed, carriage return and space. */
  predicate IsSpace(c: char) {
    c == ' ' || 9 <= c as int <= 13
  }
}

/** The states of src/dependency-health, which the health and status views also read. */
module DependencyStates {
  datatype DependencyState = Healthy | Degraded | Unavailable | Misconfigured | Disabled
}
