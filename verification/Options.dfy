/** The stock option type, standing for Python's `None` and SQL's NULL. */
module Options {
  datatype Option<+T> = None | Some(value: T)
}

/** How a call to another service or to the database ends, seen from the caller. */
module Faults {
  /** It returns or raises its own error; it raises without having taken effect; it raises after taking effect. */
  datatype Fault = Clean | RaisesBefore | RaisesAfter
}
