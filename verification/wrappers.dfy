/** Optional values and outcomes shared by the modules of the study planner. */
module Wrappers {

  /** A value that may be absent (`undefined` in the application). */
  datatype Option<+T> = None | Some(value: T)

  /** The outcome of a user action: it either took effect or was refused for a reason. */
  datatype Outcome<+E> = Done | Refused(reason: E)
}
