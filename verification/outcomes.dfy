/** Result shapes shared by the model: Swift optionals and Swift runtime traps. */
module Outcomes {

  /** A Swift optional: `nil` or a wrapped value. */
  datatype Option<T> = None | Some(value: T)

  /** The outcome of running a Swift function that can hit a runtime trap
      (an integer overflow, a range whose lower bound exceeds its upper bound):
      either it returns a value or the process stops. */
  datatype Run<T> = Returned(value: T) | Trapped
}
