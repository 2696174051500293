/** How a promise settles: fulfilled with a value or rejected with a reason. */
module Promises {
  datatype Settled<+T, +E> = Fulfilled(value: T) | Rejected(reason: E)
}
