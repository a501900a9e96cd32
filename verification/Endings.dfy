/** How a call can end. */
module Endings {
  datatype Ending<+T> = Returned(value: T) | Panicked | NeverReturns
}
