/** What can become of a share: one vocabulary for sessions and for the accounting. */
module Shares {
  datatype ShareOutcome = Accepted | Rejected | Unresolved
}
