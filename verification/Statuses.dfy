/** The status of an analysis row. */
module Statuses {
  datatype Status = Queued | Processing | Done | Failed | Canceled | WaitingForReference
}
