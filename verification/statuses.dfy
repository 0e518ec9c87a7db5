/**
 The result codes every service shares.
 */
module Statuses {
  datatype Status = Ok | Malformed | Unsupported | Denied | Busy | Timeout | Range | NotReady | NotFound | Io | Internal
}
