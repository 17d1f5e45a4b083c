/**
  UUIDs, token hashes, email addresses, IP addresses and tracker keys.  The gateway only compares
  them, so each is a number of its own.
 */
module Identifiers {
  newtype Id = int
}
