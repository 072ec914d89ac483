/** Row identifiers. */
module Ids {
  const UUID_LIMIT: nat := 0x1_0000_0000_0000_0000_0000_0000_0000_0000

  /** A UUID is its 128 bits, most significant first, which is also the order in which
      PostgreSQL compares UUIDs. */
  type Uuid = n: nat | n < UUID_LIMIT witness 0
}
