/** Protocol identifiers (src/types.rs).
  *
  * A 32-byte identifier is its big-endian value, which keeps the byte order and
  * equality of the source.
  */
module Ids {
  import opened Field

  const U16_LIMIT := 0x1_0000
  const U32_LIMIT := 0x1_0000_0000
  const U64_LIMIT := 0x1_0000_0000_0000_0000

  type U16 = n: nat | n < U16_LIMIT
  type U64 = n: nat | n < U64_LIMIT
  type Id = n: nat | n < WIDE_LIMIT

  type VaultId = Id
  type PersonId = Id
  type DeviceId = Id
  type SessionId = Id
  type CommandId = Id
  type Handle = Id
  type ScopeId = Id
  type Slot = U16
  type Epoch = U64

  /** One device-issued signing attempt. */
  datatype LeafAttempt = LeafAttempt(device: DeviceId, sequence: U64)

  /** One terminal transcript decision (src/log_act.rs). */
  datatype Terminal = Aborted | Activated(handle: Handle)
}
