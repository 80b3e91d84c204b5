/** Permission bit sets: bit 0 to bit 14 of the stored integers. */
module Permissions {
  import opened Powers

  type Bits = set<nat>

  const VIEW_CHANNEL: nat := 0
  const SEND_MESSAGES: nat := 1
  const ATTACH_FILES: nat := 3
  const ADD_REACTIONS: nat := 4
  const CONNECT_VOICE: nat := 5
  const SPEAK: nat := 6
  const MANAGE_ROLES: nat := 11
  const ADMINISTRATOR: nat := 13

  const PERMISSION_BITS: nat := 15
  const MAX_PERMISSIONS: int := 32767

  predicate InRange(p: int) { 0 <= p <= MAX_PERMISSIONS }

  /** The set bits of a valid permission integer. */
  function BitsOf(p: int): Bits
    requires InRange(p)
  {
    set b: nat | b < PERMISSION_BITS && (p / Pow2(b)) % 2 == 1
  }
}
