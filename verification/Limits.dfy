/** Bounds and scales that several components share. */
module Limits {
  const U64_MAX := 0xFFFF_FFFF_FFFF_FFFF

  /** The largest integer that a JavaScript number holds exactly together with its neighbours. */
  const MAX_SAFE_INTEGER := 0x1F_FFFF_FFFF_FFFF

  /** One, in basis points. */
  const BPS := 10_000
}
