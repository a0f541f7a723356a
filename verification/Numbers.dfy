/** The integer widths that the source relies on. */
module Numbers {
  const U32_MAX: nat := 0xFFFF_FFFF
  const U64_MAX: nat := 0xFFFF_FFFF_FFFF_FFFF

  type U32 = n: nat | n <= U32_MAX
  type U64 = n: nat | n <= U64_MAX

  /** `now.saturating_sub(since)` */
  function Elapsed(now: nat, since: nat): nat { if now < since then 0 else now - since }
}
