/**
 The 32-bit tick type of the kernel (`TickType_t` with `configUSE_16_BIT_TICKS` 0) and the
 facts that relate it to an unbounded clock. An unbounded time `t` is stored as `Low(t)`;
 `Epoch(t)` counts the wraps that came before it.
 */
module Word32 {

  const WRAP: nat := 0x1_0000_0000
  const MAX_DELAY: nat := 0xFFFF_FFFF

  type Tick = t: int | 0 <= t < 0x1_0000_0000

  /** Unsigned 32-bit addition. */
  function Add(a: Tick, b: Tick): Tick {
    if a + b < WRAP then a + b else a + b - WRAP
  }

  /** Unsigned 32-bit subtraction. */
  function Sub(a: Tick, b: Tick): Tick {
    if b <= a then a - b else a - b + WRAP
  }

  function Low(t: nat): Tick {
    t % WRAP
  }

  function Epoch(t: nat): nat {
    t / WRAP
  }

  lemma AddTracks(t: nat, d: Tick)
    ensures Add(Low(t), d) == Low(t + d)
  {}

  lemma SubTracks(a: nat, b: nat)
    requires b <= a < b + WRAP
    ensures Sub(Low(a), Low(b)) == a - b
  {}
}
