/** Fixed-width integers of the source, written out over Dafny's unbounded `int`.
    Release builds of the program wrap on overflow, so plain `+` and `*` on `u32`/`u64`
    are modelled by `WrapU32`/`WrapU64` wherever the operands can reach the limit. */
module MachineInts {

  const U32_MAX: int := 0xFFFF_FFFF
  const U64_MAX: int := 0xFFFF_FFFF_FFFF_FFFF
  const I32_MAX: int := 0x7FFF_FFFF
  const I64_MAX: int := 0x7FFF_FFFF_FFFF_FFFF

  const NANOS_PER_SEC: int := 1_000_000_000

  /** Fixed-point amounts count millionths. */
  const MICRO: int := 1_000_000

  type u32 = x: int | 0 <= x <= U32_MAX
  type u64 = x: int | 0 <= x <= U64_MAX
  type i64 = x: int | -I64_MAX - 1 <= x <= I64_MAX

  datatype Option<+T> = None | Some(value: T)

  function Min(x: int, y: int): int { if x <= y then x else y }

  function Max(x: int, y: int): int { if x >= y then x else y }

  function MinR(x: real, y: real): real { if x <= y then x else y }

  function MaxR(x: real, y: real): real { if x >= y then x else y }

  function WrapU32(x: nat): u32 { x % (U32_MAX + 1) }

  function WrapU64(x: nat): u64 { x % (U64_MAX + 1) }

  function WrapI64(x: int): i64 { (x + I64_MAX + 1) % (U64_MAX + 1) - I64_MAX - 1 }

  /** Conversion to a 64-bit integer, with a default when the value does not fit. */
  function ToI64(x: int, fallback: int): int {
    if -I64_MAX - 1 <= x <= I64_MAX then x else fallback
  }

  lemma WrapSuccessor(n: nat)
    ensures WrapU32(WrapU32(n) + 1) == WrapU32(n + 1)
  {
  }

  lemma WrapI64Add(x: int, y: int)
    ensures WrapI64(WrapI64(x) + y) == WrapI64(x + y)
  {
  }

  lemma WrapI64Exact(x: int)
    ensures WrapI64(x) == x <==> -I64_MAX - 1 <= x <= I64_MAX
  {
  }

  function SaturateU32(x: nat): u32 { Min(x, U32_MAX) }

  function SaturateU64(x: nat): u64 { Min(x, U64_MAX) }

  function Pow2(n: nat): (p: nat)
    ensures p >= 1
  {
    if n == 0 then 1 else 2 * Pow2(n - 1)
  }

  lemma {:induction false} Pow2Monotone(m: nat, n: nat)
    requires m <= n
    ensures Pow2(m) <= Pow2(n)
    decreases n - m
  {
    if m < n { Pow2Monotone(m + 1, n); }
  }

  lemma {:induction false} Pow2Add(m: nat, n: nat)
    ensures Pow2(m + n) == Pow2(m) * Pow2(n)
  {
    if n > 0 { Pow2Add(m, n - 1); }
  }

  lemma HugePowers(k: nat)
    requires k >= 64
    ensures Pow2(k) > U64_MAX
  {
    Pow2Monotone(64, k);
    Pow2Of32();
    Pow2Add(32, 32);
  }

  lemma Pow2Of8()
    ensures Pow2(8) == 256
  {
    assert Pow2(4) == 16;
    Pow2Add(4, 4);
  }

  lemma Pow2Of32()
    ensures Pow2(32) == 0x1_0000_0000
  {
    Pow2Of8();
    Pow2Add(8, 8);
    Pow2Add(16, 16);
  }
}
