/** Fixed-width unsigned integers of the original, as bounded `nat`s, and the
    few arithmetic helpers (powers, saturation) that the model states its
    bounds with. */
module Ints {

  const U64_LIMIT: nat := 0x1_0000_0000_0000_0000
  const U32_LIMIT: nat := 0x1_0000_0000
  const U16_LIMIT: nat := 0x1_0000

  type u64 = x: nat | x < U64_LIMIT
  type u32 = x: nat | x < U32_LIMIT
  type u16 = x: nat | x < U16_LIMIT
  type u8 = x: nat | x < 0x100

  function Pow(base: nat, e: nat): (r: nat)
    ensures base > 0 ==> r > 0
  {
    if e == 0 then 1 else base * Pow(base, e - 1)
  }

  lemma {:induction false} PowAdd(base: nat, x: nat, y: nat)
    ensures Pow(base, x + y) == Pow(base, x) * Pow(base, y)
    decreases x
  {
    if x > 0 {
      var a, c := Pow(base, x - 1), Pow(base, y);
      PowAdd(base, x - 1, y);
      assert Pow(base, x + y) == base * Pow(base, x - 1 + y);
      assert base * (a * c) == (base * a) * c;
    }
  }

  /** 2^64 is 16^16, and every u64 has at most twenty decimal digits. */
  lemma PowLimits()
    ensures Pow(16, 16) == U64_LIMIT
    ensures U64_LIMIT < Pow(10, 20)
  {
    assert Pow(16, 4) == 65536;
    PowAdd(16, 4, 4);
    PowAdd(16, 8, 8);
    assert Pow(10, 5) == 100000;
    PowAdd(10, 5, 5);
    PowAdd(10, 10, 10);
  }

  /** `u64::saturating_add`. */
  function SaturatingAdd(a: u64, b: u64): (r: u64)
    ensures r == a + b || (r == U64_LIMIT - 1 && a + b >= U64_LIMIT)
  {
    if a + b < U64_LIMIT then a + b else U64_LIMIT - 1
  }

  /** `u64` addition as a release build performs it (wrapping). */
  function WrappingAdd(a: u64, b: u64): (r: u64)
    ensures a + b < U64_LIMIT ==> r == a + b
    ensures a + b >= U64_LIMIT ==> r == a + b - U64_LIMIT
  {
    (a + b) % U64_LIMIT
  }

  /** `u64::saturating_mul`. */
  function SaturatingMul(a: u64, b: u64): (r: u64)
    ensures r == a * b || (r == U64_LIMIT - 1 && a * b >= U64_LIMIT)
  {
    if a * b < U64_LIMIT then a * b else U64_LIMIT - 1
  }

  /** `u64::saturating_sub`. */
  function SaturatingSub(a: nat, b: nat): (r: nat)
    ensures r + b >= a
    ensures a >= b ==> r == a - b
  {
    if a >= b then a - b else 0
  }

  function Min(a: int, b: int): int { if a <= b then a else b }

  function Max(a: int, b: int): int { if a >= b then a else b }
}
