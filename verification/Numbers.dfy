/** Powers and the fixed-width integer conversions the C++ code relies on. */
module Numbers {
  const UINT32_SPAN: nat := 0x1_0000_0000

  /** Also the span of `std::size_t`, which has 64 bits on every supported platform. */
  const UINT64_SPAN: nat := 0x1_0000_0000_0000_0000

  const INT32_SPAN: int := 0x8000_0000

  function Pow2(k: nat): (p: nat)
    ensures p >= 1
  {
    if k == 0 then 1 else 2 * Pow2(k - 1)
  }

  lemma {:induction false} Pow2Grows(a: nat, b: nat)
    requires a <= b
    ensures Pow2(a) <= Pow2(b)
    decreases b
  {
    if a < b {
      Pow2Grows(a, b - 1);
    }
  }

  function Max(a: nat, b: nat): nat {
    if a < b then b else a
  }

  /** Conversion to `uint32_t`. */
  function Uint32(n: int): (r: nat)
    ensures r < UINT32_SPAN
    ensures 0 <= n < UINT32_SPAN ==> r == n
  {
    n % UINT32_SPAN
  }

  /** Conversion to a 32-bit `int` in two's complement. */
  function Int32(n: int): (r: int)
    ensures -INT32_SPAN <= r < INT32_SPAN
    ensures -INT32_SPAN <= n < INT32_SPAN ==> r == n
  {
    var u := n % UINT32_SPAN;
    if u < INT32_SPAN then u else u - UINT32_SPAN
  }

  /** Wrapping each step of a sum or only its result gives the same. */
  lemma Int32Add(a: int, b: int)
    ensures Int32(Int32(a) + Int32(b)) == Int32(a + b)
  {
    var j := Wraps(a);
    var k := Wraps(b);
    Int32Shift(a + b, -(j + k));
  }

  /** How often 2^32 is subtracted in the conversion. */
  lemma Wraps(n: int) returns (k: int)
    ensures Int32(n) == n - k * UINT32_SPAN
  {
    k := if n % UINT32_SPAN < INT32_SPAN then n / UINT32_SPAN else n / UINT32_SPAN + 1;
  }

  lemma Int32Shift(n: int, k: int)
    ensures Int32(n + k * UINT32_SPAN) == Int32(n)
  {
    assert (n + k * UINT32_SPAN) % UINT32_SPAN == n % UINT32_SPAN;
  }
}

/** A value that may be absent. */
module Wrappers {
  datatype Option<+T> = None | Some(value: T)
}
