/** Machine integers as bounded mathematical integers, and the rounding facts every module shares. */
module Numbers {
  const U16_MAX: int := 0xFFFF
  const U64_MAX: int := 0xFFFF_FFFF_FFFF_FFFF
  const U128_MAX: int := 0xFFFF_FFFF_FFFF_FFFF_FFFF_FFFF_FFFF_FFFF
  const I128_MAX: int := 0x7FFF_FFFF_FFFF_FFFF_FFFF_FFFF_FFFF_FFFF
  const I128_MIN: int := -0x8000_0000_0000_0000_0000_0000_0000_0000

  type u8 = x: int | 0 <= x <= 0xFF
  type u16 = x: int | 0 <= x <= U16_MAX
  type u64 = x: int | 0 <= x <= U64_MAX
  type u128 = x: int | 0 <= x <= U128_MAX

  function Min(a: int, b: int): int {
    if a <= b then a else b
  }

  function Max(a: int, b: int): int {
    if a <= b then b else a
  }

  /** Plain integer difference of two machine values. */
  function Minus(a: int, b: int): int {
    a - b
  }

  /** Rust's `saturating_sub` on unsigned values. */
  function SatSub(a: int, b: int): int {
    if a <= b then 0 else a - b
  }

  /** Rust's `div_ceil` on unsigned values. */
  function CeilDiv(a: int, b: int): int
    requires b > 0
  {
    if a % b == 0 then a / b else a / b + 1
  }

  /** `q` is the floor of `a / b`, without division. */
  lemma FloorIs(a: int, b: int, q: int)
    requires b > 0 && q * b <= a < q * b + b
    ensures a / b == q
  {
    FloorBounds(a, b);
    FloorGreatest(a, b, q);
    var f := a / b;
    if q < f {
      assert (q + 1) * b <= f * b by { MulMono(q + 1, f, b); }
    }
  }

  lemma FloorBounds(a: int, b: int)
    requires b > 0
    ensures (a / b) * b <= a < (a / b) * b + b
  {}

  lemma CeilBounds(a: int, b: int)
    requires b > 0
    ensures CeilDiv(a, b) * b - b < a <= CeilDiv(a, b) * b
  {}

  /** The ceiling is the least integer `q` with `a <= q * b`. */
  lemma CeilLeast(a: int, b: int, q: int)
    requires b > 0 && a <= q * b
    ensures CeilDiv(a, b) <= q
  {
    CeilBounds(a, b);
    var c := CeilDiv(a, b);
    if c > q {
      assert (c - 1) * b >= q * b by { MulMono(q, c - 1, b); }
    }
  }

  lemma FloorGreatest(a: int, b: int, q: int)
    requires b > 0 && q * b <= a
    ensures q <= a / b
  {
    FloorBounds(a, b);
    var f := a / b;
    if f < q {
      assert (f + 1) * b <= q * b by { MulMono(f + 1, q, b); }
    }
  }

  lemma MulMono(a: int, b: int, c: int)
    requires a <= b && c >= 0
    ensures a * c <= b * c
  {}

  lemma AddScaled(a: int, b: int, c: int)
    ensures (a + b) * c == a * c + b * c
  {}

  /** Whole multiples pass through a ceiling. */
  lemma CeilShift(a: int, k: int, b: int)
    requires b > 0
    ensures CeilDiv(a + k * b, b) == CeilDiv(a, b) + k
  {
    var c := CeilDiv(a, b);
    CeilBounds(a, b);
    CeilBounds(a + k * b, b);
    AddScaled(c, k, b);
    CeilLeast(a + k * b, b, c + k);
    var d := CeilDiv(a + k * b, b);
    AddScaled(d - k, k, b);
    CeilLeast(a, b, d - k);
  }

  lemma MulSucc(n: int, k: int)
    ensures (n + 1) * k == n * k + k
  {}

  /** The product of two machine words fits the double word. */
  lemma ProductFits(a: u64, b: u64)
    ensures 0 <= a * b <= U128_MAX
  {
    MulMono(a, U64_MAX, b);
    MulMono(b, U64_MAX, U64_MAX);
  }

  lemma FloorMono(a: int, a': int, b: int)
    requires b > 0 && a <= a'
    ensures a / b <= a' / b
  {
    FloorBounds(a, b);
    FloorGreatest(a', b, a / b);
  }

  lemma CeilMono(a: int, a': int, b: int)
    requires b > 0 && a <= a'
    ensures CeilDiv(a, b) <= CeilDiv(a', b)
  {
    CeilBounds(a', b);
    CeilLeast(a, b, CeilDiv(a', b));
  }

  /** Floors are superadditive: rounding parts separately never gives more than rounding the whole. */
  lemma FloorSuperadditive(a: int, a': int, b: int)
    requires b > 0
    ensures a / b + a' / b <= (a + a') / b
  {
    FloorBounds(a, b);
    FloorBounds(a', b);
    assert (a / b + a' / b) * b == (a / b) * b + (a' / b) * b;
    FloorGreatest(a + a', b, a / b + a' / b);
  }
}
