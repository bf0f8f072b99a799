/** Machine integer widths, Rust's checked operators, and the few facts about
    products and floors that the quotes rest on. */
module Numeric {
  import opened Results

  const U16_MAX: int := 0xFFFF
  const U64_MAX: int := 0xFFFF_FFFF_FFFF_FFFF
  const U128_MAX: int := 0xFFFF_FFFF_FFFF_FFFF_FFFF_FFFF_FFFF_FFFF

  type u16 = x: int | 0 <= x <= U16_MAX
  type u64 = x: int | 0 <= x <= U64_MAX
  type u128 = x: int | 0 <= x <= U128_MAX

  /** The protocol-wide cap on a supply, a reserve or an amount. */
  const MAX_SUPPLY_CAP: u64 := 1_000_000_000_000_000

  function CheckedAdd(x: u128, y: u128): Option<u128> {
    if x + y <= U128_MAX then Some(x + y) else None
  }

  function CheckedSub(x: u128, y: u128): Option<u128> {
    if y <= x then Some(x - y) else None
  }

  function CheckedMul(x: u128, y: u128): Option<u128> {
    if x * y <= U128_MAX then MulIsNat(x, y); Some(x * y) else None
  }

  function CheckedDiv(x: u128, y: u128): Option<u128> {
    if y == 0 then None else DivIsBelow(x, y); Some(x / y)
  }

  function CheckedAdd64(x: u64, y: u64): Option<u64> {
    if x + y <= U64_MAX then Some(x + y) else None
  }

  function CheckedSub64(x: u64, y: u64): Option<u64> {
    if y <= x then Some(x - y) else None
  }

  function Min(x: int, y: int): int {
    if x <= y then x else y
  }

  function Sum(amounts: seq<u64>): nat {
    if amounts == [] then 0 else amounts[0] + Sum(amounts[1..])
  }

  lemma MulIsNat(x: nat, y: nat)
    ensures 0 <= x * y
  {}

  lemma SquareIsNat(x: int)
    ensures 0 <= x * x
  {}

  lemma DivIsBelow(x: nat, y: nat)
    requires y > 0
    ensures 0 <= x / y <= x
  {
    MulMono(1, y, x / y);
  }

  lemma MulMono(x: int, y: int, z: nat)
    requires x <= y
    ensures x * z <= y * z && z * x <= z * y
  {}

  lemma MulMono2(x: nat, x': int, y: nat, y': int)
    requires x <= x' && y <= y'
    ensures x * y <= x' * y'
  {
    MulMono(x, x', y);
    MulMono(y, y', x');
  }

  lemma MulStrict(x: int, y: int, z: int)
    requires x < y && z > 0
    ensures x * z < y * z
  {}

  lemma Assoc(a: int, b: int, c: int)
    ensures (a * b) * c == a * (b * c)
  {}

  lemma Interchange(a: int, b: int, c: int, d: int)
    ensures (a * b) * (c * d) == (a * c) * (b * d)
  {}

  lemma Distribute(a: int, b: int, c: int)
    ensures a * c + b * c == (a + b) * c
    ensures a * c - b * c == (a - b) * c
  {}

  /** Swapping the last two factors of three. */
  lemma Commute(a: int, b: int, c: int)
    ensures (a * b) * c == (a * c) * b
  {}

  /** A positive common factor cancels from an inequality. */
  lemma Cancel(x: int, y: int, z: int)
    requires z > 0 && x * z <= y * z
    ensures x <= y
  {
    if y < x {
      MulStrict(y, x, z);
    }
  }

  lemma CancelStrict(x: int, y: int, z: int)
    requires z > 0 && x * z < y * z
    ensures x < y
  {
    if y <= x {
      MulMono(y, x, z);
    }
  }

  /** `n / d` is the greatest `q` with `q * d <= n`. */
  lemma FloorIsGreatest(n: nat, d: nat, q: int)
    requires d > 0
    ensures (n / d) * d <= n < (n / d + 1) * d
    ensures q <= n / d <==> q * d <= n
  {
    assert n == (n / d) * d + n % d;
    if q <= n / d {
      MulMono(q, n / d, d);
    } else {
      MulMono(n / d + 1, q, d);
    }
  }

  /** Rounding up: the least `c` with `n <= c * d`. */
  function CeilOf(n: nat, d: nat): nat
    requires d > 0
  {
    if n % d == 0 then n / d else n / d + 1
  }

  lemma CeilIsLeast(n: nat, d: nat, c: int)
    requires d > 0
    ensures CeilOf(n, d) <= c <==> n <= c * d
    ensures CeilOf(n, d) * d < n + d
  {
    var q := n / d;
    assert n == q * d + n % d;
    if n % d == 0 {
      if c < q { MulStrict(c, q, d); } else { MulMono(q, c, d); }
    } else {
      assert (q + 1) * d == q * d + d;
      if c <= q { MulMono(c, q, d); } else { MulMono(q + 1, c, d); }
    }
  }

  lemma SquareMono(x: nat, y: nat)
    ensures x <= y <==> x * x <= y * y
    ensures x < y <==> x * x < y * y
  {
    if x <= y { MulMono2(x, y, x, y); }
    if y <= x { MulMono2(y, x, y, x); }
    if x < y { MulStrict(x, y, y); MulMono(x, y, x); }
    if y < x { MulStrict(y, x, x); MulMono(y, x, y); }
  }
}
