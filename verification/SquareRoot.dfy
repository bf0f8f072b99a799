/** The floor square root, defined once, and the step lemmas of the two algorithms
    that compute it: the on-chain restoring root and the client's Newton iteration. */
module SquareRoot {
  import opened Numeric

  ghost predicate IsFloorRoot(r: nat, value: nat) {
    r * r <= value < (r + 1) * (r + 1)
  }

  function FloorSqrt(value: nat): (r: nat)
    ensures IsFloorRoot(r, value)
  {
    if value == 0 then 0
    else
      var r := FloorSqrt(value - 1);
      if (r + 1) * (r + 1) <= value then r + 1 else r
  }

  lemma FloorRootUnique(r: nat, s: nat, value: nat)
    requires IsFloorRoot(r, value) && IsFloorRoot(s, value)
    ensures r == s
  {
    SquareMono(r + 1, s);
    SquareMono(s + 1, r);
  }

  /** Floor roots compare like squares: `s <= root(value)` exactly when `s * s <= value`. */
  lemma FloorSqrtIsGreatest(value: nat, s: nat)
    ensures s <= FloorSqrt(value) <==> s * s <= value
  {
    var r := FloorSqrt(value);
    SquareMono(s, r);
    SquareMono(r + 1, s);
  }

  function Pow2(n: nat): (p: nat)
    ensures p >= 1
  {
    if n == 0 then 1 else 2 * Pow2(n - 1)
  }

  lemma QuarterOfSquare(n: nat)
    ensures n > 0 ==> (Pow2(n) * Pow2(n)) / 4 == Pow2(n - 1) * Pow2(n - 1)
    ensures n == 0 ==> (Pow2(n) * Pow2(n)) / 4 == 0
  {
    if n > 0 {
      var h := Pow2(n - 1);
      assert (2 * h) * (2 * h) == 4 * (h * h);
    }
  }

  /** Eight doublings. */
  lemma Pow2Eight(n: nat, p: nat)
    requires Pow2(n) == p
    ensures Pow2(n + 8) == 256 * p
  {
    assert Pow2(n + 2) == 2 * Pow2(n + 1) && Pow2(n + 3) == 2 * Pow2(n + 2);
    assert Pow2(n + 4) == 2 * Pow2(n + 3) && Pow2(n + 5) == 2 * Pow2(n + 4);
    assert Pow2(n + 6) == 2 * Pow2(n + 5) && Pow2(n + 7) == 2 * Pow2(n + 6);
  }

  const TWO_TO_64: nat := 0x1_0000_0000_0000_0000

  lemma Pow2SixtyFour(n: nat)
    requires n == 64
    ensures Pow2(n) == TWO_TO_64 == 2 * Pow2(n - 1)
    ensures Pow2(n - 1) * Pow2(n - 1) == 0x4000_0000_0000_0000_0000_0000_0000_0000
    ensures TWO_TO_64 * TWO_TO_64 == U128_MAX + 1
  {
    var z := n - 64;
    Pow2Eight(z, 1);
    Pow2Eight(z + 8, 0x100);
    Pow2Eight(z + 16, 0x1_0000);
    Pow2Eight(z + 24, 0x100_0000);
    Pow2Eight(z + 32, 0x1_0000_0000);
    Pow2Eight(z + 40, 0x100_0000_0000);
    Pow2Eight(z + 48, 0x1_0000_0000_0000);
    Pow2Eight(z + 56, 0x100_0000_0000_0000);
  }

  /** The restoring root's loop state when `n` binary digits remain: `p` is the root
      found so far, and the true root lies in `p .. p + 2^n`. */
  ghost predicate Restoring(value: u128, bit: int, remainder: int, root: int, p: nat, n: nat) {
    && bit == (if n == 0 then 0 else Pow2(n - 1) * Pow2(n - 1))
    && root == p * Pow2(n)
    && p * p <= value < (p + Pow2(n)) * (p + Pow2(n))
    && remainder == value - p * p
    && p + Pow2(n) <= TWO_TO_64
  }

  /** The arithmetic of one digit, with `root == p * (2 * h)` and `bit == h * h`. */
  lemma RestoringDigit(p: nat, h: nat, limit: nat)
    requires h > 0 && p + 2 * h <= limit
    ensures p * (2 * h) + h * h == (p + h) * (p + h) - p * p
    ensures (p * (2 * h)) / 2 == p * h
    ensures p * h + h * h == (p + h) * h
    ensures (p + h) * h <= (p + h) * (p + h) <= (limit - 1) * (limit - 1)
    ensures 0 <= p * p && 0 <= p * h && 0 <= h * h
  {
    assert p * (2 * h) == 2 * (p * h);
    MulMono(h, p + h, p + h);
    MulMono2(p + h, limit - 1, p + h, limit - 1);
  }

  /** One turn of the loop: nothing overflows, and either way a digit is settled. */
  lemma RestoringStep(value: u128, bit: int, remainder: int, root: int, p: nat, n: nat)
    requires n > 0 && Restoring(value, bit, remainder, root, p, n)
    ensures 0 <= root / 2 && root + bit <= U128_MAX && root / 2 + bit <= U128_MAX
    ensures remainder >= root + bit ==>
              Restoring(value, bit / 4, remainder - (root + bit), root / 2 + bit, p + Pow2(n - 1), n - 1)
    ensures remainder < root + bit ==>
              Restoring(value, bit / 4, remainder, root / 2, p, n - 1)
  {
    var h := Pow2(n - 1);
    assert Pow2(n) == 2 * h;
    RestoringDigit(p, h, TWO_TO_64);
    QuarterOfSquare(n - 1);
    assert (p + h) + h == p + 2 * h;
  }

  /** The candidates the loop forms from a given state on. */
  ghost function Candidates(bit: nat, remainder: int, root: int): seq<int> {
    if bit == 0 then []
    else
      var c := root + bit;
      [c] + (if remainder >= c then Candidates(bit / 4, remainder - c, root / 2 + bit)
             else Candidates(bit / 4, remainder, root / 2))
  }

  ghost predicate AllBelow(candidates: seq<int>, value: int) {
    forall c :: c in candidates ==> c < value
  }

  /** The source comments that every intermediate of the root stays below `value`. It does
      not: for 4, the loop starts with `bit == 4` and its candidates are 4 and 5. */
  lemma CandidateCanExceedValue()
    ensures Candidates(4, 4, 0) == [4, 5]
  {
    assert Candidates(1, 0, 4) == [5] + Candidates(0, 0, 2);
  }

  /** Exactly when the comment is right: the loop starts at the largest power of four
      within `value`, and its candidates all stay below `value` if and only if `value` is
      more than five quarters of that power. */
  lemma CandidatesStayBelowIff(value: u128, k: nat, bit: nat)
    requires value >= 2 && k < 64 && bit == Pow2(k) * Pow2(k)
    requires bit <= value < Pow2(k + 1) * Pow2(k + 1)
    ensures AllBelow(Candidates(bit, value, 0), value) <==> 4 * value > 5 * bit
  {
    StartsRestoring(value, k, bit);
    RestoringStep(value, bit, value, 0, 0, k + 1);
    QuarterOfSquare(k);
    var later := Candidates(bit / 4, value - bit, bit);
    assert Candidates(bit, value, 0) == [bit] + later;
    if k == 0 {
      assert later == [];
    } else {
      SecondCandidate(value, k, bit / 4, value - bit, bit);
      BelowFirst(bit, later, value);
      BelowFirst(later[0], later[1..], value);
      assert later == [later[0]] + later[1..];
      PowerQuarter(k, bit);
    }
  }

  lemma BelowFirst(c: int, rest: seq<int>, value: int)
    ensures AllBelow([c] + rest, value) <==> c < value && AllBelow(rest, value)
  {
    assert c in [c] + rest;
    assert forall x :: x in rest ==> x in [c] + rest;
  }

  lemma PowerQuarter(k: nat, bit: nat)
    requires k > 0 && bit == Pow2(k) * Pow2(k)
    ensures bit == 4 * (bit / 4) && bit / 4 > 0
  {
    var h := Pow2(k - 1);
    assert bit == 4 * (h * h);
    MulStrict(0, h, h);
  }

  /** With its first digit settled, the loop has one candidate left that can be too large. */
  lemma SecondCandidate(value: u128, k: nat, bit: nat, remainder: int, root: int)
    requires k > 0 && Restoring(value, bit, remainder, root, Pow2(k), k)
    ensures var s := Candidates(bit, remainder, root);
      s != [] && s[0] == root + bit && AllBelow(s[1..], value)
  {
    var h := Pow2(k - 1);
    MulStrict(0, h, h);
    RestoringStep(value, bit, remainder, root, Pow2(k), k);
    assert bit > 0;
    hide Restoring, AllBelow;
    var c := root + bit;
    if remainder >= c {
      LateCandidatesStayBelow(value, bit / 4, remainder - c, root / 2 + bit, Pow2(k) + h, k - 1);
    } else {
      LateCandidatesStayBelow(value, bit / 4, remainder, root / 2, Pow2(k), k - 1);
    }
  }

  lemma StartsRestoring(value: u128, k: nat, bit: nat)
    requires k < 64 && bit == Pow2(k) * Pow2(k)
    requires value < Pow2(k + 1) * Pow2(k + 1)
    ensures Restoring(value, bit, value, 0, 0, k + 1)
  {
    Pow2SixtyFour(64);
    Pow2Mono(k + 1, 64);
  }

  /** From the third candidate on, two digits have been settled and none reaches `value`. */
  lemma {:induction false} LateCandidatesStayBelow(value: u128, bit: nat, remainder: int, root: int, p: nat, n: nat)
    requires Restoring(value, bit, remainder, root, p, n) && p >= Pow2(n + 1)
    ensures AllBelow(Candidates(bit, remainder, root), value)
    decreases n
  {
    if n == 0 {
      assert Candidates(bit, remainder, root) == [];
    } else {
      var h := Pow2(n - 1);
      RestoringStep(value, bit, remainder, root, p, n);
      LateCandidate(p, h, value);
      var c := root + bit;
      if remainder >= c {
        LateCandidatesStayBelow(value, bit / 4, remainder - c, root / 2 + bit, p + h, n - 1);
      } else {
        LateCandidatesStayBelow(value, bit / 4, remainder, root / 2, p, n - 1);
      }
    }
  }

  lemma LateCandidate(p: nat, h: nat, value: nat)
    requires h > 0 && p >= 4 * h && p * p <= value
    ensures p * (2 * h) + h * h < value
  {
    assert p * (2 * h) == 2 * (p * h);
    MulMono(4 * h, p, p);
    MulMono(4 * h, p, h);
    assert (4 * h) * p == 4 * (p * h) && (4 * h) * h == 4 * (h * h);
    MulStrict(0, h, h);
  }

  lemma RestoringDone(value: u128, bit: int, remainder: int, root: int, p: nat, n: nat)
    requires bit == 0 && Restoring(value, bit, remainder, root, p, n)
    ensures root == FloorSqrt(value)
  {
    if n > 0 {
      MulMono2(1, Pow2(n - 1), 1, Pow2(n - 1));
    }
    assert n == 0 && Pow2(n) == 1;
    FloorRootUnique(p, FloorSqrt(value), value);
  }

  lemma {:induction false} Pow2Mono(m: nat, n: nat)
    requires m <= n
    ensures Pow2(m) <= Pow2(n)
    decreases n
  {
    if m < n {
      Pow2Mono(m, n - 1);
    }
  }

  lemma ArithmeticGeometric(s: int, root: int)
    ensures (2 * s - root) * root <= s * s
  {
    var d := s - root;
    calc {
      s * s;
      { Distribute(root, d, s); Distribute(root, d, root); Distribute(root, d, d); }
      root * root + 2 * (d * root) + d * d;
      >= { SquareIsNat(d); }
      root * root + 2 * (d * root);
      { Assoc(2, d, root); Distribute(root, 2 * d, root); }
      (2 * s - root) * root;
    }
  }

  /** A Newton step from a positive estimate never undershoots the floor root. */
  lemma NewtonStepAboveRoot(value: nat, root: nat)
    requires root > 0
    ensures FloorSqrt(value) <= (root + value / root) / 2
  {
    var s := FloorSqrt(value);
    ArithmeticGeometric(s, root);
    FloorIsGreatest(value, root, 2 * s - root);
  }

  lemma FloorRootBelow(value: nat)
    ensures FloorSqrt(value) <= value
  {
    var s := FloorSqrt(value);
    if s > 0 {
      MulMono(1, s, s);
    }
  }
}
