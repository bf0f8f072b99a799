/** The TypeScript client's own arithmetic (`scripts/demo.ts`), over unbounded integers. */
module Client {
  import opened Results
  import opened Numeric
  import opened SquareRoot
  import opened AmmMath
  import opened SwapLaws
  import opened LiquidityLaws

  /** The client's Newton iteration over unbounded integers. */
  method NewtonSqrt(value: nat) returns (root: nat)
    ensures root == FloorSqrt(value)
  {
    if value < 2 {
      FloorRootUnique(value, FloorSqrt(value), value);
      return value;
    }
    root := value;
    var next := (root + 1) / 2;
    assert value / root == 1;
    NewtonStepAboveRoot(value, root);
    FloorSqrtIsGreatest(value, 1);
    FloorRootBelow(value);
    while next < root
      invariant 0 < FloorSqrt(value) <= root
      invariant next == (root + value / root) / 2
      invariant FloorSqrt(value) <= next
      decreases root
    {
      root := next;
      next := (root + value / root) / 2;
      NewtonStepAboveRoot(value, root);
    }
    FloorIsGreatest(value, root, root);
    FloorSqrtIsGreatest(value, root);
  }

  /** The client's first-deposit estimate is what the program mints to the depositor,
      whenever the program accepts the deposit. */
  method QuoteInitialLp(amountA: u64, amountB: u64) returns (lp: int)
    ensures lp == FloorSqrt(amountA * amountB) - MINIMUM_LIQUIDITY
    ensures InitialLiquidity(amountA, amountB).Ok? ==> lp == InitialLiquidity(amountA, amountB).value.lpToUser
  {
    MulIsNat(amountA, amountB);
    var root := NewtonSqrt(amountA * amountB);
    lp := root - MINIMUM_LIQUIDITY;
  }

  function QuoteSwapOut(amountIn: nat, reserveIn: nat, reserveOut: nat, feeBps: u16): nat
    requires feeBps <= FEE_DENOMINATOR && reserveIn > 0
  {
    MulIsNat(amountIn, FEE_DENOMINATOR - feeBps);
    var inWithFee: nat := amountIn * (FEE_DENOMINATOR - feeBps);
    MulIsNat(inWithFee, reserveOut);
    (inWithFee * reserveOut) / (reserveIn * FEE_DENOMINATOR + inWithFee)
  }

  function QuoteRemoveOut(lpAmount: nat, reserve: nat, lpSupply: nat): nat
    requires lpSupply > 0
  {
    MulIsNat(lpAmount, reserve);
    (lpAmount * reserve) / lpSupply
  }

  /** The client's swap estimate is what an accepted swap pays. */
  lemma ClientSwapAgrees(amountIn: u64, reserveIn: u64, reserveOut: u64, feeBps: u16)
    requires QuoteSwap(amountIn, reserveIn, reserveOut, feeBps).Ok?
    ensures feeBps <= FEE_DENOMINATOR && reserveIn > 0
    ensures QuoteSwap(amountIn, reserveIn, reserveOut, feeBps).value.amountOut
              == QuoteSwapOut(amountIn, reserveIn, reserveOut, feeBps)
  {
    QuoteSwapExact(amountIn, reserveIn, reserveOut, feeBps);
  }

  /** The client's withdrawal estimates are what an accepted withdrawal pays. */
  lemma ClientRemoveAgrees(lpAmount: u64, reserveA: u64, reserveB: u64, lpSupply: u64)
    requires QuoteRemoveLiquidity(lpAmount, reserveA, reserveB, lpSupply).Ok?
    ensures lpSupply > 0
    ensures QuoteRemoveLiquidity(lpAmount, reserveA, reserveB, lpSupply).value.amountA
              == QuoteRemoveOut(lpAmount, reserveA, lpSupply)
    ensures QuoteRemoveLiquidity(lpAmount, reserveA, reserveB, lpSupply).value.amountB
              == QuoteRemoveOut(lpAmount, reserveB, lpSupply)
  {
    QuoteRemoveExact(lpAmount, reserveA, reserveB, lpSupply);
  }
}
