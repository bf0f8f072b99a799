/** The pool's integer arithmetic (`programs/amm/src/math.rs`): checked u128
    intermediates, a cap of 10^15 on every amount, and rounding in the pool's favour. */
module AmmMath {
  import opened Results
  import opened Numeric
  import opened SquareRoot

  const FEE_DENOMINATOR: u128 := 10_000
  const MAX_FEE_BPS: u16 := 100
  const MINIMUM_LIQUIDITY: u64 := 1_000

  datatype MathError =
    | ZeroAmount
    | InvalidFee
    | InsufficientLiquidity
    | InsufficientInitialLiquidity
    | ZeroOutput
    | InvalidLiquidityState
    | ValueOutOfRange
    | MathOverflow

  datatype SwapQuote = SwapQuote(amountOut: u64, newReserveIn: u64, newReserveOut: u64)

  datatype InitialLiquidityQuote = InitialLiquidityQuote(lpToUser: u64, lpToLock: u64)

  datatype AddLiquidityQuote = AddLiquidityQuote(
    amountA: u64, amountB: u64, lpMinted: u64,
    newReserveA: u64, newReserveB: u64, newLpSupply: u64)

  datatype RemoveLiquidityQuote = RemoveLiquidityQuote(
    amountA: u64, amountB: u64,
    newReserveA: u64, newReserveB: u64, newLpSupply: u64)

  /** Digit-by-digit restoring square root over the whole u128 domain: it never
      overflows and returns the floor root. */
  method IntegerSqrt(value: u128) returns (r: Result<u128, MathError>)
    ensures r.Ok? && r.value == FloorSqrt(value)
  {
    if value < 2 {
      FloorRootUnique(value, FloorSqrt(value), value);
      return Ok(value);
    }

    var bit: u128 := 0x4000_0000_0000_0000_0000_0000_0000_0000;
    ghost var n: nat := 64;
    Pow2SixtyFour(n);
    ghost var top := n;
    while bit > value
      invariant 1 <= n <= top
      invariant bit == Pow2(n - 1) * Pow2(n - 1)
      invariant value < Pow2(n) * Pow2(n)
      decreases bit
    {
      QuarterOfSquare(n - 1);
      bit := bit / 4;
      n := n - 1;
    }

    var remainder: u128 := value;
    var root: u128 := 0;
    ghost var p: nat := 0;
    StartsRestoring(value, n - 1, bit);
    hide Restoring, IsFloorRoot;
    while bit != 0
      invariant Restoring(value, bit, remainder, root, p, n)
      decreases n
    {
      RestoringStep(value, bit, remainder, root, p, n);
      var candidate := CheckedAdd(root, bit);
      if candidate.None? {
        return Err(MathOverflow);
      }
      if remainder >= candidate.value {
        var rest := CheckedSub(remainder, candidate.value);
        if rest.None? {
          return Err(MathOverflow);
        }
        var grown := CheckedAdd(root / 2, bit);
        if grown.None? {
          return Err(MathOverflow);
        }
        remainder, root := rest.value, grown.value;
        p := p + Pow2(n - 1);
      } else {
        root := root / 2;
      }
      bit := bit / 4;
      n := n - 1;
    }
    RestoringDone(value, bit, remainder, root, p, n);
    return Ok(root);
  }

  function CeilDiv(numerator: u128, denominator: u128): Result<u128, MathError> {
    if denominator == 0 then Err(ZeroAmount)
    else
      DivIsBelow(numerator, denominator);
      var quotient: u128 := numerator / denominator;
      if numerator % denominator == 0 then Ok(quotient)
      else CheckedAdd(quotient, 1).OkOr(MathOverflow)
  }

  function Widen(value: u64): Result<u128, MathError> {
    if value > MAX_SUPPLY_CAP then Err(ValueOutOfRange) else Ok(value)
  }

  function Narrow(value: u128): Result<u64, MathError> {
    if value > U64_MAX then Err(ValueOutOfRange)
    else if value > MAX_SUPPLY_CAP then Err(ValueOutOfRange)
    else Ok(value)
  }

  function QuoteSwap(amountIn64: u64, reserveIn64: u64, reserveOut64: u64, feeBps: u16): Result<SwapQuote, MathError> {
    if amountIn64 == 0 then Err(ZeroAmount)
    else if reserveIn64 == 0 || reserveOut64 == 0 then Err(InsufficientLiquidity)
    else if feeBps > MAX_FEE_BPS then Err(InvalidFee)
    else
      var amountIn :- Widen(amountIn64);
      var reserveIn :- Widen(reserveIn64);
      var reserveOut :- Widen(reserveOut64);

      var feeMultiplier :- CheckedSub(FEE_DENOMINATOR, feeBps).OkOr(InvalidFee);
      var inWithFee :- CheckedMul(amountIn, feeMultiplier).OkOr(MathOverflow);
      var numerator :- CheckedMul(inWithFee, reserveOut).OkOr(MathOverflow);
      var scaledReserve :- CheckedMul(reserveIn, FEE_DENOMINATOR).OkOr(MathOverflow);
      var denominator :- CheckedAdd(scaledReserve, inWithFee).OkOr(MathOverflow);
      var amountOut :- CheckedDiv(numerator, denominator).OkOr(MathOverflow);

      if amountOut == 0 then Err(ZeroOutput)
      else if amountOut >= reserveOut then Err(InsufficientLiquidity)
      else
        var newReserveIn :- CheckedAdd(reserveIn, amountIn).OkOr(MathOverflow);
        var newReserveOut :- CheckedSub(reserveOut, amountOut).OkOr(MathOverflow);
        var oldK :- CheckedMul(reserveIn, reserveOut).OkOr(MathOverflow);
        var newK :- CheckedMul(newReserveIn, newReserveOut).OkOr(MathOverflow);
        if newK < oldK then Err(InvalidLiquidityState)
        else
          var out64 :- Narrow(amountOut);
          var in64 :- Narrow(newReserveIn);
          var rest64 :- Narrow(newReserveOut);
          Ok(SwapQuote(out64, in64, rest64))
  }

  /** What the first deposit is worth, in terms of the floor root alone. */
  function InitialLiquidity(amountA: u64, amountB: u64): Result<InitialLiquidityQuote, MathError> {
    if amountA == 0 || amountB == 0 then Err(ZeroAmount)
    else if amountA > MAX_SUPPLY_CAP || amountB > MAX_SUPPLY_CAP then Err(ValueOutOfRange)
    else
      MulIsNat(amountA, amountB);
      RootOfCappedProduct(amountA, amountB);
      var total := FloorSqrt(amountA * amountB);
      if total <= MINIMUM_LIQUIDITY then Err(InsufficientInitialLiquidity)
      else
        Ok(InitialLiquidityQuote(total - MINIMUM_LIQUIDITY, MINIMUM_LIQUIDITY))
  }

  lemma RootOfCappedProduct(a: nat, b: nat)
    requires a <= MAX_SUPPLY_CAP && b <= MAX_SUPPLY_CAP
    ensures FloorSqrt(a * b) <= MAX_SUPPLY_CAP
    ensures a * b <= U128_MAX
  {
    MulMono2(a, MAX_SUPPLY_CAP, b, MAX_SUPPLY_CAP);
    SquareMono(MAX_SUPPLY_CAP + 1, FloorSqrt(a * b));
  }

  method QuoteInitialLiquidity(amountA: u64, amountB: u64) returns (r: Result<InitialLiquidityQuote, MathError>)
    ensures r == InitialLiquidity(amountA, amountB)
  {
    if amountA == 0 || amountB == 0 {
      return Err(ZeroAmount);
    }
    var wideA :- Widen(amountA);
    var wideB :- Widen(amountB);
    RootOfCappedProduct(wideA, wideB);
    var product := CheckedMul(wideA, wideB);
    if product.None? {
      return Err(MathOverflow);
    }
    var root := IntegerSqrt(product.value);
    match root
    case Err(error) => return Err(error);
    case Ok(total) =>
      var locked: u128 := MINIMUM_LIQUIDITY;
      if total <= locked {
        return Err(InsufficientInitialLiquidity);
      }
      var toUser := CheckedSub(total, locked);
      if toUser.None? {
        return Err(MathOverflow);
      }
      var narrowed := Narrow(toUser.value);
      match narrowed
      case Err(error) => return Err(error);
      case Ok(lpToUser) => return Ok(InitialLiquidityQuote(lpToUser, MINIMUM_LIQUIDITY));
  }

  /** The amounts a later deposit takes: one side as desired, the other rounded up to the ratio. */
  function MatchDeposit(aDesired: u128, bDesired: u128, reserveA: u128, reserveB: u128)
      : Result<(u128, u128), MathError>
  {
    var scaledA :- CheckedMul(aDesired, reserveB).OkOr(MathOverflow);
    var bOptimal :- CeilDiv(scaledA, reserveA);
    if bOptimal <= bDesired then Ok((aDesired, bOptimal))
    else
      var scaledB :- CheckedMul(bDesired, reserveA).OkOr(MathOverflow);
      var aOptimal :- CeilDiv(scaledB, reserveB);
      if aOptimal > aDesired then Err(ValueOutOfRange) else Ok((aOptimal, bDesired))
  }

  /** The second half of a later deposit: the LP tokens earned, and the grown pool. */
  function MintShares(amountA: u128, amountB: u128, reserveA: u128, reserveB: u128, lpSupply: u128)
      : Result<AddLiquidityQuote, MathError>
  {
    var scaledA :- CheckedMul(amountA, lpSupply).OkOr(MathOverflow);
    var lpFromA :- CheckedDiv(scaledA, reserveA).OkOr(MathOverflow);
    var scaledB :- CheckedMul(amountB, lpSupply).OkOr(MathOverflow);
    var lpFromB :- CheckedDiv(scaledB, reserveB).OkOr(MathOverflow);
    var lpMinted: u128 := Min(lpFromA, lpFromB);
    if lpMinted == 0 then Err(ZeroOutput)
    else
      var a64 :- Narrow(amountA);
      var b64 :- Narrow(amountB);
      var lp64 :- Narrow(lpMinted);
      var grownA :- CheckedAdd(reserveA, amountA).OkOr(MathOverflow);
      var newA :- Narrow(grownA);
      var grownB :- CheckedAdd(reserveB, amountB).OkOr(MathOverflow);
      var newB :- Narrow(grownB);
      var grownLp :- CheckedAdd(lpSupply, lpMinted).OkOr(MathOverflow);
      var newLp :- Narrow(grownLp);
      Ok(AddLiquidityQuote(a64, b64, lp64, newA, newB, newLp))
  }

  function QuoteAddLiquidity(amountADesired: u64, amountBDesired: u64,
                             reserveA64: u64, reserveB64: u64, lpSupply64: u64)
      : Result<AddLiquidityQuote, MathError>
  {
    if amountADesired == 0 || amountBDesired == 0 then Err(ZeroAmount)
    else if reserveA64 == 0 || reserveB64 == 0 then Err(InsufficientLiquidity)
    else if lpSupply64 < MINIMUM_LIQUIDITY then Err(InvalidLiquidityState)
    else
      var aDesired :- Widen(amountADesired);
      var bDesired :- Widen(amountBDesired);
      var reserveA :- Widen(reserveA64);
      var reserveB :- Widen(reserveB64);
      var lpSupply :- Widen(lpSupply64);

      var (amountA, amountB) :- MatchDeposit(aDesired, bDesired, reserveA, reserveB);
      MintShares(amountA, amountB, reserveA, reserveB, lpSupply)
  }

  function QuoteRemoveLiquidity(lpAmount64: u64, reserveA64: u64, reserveB64: u64, lpSupply64: u64)
      : Result<RemoveLiquidityQuote, MathError>
  {
    if lpAmount64 == 0 then Err(ZeroAmount)
    else if reserveA64 == 0 || reserveB64 == 0 then Err(InsufficientLiquidity)
    else if lpSupply64 < MINIMUM_LIQUIDITY then Err(InvalidLiquidityState)
    else if lpAmount64 > lpSupply64 then Err(InsufficientLiquidity)
    else
      var lpAmount :- Widen(lpAmount64);
      var reserveA :- Widen(reserveA64);
      var reserveB :- Widen(reserveB64);
      var lpSupply :- Widen(lpSupply64);

      var remainingLp :- CheckedSub(lpSupply, lpAmount).OkOr(MathOverflow);
      if remainingLp < MINIMUM_LIQUIDITY then Err(InsufficientLiquidity)
      else
        var scaledA :- CheckedMul(lpAmount, reserveA).OkOr(MathOverflow);
        var amountA :- CheckedDiv(scaledA, lpSupply).OkOr(MathOverflow);
        var scaledB :- CheckedMul(lpAmount, reserveB).OkOr(MathOverflow);
        var amountB :- CheckedDiv(scaledB, lpSupply).OkOr(MathOverflow);
        if amountA == 0 || amountB == 0 then Err(ZeroOutput)
        else
          var a64 :- Narrow(amountA);
          var b64 :- Narrow(amountB);
          var shrunkA :- CheckedSub(reserveA, amountA).OkOr(MathOverflow);
          var newA :- Narrow(shrunkA);
          var shrunkB :- CheckedSub(reserveB, amountB).OkOr(MathOverflow);
          var newB :- Narrow(shrunkB);
          var newLp :- Narrow(remainingLp);
          Ok(RemoveLiquidityQuote(a64, b64, newA, newB, newLp))
  }
}
