/** What a swap quote means: its exact value, when it fails, and how swaps compose. */
module SwapLaws {
  import opened Results
  import opened Numeric
  import opened AmmMath

  function InWithFee(amountIn: nat, feeBps: u16): nat
    requires feeBps <= MAX_FEE_BPS
  {
    MulIsNat(amountIn, FEE_DENOMINATOR - feeBps);
    amountIn * (FEE_DENOMINATOR - feeBps)
  }

  /** Paying out `y` keeps the fee-adjusted product at least where it was, the fee being
      `feeBps` parts in 10_000 of the input. */
  ghost predicate Affordable(amountIn: nat, reserveIn: nat, reserveOut: nat, feeBps: u16, y: int)
    requires feeBps <= MAX_FEE_BPS
  {
    (reserveIn * 10_000 + amountIn * (10_000 - feeBps)) * (reserveOut - y) >= reserveIn * 10_000 * reserveOut
  }

  /** The greatest affordable payout. */
  function SwapOut(amountIn: nat, reserveIn: nat, reserveOut: nat, feeBps: u16): (y: nat)
    requires feeBps <= MAX_FEE_BPS && reserveIn > 0
  {
    var c := InWithFee(amountIn, feeBps);
    MulIsNat(c, reserveOut);
    c * reserveOut / (reserveIn * FEE_DENOMINATOR + c)
  }

  lemma SwapOutIsGreatestAffordable(amountIn: nat, reserveIn: nat, reserveOut: nat, feeBps: u16, y: int)
    requires feeBps <= MAX_FEE_BPS && reserveIn > 0
    ensures y <= SwapOut(amountIn, reserveIn, reserveOut, feeBps)
       <==> Affordable(amountIn, reserveIn, reserveOut, feeBps, y)
  {
    var c := InWithFee(amountIn, feeBps);
    var p := reserveIn * FEE_DENOMINATOR;
    MulIsNat(c, reserveOut);
    FloorIsGreatest(c * reserveOut, p + c, y);
    assert (p + c) * (reserveOut - y) == p * reserveOut + c * reserveOut - y * (p + c);
  }

  /** Below the full output reserve, whatever the input. */
  lemma SwapOutBelowReserve(amountIn: nat, reserveIn: nat, reserveOut: nat, feeBps: u16)
    requires feeBps <= MAX_FEE_BPS && reserveIn > 0 && reserveOut > 0
    ensures SwapOut(amountIn, reserveIn, reserveOut, feeBps) < reserveOut
  {
    SwapOutIsGreatestAffordable(amountIn, reserveIn, reserveOut, feeBps, reserveOut);
    MulStrict(0, reserveIn * FEE_DENOMINATOR, reserveOut);
  }

  /** `k` never falls, and rises whenever a fee is charged. */
  lemma AffordableKeepsProduct(amountIn: nat, reserveIn: nat, reserveOut: nat, feeBps: u16, y: nat)
    requires feeBps <= MAX_FEE_BPS && y <= reserveOut
    requires Affordable(amountIn, reserveIn, reserveOut, feeBps, y)
    ensures (reserveIn + amountIn) * (reserveOut - y) >= reserveIn * reserveOut
    ensures feeBps > 0 && amountIn > 0 && y < reserveOut ==>
              (reserveIn + amountIn) * (reserveOut - y) > reserveIn * reserveOut
  {
    var c := InWithFee(amountIn, feeBps);
    var whole := FEE_DENOMINATOR * (reserveIn + amountIn);
    var k := reserveIn * reserveOut;
    var k' := (reserveIn + amountIn) * (reserveOut - y);
    MulMono(FEE_DENOMINATOR - feeBps, FEE_DENOMINATOR, amountIn);
    MulMono(reserveIn * FEE_DENOMINATOR + c, whole, reserveOut - y);
    assert whole * (reserveOut - y) == FEE_DENOMINATOR * k';
    assert reserveIn * FEE_DENOMINATOR * reserveOut == FEE_DENOMINATOR * k;
    if feeBps > 0 && amountIn > 0 && y < reserveOut {
      MulStrict(FEE_DENOMINATOR - feeBps, FEE_DENOMINATOR, amountIn);
      MulStrict(reserveIn * FEE_DENOMINATOR + c, whole, reserveOut - y);
    }
  }

  /** The cap keeps every u128 intermediate of a swap in range. */
  lemma SwapIntermediatesFit(amountIn: nat, reserveIn: nat, reserveOut: nat, rest: nat, feeBps: u16)
    requires feeBps <= MAX_FEE_BPS && rest <= reserveOut
    requires amountIn <= MAX_SUPPLY_CAP && reserveIn <= MAX_SUPPLY_CAP && reserveOut <= MAX_SUPPLY_CAP
    ensures 0 <= InWithFee(amountIn, feeBps) <= MAX_SUPPLY_CAP * FEE_DENOMINATOR
    ensures 0 <= InWithFee(amountIn, feeBps) * reserveOut <= U128_MAX
    ensures 0 <= reserveIn * FEE_DENOMINATOR <= MAX_SUPPLY_CAP * FEE_DENOMINATOR
    ensures 0 <= reserveIn * reserveOut <= U128_MAX
    ensures 0 <= (reserveIn + amountIn) * rest <= U128_MAX
  {
    MulMono2(amountIn, MAX_SUPPLY_CAP, FEE_DENOMINATOR - feeBps, FEE_DENOMINATOR);
    CappedProduct(InWithFee(amountIn, feeBps), reserveOut);
    CappedProduct(reserveIn, reserveOut);
    CappedProduct(reserveIn + amountIn, rest);
  }

  lemma CappedProduct(x: nat, y: nat)
    requires x <= MAX_SUPPLY_CAP * FEE_DENOMINATOR && y <= MAX_SUPPLY_CAP
    ensures 0 <= x * y <= U128_MAX
  {
    MulMono2(x, MAX_SUPPLY_CAP * FEE_DENOMINATOR, y, MAX_SUPPLY_CAP);
    MulIsNat(x, y);
  }

  /** When a swap quote succeeds, apart from rounding to nothing. */
  ghost predicate SwapInRange(amountIn: u64, reserveIn: u64, reserveOut: u64, feeBps: u16) {
    && amountIn > 0 && reserveIn > 0 && reserveOut > 0 && feeBps <= MAX_FEE_BPS
    && reserveIn + amountIn <= MAX_SUPPLY_CAP && reserveOut <= MAX_SUPPLY_CAP
  }

  /** For all machine inputs: a swap quote succeeds exactly when its inputs are in range
      and some positive payout is affordable; it then pays the greatest affordable one.
      It never overflows, its product check never fires, and the only way it reports
      missing liquidity is an empty reserve. */
  lemma QuoteSwapExact(amountIn: u64, reserveIn: u64, reserveOut: u64, feeBps: u16)
    ensures var r := QuoteSwap(amountIn, reserveIn, reserveOut, feeBps);
      && (r.Ok? <==> SwapInRange(amountIn, reserveIn, reserveOut, feeBps)
                     && Affordable(amountIn, reserveIn, reserveOut, feeBps, 1))
      && (r.Ok? ==>
            && r.value.amountOut == SwapOut(amountIn, reserveIn, reserveOut, feeBps)
            && 1 <= r.value.amountOut < reserveOut
            && r.value.newReserveIn == reserveIn + amountIn
            && r.value.newReserveOut == reserveOut - r.value.amountOut)
      && (r.Err? ==> r.error != MathOverflow && r.error != InvalidLiquidityState)
      && (r == Err(InsufficientLiquidity) <==> amountIn > 0 && (reserveIn == 0 || reserveOut == 0))
  {
    if amountIn > 0 && reserveIn > 0 && reserveOut > 0 && feeBps <= MAX_FEE_BPS {
      SwapOutIsGreatestAffordable(amountIn, reserveIn, reserveOut, feeBps, 1);
      SwapOutBelowReserve(amountIn, reserveIn, reserveOut, feeBps);
      var y := SwapOut(amountIn, reserveIn, reserveOut, feeBps);
      SwapOutIsGreatestAffordable(amountIn, reserveIn, reserveOut, feeBps, y);
      AffordableKeepsProduct(amountIn, reserveIn, reserveOut, feeBps, y);
      if amountIn <= MAX_SUPPLY_CAP && reserveIn <= MAX_SUPPLY_CAP && reserveOut <= MAX_SUPPLY_CAP {
        SwapIntermediatesFit(amountIn, reserveIn, reserveOut, reserveOut - y, feeBps);
      }
    }
  }

  /** The rate in plain numbers, for all machine inputs. A quote succeeds exactly when the
      fee is at most 100 parts in 10_000, the reserves and the input fit under 10^15 and one
      unit can be paid; its output is then the greatest whose payment keeps the product
      after charging `feeBps` parts in 10_000 of the input. */
  lemma SwapAtTheStatedRate(amountIn: u64, reserveIn: u64, reserveOut: u64, feeBps: u16, y: int)
    ensures QuoteSwap(amountIn, reserveIn, reserveOut, feeBps).Ok? <==>
              && amountIn > 0 && reserveIn > 0 && reserveOut > 0 && feeBps <= 100
              && reserveIn + amountIn <= 1_000_000_000_000_000 && reserveOut <= 1_000_000_000_000_000
              && (reserveIn * 10_000 + amountIn * (10_000 - feeBps)) * (reserveOut - 1)
                   >= reserveIn * 10_000 * reserveOut
    ensures QuoteSwap(amountIn, reserveIn, reserveOut, feeBps).Ok? ==>
              (y <= QuoteSwap(amountIn, reserveIn, reserveOut, feeBps).value.amountOut <==>
               (reserveIn * 10_000 + amountIn * (10_000 - feeBps)) * (reserveOut - y)
                 >= reserveIn * 10_000 * reserveOut)
  {
    QuoteSwapExact(amountIn, reserveIn, reserveOut, feeBps);
    if amountIn > 0 && reserveIn > 0 && reserveOut > 0 && feeBps <= MAX_FEE_BPS {
      SwapOutIsGreatestAffordable(amountIn, reserveIn, reserveOut, feeBps, y);
    }
  }

  // ----- several swaps in a row

  /** Two payouts, one after the other, are affordable together: the arithmetic of
      splitting, with `p` the fee-adjusted input side after the first swap and `q`
      the (larger) true one. */
  lemma MergePayouts(base: nat, p: nat, q: nat, c: nat, ro: nat, r1: nat, r2: nat)
    requires p <= q && r2 <= r1
    requires p * r1 >= base * ro
    requires (q + c) * r2 >= q * r1
    ensures (p + c) * r2 >= base * ro
  {
    MulMono(r2, r1, q - p);
    assert (p + c) * r2 == (q + c) * r2 - (q - p) * r2;
    assert q * r1 - (q - p) * r1 == p * r1;
  }

  lemma TwoSwapsMerge(x: nat, y: nat, reserveIn: nat, reserveOut: nat, feeBps: u16, paidX: nat, paidY: nat)
    requires feeBps <= MAX_FEE_BPS && paidX + paidY <= reserveOut
    requires Affordable(x, reserveIn, reserveOut, feeBps, paidX)
    requires Affordable(y, reserveIn + x, reserveOut - paidX, feeBps, paidY)
    ensures Affordable(x + y, reserveIn, reserveOut, feeBps, paidX + paidY)
  {
    var m := FEE_DENOMINATOR - feeBps;
    MulMono(m, FEE_DENOMINATOR, x);
    assert (x + y) * m == x * m + y * m;
    MergePayouts(reserveIn * FEE_DENOMINATOR,
                 reserveIn * FEE_DENOMINATOR + InWithFee(x, feeBps),
                 (reserveIn + x) * FEE_DENOMINATOR,
                 InWithFee(y, feeBps),
                 reserveOut, reserveOut - paidX, reserveOut - paidX - paidY);
  }

  /** Consecutive swaps in one direction; the quote's `amountOut` is the total paid. */
  function SwapAll(amounts: seq<u64>, reserveIn: u64, reserveOut: u64, feeBps: u16)
      : Result<(nat, u64, u64), MathError>
  {
    if amounts == [] then Ok((0, reserveIn, reserveOut))
    else
      var first :- QuoteSwap(amounts[0], reserveIn, reserveOut, feeBps);
      var (paid, newIn, newOut) :- SwapAll(amounts[1..], first.newReserveIn, first.newReserveOut, feeBps);
      Ok((first.amountOut + paid, newIn, newOut))
  }

  /** A successful list of swaps pays, in all, something affordable for its total input. */
  lemma {:induction false} SwapAllAffordable(amounts: seq<u64>, reserveIn: u64, reserveOut: u64, feeBps: u16)
    requires amounts != [] && SwapAll(amounts, reserveIn, reserveOut, feeBps).Ok?
    ensures var (paid, newIn, newOut) := SwapAll(amounts, reserveIn, reserveOut, feeBps).value;
      && SwapInRange(amounts[0], reserveIn, reserveOut, feeBps)
      && newIn == reserveIn + Sum(amounts) <= MAX_SUPPLY_CAP
      && newOut == reserveOut - paid && paid >= 1
      && Affordable(Sum(amounts), reserveIn, reserveOut, feeBps, paid)
    decreases |amounts|
  {
    var first := QuoteSwap(amounts[0], reserveIn, reserveOut, feeBps).value;
    var rest := amounts[1..];
    QuoteSwapExact(amounts[0], reserveIn, reserveOut, feeBps);
    SwapOutIsGreatestAffordable(amounts[0], reserveIn, reserveOut, feeBps, first.amountOut);
    if rest == [] {
      assert Sum(amounts) == amounts[0];
    } else {
      SwapAllAffordable(rest, first.newReserveIn, first.newReserveOut, feeBps);
      var (paid, _, _) := SwapAll(rest, first.newReserveIn, first.newReserveOut, feeBps).value;
      TwoSwapsMerge(amounts[0], Sum(rest), reserveIn, reserveOut, feeBps, first.amountOut, paid);
    }
  }

  /** Splitting never helps: if any list of same-direction swaps all succeed, the single
      swap of their sum succeeds too, ends at the same input reserve, and pays at least
      as much, at any fee and despite flooring each step. */
  lemma SplittingNeverHelps(amounts: seq<u64>, reserveIn: u64, reserveOut: u64, feeBps: u16)
    requires amounts != [] && SwapAll(amounts, reserveIn, reserveOut, feeBps).Ok?
    ensures Sum(amounts) <= U64_MAX
    ensures var (paid, newIn, newOut) := SwapAll(amounts, reserveIn, reserveOut, feeBps).value;
      var whole := QuoteSwap(Sum(amounts), reserveIn, reserveOut, feeBps);
      && whole.Ok?
      && whole.value.newReserveIn == newIn
      && whole.value.amountOut >= paid
  {
    SwapAllAffordable(amounts, reserveIn, reserveOut, feeBps);
    var (paid, _, _) := SwapAll(amounts, reserveIn, reserveOut, feeBps).value;
    QuoteSwapExact(Sum(amounts), reserveIn, reserveOut, feeBps);
    SwapOutIsGreatestAffordable(Sum(amounts), reserveIn, reserveOut, feeBps, paid);
    SwapOutIsGreatestAffordable(Sum(amounts), reserveIn, reserveOut, feeBps, 1);
  }

  /** Swapping out and straight back never returns more than went in, and returns
      strictly less when there is a fee. */
  lemma RoundTripNeverProfits(amountIn: u64, reserveIn: u64, reserveOut: u64, feeBps: u16)
    requires QuoteSwap(amountIn, reserveIn, reserveOut, feeBps).Ok?
    ensures var there := QuoteSwap(amountIn, reserveIn, reserveOut, feeBps).value;
      var back := QuoteSwap(there.amountOut, there.newReserveOut, there.newReserveIn, feeBps);
      back.Ok? ==> back.value.amountOut <= amountIn && (feeBps > 0 ==> back.value.amountOut < amountIn)
  {
    QuoteSwapExact(amountIn, reserveIn, reserveOut, feeBps);
    var out := SwapOut(amountIn, reserveIn, reserveOut, feeBps);
    SwapOutIsGreatestAffordable(amountIn, reserveIn, reserveOut, feeBps, out);
    QuoteSwapExact(out, reserveOut - out, reserveIn + amountIn, feeBps);
    var back := SwapOut(out, reserveOut - out, reserveIn + amountIn, feeBps);
    SwapOutIsGreatestAffordable(out, reserveOut - out, reserveIn + amountIn, feeBps, back);
    SwapOutBelowReserve(out, reserveOut - out, reserveIn + amountIn, feeBps);
    ReturnTrip(amountIn, reserveIn, reserveOut, feeBps, out, back);
  }

  lemma ReturnTrip(amountIn: nat, reserveIn: nat, reserveOut: nat, feeBps: u16, out: nat, back: nat)
    requires feeBps <= MAX_FEE_BPS && amountIn > 0 && 0 < out < reserveOut && back < reserveIn + amountIn
    requires Affordable(amountIn, reserveIn, reserveOut, feeBps, out)
    requires Affordable(out, reserveOut - out, reserveIn + amountIn, feeBps, back)
    ensures back <= amountIn && (feeBps > 0 ==> back < amountIn)
  {
    AffordableKeepsProduct(amountIn, reserveIn, reserveOut, feeBps, out);
    AffordableKeepsProduct(out, reserveOut - out, reserveIn + amountIn, feeBps, back);
    ProductsChain(reserveIn, reserveOut, reserveIn + amountIn, reserveOut - out, reserveIn + amountIn - back);
  }

  lemma ProductsChain(a: nat, b: nat, c: nat, d: nat, e: int)
    requires b > 0 && a * b <= c * d && d * c <= b * e
    ensures a <= e
    ensures a * b < c * d ==> a < e
  {
    assert c * d == d * c && b * e == e * b;
    Cancel(a, e, b);
    if a * b < c * d {
      CancelStrict(a, e, b);
    }
  }

  // ----- price against size

  /** The rounding loss of a swap, in units of 1/denominator of an output token. */
  function Lost(amountIn: nat, reserveIn: nat, reserveOut: nat, feeBps: u16): nat
    requires feeBps <= MAX_FEE_BPS && reserveIn > 0
  {
    MulIsNat(InWithFee(amountIn, feeBps), reserveOut);
    InWithFee(amountIn, feeBps) * reserveOut % Denominator(amountIn, reserveIn, feeBps)
  }

  function Denominator(amountIn: nat, reserveIn: nat, feeBps: u16): nat
    requires feeBps <= MAX_FEE_BPS
  {
    reserveIn * FEE_DENOMINATOR + InWithFee(amountIn, feeBps)
  }

  /** A larger swap pays at least as much in all, and its price per unit is better by
      less than one output unit on the smaller swap. */
  lemma LargerSwapPrice(small: u64, large: u64, reserveIn: u64, reserveOut: u64, feeBps: u16)
    requires small < large
    requires QuoteSwap(small, reserveIn, reserveOut, feeBps).Ok?
    requires QuoteSwap(large, reserveIn, reserveOut, feeBps).Ok?
    ensures var paidSmall := QuoteSwap(small, reserveIn, reserveOut, feeBps).value.amountOut;
      var paidLarge := QuoteSwap(large, reserveIn, reserveOut, feeBps).value.amountOut;
      && paidSmall <= paidLarge
      && paidLarge * small < (paidSmall + 1) * large
  {
    QuoteSwapExact(small, reserveIn, reserveOut, feeBps);
    QuoteSwapExact(large, reserveIn, reserveOut, feeBps);
    SizesCompare(small, large, reserveIn, reserveOut, feeBps);
  }

  lemma SizesCompare(small: nat, large: nat, reserveIn: nat, reserveOut: nat, feeBps: u16)
    requires 0 < small < large && feeBps <= MAX_FEE_BPS && reserveIn > 0 && reserveOut > 0
    ensures var s := SwapOut(small, reserveIn, reserveOut, feeBps);
      var l := SwapOut(large, reserveIn, reserveOut, feeBps);
      s <= l && l * small < (s + 1) * large
  {
    var s, l := SwapOut(small, reserveIn, reserveOut, feeBps), SwapOut(large, reserveIn, reserveOut, feeBps);
    MulMono(small, large, FEE_DENOMINATOR - feeBps);
    LargerInputAffordsMore(small, large, reserveIn, reserveOut, feeBps, s);
    SwapOutFloor(small, reserveIn, reserveOut, feeBps);
    SwapOutFloor(large, reserveIn, reserveOut, feeBps);
    PricesCompare(small, large, s, l, Denominator(small, reserveIn, feeBps), Denominator(large, reserveIn, feeBps),
                  (FEE_DENOMINATOR - feeBps) * reserveOut);
  }

  lemma LargerInputAffordsMore(small: nat, large: nat, reserveIn: nat, reserveOut: nat, feeBps: u16, s: nat)
    requires small < large && feeBps <= MAX_FEE_BPS && reserveIn > 0 && reserveOut > 0
    requires s == SwapOut(small, reserveIn, reserveOut, feeBps)
    ensures s <= SwapOut(large, reserveIn, reserveOut, feeBps)
  {
    SwapOutBelowReserve(small, reserveIn, reserveOut, feeBps);
    SwapOutIsGreatestAffordable(small, reserveIn, reserveOut, feeBps, s);
    SwapOutIsGreatestAffordable(large, reserveIn, reserveOut, feeBps, s);
    hide SwapOut;
    MulMono(small, large, FEE_DENOMINATOR - feeBps);
    MulMono(Denominator(small, reserveIn, feeBps), Denominator(large, reserveIn, feeBps), reserveOut - s);
  }

  lemma SwapOutFloor(amountIn: nat, reserveIn: nat, reserveOut: nat, feeBps: u16)
    requires feeBps <= MAX_FEE_BPS && reserveIn > 0
    ensures var y := SwapOut(amountIn, reserveIn, reserveOut, feeBps);
      y * Denominator(amountIn, reserveIn, feeBps)
        <= amountIn * ((FEE_DENOMINATOR - feeBps) * reserveOut)
         < (y + 1) * Denominator(amountIn, reserveIn, feeBps)
  {
    var m := FEE_DENOMINATOR - feeBps;
    MulIsNat(amountIn, m);
    MulIsNat(amountIn * m, reserveOut);
    FloorIsGreatest(amountIn * m * reserveOut, Denominator(amountIn, reserveIn, feeBps), 0);
    Assoc(amountIn, m, reserveOut);
  }

  lemma PricesCompare(small: nat, large: nat, s: nat, l: nat, ds: nat, dl: nat, u: nat)
    requires 0 < small < large && 0 < ds <= dl
    requires small * u < (s + 1) * ds && l * dl <= large * u
    ensures l * small < (s + 1) * large
  {
    calc {
      (l * small) * ds;
      { Commute(l, small, ds); }
      (l * ds) * small;
      <= { MulMono(ds, dl, l); MulMono(l * ds, l * dl, small); }
      (l * dl) * small;
      <= { MulMono(l * dl, large * u, small); }
      (large * u) * small;
      { Commute(large, u, small); Commute(small, u, large); }
      (small * u) * large;
      < { MulStrict(small * u, (s + 1) * ds, large); }
      ((s + 1) * ds) * large;
      { Commute(s + 1, ds, large); }
      ((s + 1) * large) * ds;
    }
    CancelStrict(l * small, (s + 1) * large, ds);
  }

  /** The unrounded property fails: with reserves 10^6 / 10^6 and no fee, 2 buys 1 and 3 buys 2. */
  lemma LargerSwapCanGetABetterPrice()
    ensures QuoteSwap(2, 1_000_000, 1_000_000, 0).Ok? && QuoteSwap(2, 1_000_000, 1_000_000, 0).value.amountOut == 1
    ensures QuoteSwap(3, 1_000_000, 1_000_000, 0).Ok? && QuoteSwap(3, 1_000_000, 1_000_000, 0).value.amountOut == 2
    ensures !(1 * 3 >= 2 * 2)
  {
    QuoteSwapExact(2, 1_000_000, 1_000_000, 0);
    QuoteSwapExact(3, 1_000_000, 1_000_000, 0);
    assert SwapOut(2, 1_000_000, 1_000_000, 0) == 1;
    assert SwapOut(3, 1_000_000, 1_000_000, 0) == 2;
    SwapOutIsGreatestAffordable(2, 1_000_000, 1_000_000, 0, 1);
    SwapOutIsGreatestAffordable(3, 1_000_000, 1_000_000, 0, 1);
  }

  /** Exactly when a larger swap gets no better price: the rounding lost on the smaller
      swap is covered by the price impact between the two sizes and the rounding lost on
      the larger one. */
  lemma LargerSwapNoBetterPriceIff(small: u64, large: u64, reserveIn: u64, reserveOut: u64, feeBps: u16)
    requires small < large
    requires QuoteSwap(small, reserveIn, reserveOut, feeBps).Ok?
    requires QuoteSwap(large, reserveIn, reserveOut, feeBps).Ok?
    ensures feeBps <= MAX_FEE_BPS && reserveIn > 0
    ensures var paidSmall := QuoteSwap(small, reserveIn, reserveOut, feeBps).value.amountOut;
      var paidLarge := QuoteSwap(large, reserveIn, reserveOut, feeBps).value.amountOut;
      var m := FEE_DENOMINATOR - feeBps;
      paidSmall * large >= paidLarge * small
      <==>
      Lost(small, reserveIn, reserveOut, feeBps) * (large * Denominator(large, reserveIn, feeBps))
        <= Lost(large, reserveIn, reserveOut, feeBps) * (small * Denominator(small, reserveIn, feeBps))
           + (small * m) * (large * m) * (large - small) * reserveOut
  {
    QuoteSwapExact(small, reserveIn, reserveOut, feeBps);
    QuoteSwapExact(large, reserveIn, reserveOut, feeBps);
    PriceGapOfSwaps(small, large, reserveIn, reserveOut, feeBps);
  }

  lemma PriceGapOfSwaps(small: nat, large: nat, reserveIn: nat, reserveOut: nat, feeBps: u16)
    requires small < large && feeBps <= MAX_FEE_BPS && reserveIn > 0
    ensures var m := FEE_DENOMINATOR - feeBps;
      SwapOut(small, reserveIn, reserveOut, feeBps) * large >= SwapOut(large, reserveIn, reserveOut, feeBps) * small
      <==>
      Lost(small, reserveIn, reserveOut, feeBps) * (large * Denominator(large, reserveIn, feeBps))
        <= Lost(large, reserveIn, reserveOut, feeBps) * (small * Denominator(small, reserveIn, feeBps))
           + (small * m) * (large * m) * (large - small) * reserveOut
  {
    var m := FEE_DENOMINATOR - feeBps;
    Distribute(large, small, m);
    SwapOutAndLost(small, reserveIn, reserveOut, feeBps);
    SwapOutAndLost(large, reserveIn, reserveOut, feeBps);
    hide SwapOut, Lost;
    PriceGap(small, large, SwapOut(small, reserveIn, reserveOut, feeBps), SwapOut(large, reserveIn, reserveOut, feeBps),
             Denominator(small, reserveIn, feeBps), Denominator(large, reserveIn, feeBps),
             Lost(small, reserveIn, reserveOut, feeBps), Lost(large, reserveIn, reserveOut, feeBps),
             m, reserveOut);
  }

  lemma SwapOutAndLost(amountIn: nat, reserveIn: nat, reserveOut: nat, feeBps: u16)
    requires feeBps <= MAX_FEE_BPS && reserveIn > 0
    ensures SwapOut(amountIn, reserveIn, reserveOut, feeBps) * Denominator(amountIn, reserveIn, feeBps)
          + Lost(amountIn, reserveIn, reserveOut, feeBps) == amountIn * (FEE_DENOMINATOR - feeBps) * reserveOut
  {
    MulIsNat(InWithFee(amountIn, feeBps), reserveOut);
  }

  /** `s * ds + es == small * m * ro` and likewise for the large swap, so multiplying the
      price comparison through by `ds * dl` leaves only the rounding losses and `dl - ds`. */
  lemma PriceGap(small: nat, large: nat, s: nat, l: nat, ds: nat, dl: nat, es: nat, el: nat, m: nat, ro: nat)
    requires small < large && ds > 0 && dl == ds + (large - small) * m
    requires s * ds + es == small * m * ro
    requires l * dl + el == large * m * ro
    ensures s * large >= l * small
       <==> es * (large * dl) <= el * (small * ds) + (small * m) * (large * m) * (large - small) * ro
  {
    MulIsNat(large - small, m);
    var gap := s * large - l * small;
    var d := ds * dl;
    MulStrict(0, ds, dl);
    var ns, nl := small * m * ro, large * m * ro;
    PriceGapScaled(small, large, s, l, ds, dl);
    assert (s * ds) * (large * dl) == ns * (large * dl) - es * (large * dl) by {
      assert (s * ds) * (large * dl) == (ns - es) * (large * dl);
    }
    assert (l * dl) * (small * ds) == nl * (small * ds) - el * (small * ds) by {
      assert (l * dl) * (small * ds) == (nl - el) * (small * ds);
    }
    PriceImpact(small, large, ds, dl, m, ro);
    if gap >= 0 { MulMono(0, gap, d); } else { MulStrict(gap, 0, d); }
  }

  lemma PriceGapScaled(small: nat, large: nat, s: nat, l: nat, ds: nat, dl: nat)
    ensures (s * large - l * small) * (ds * dl) == (s * ds) * (large * dl) - (l * dl) * (small * ds)
  {
    assert (s * large) * (ds * dl) == (s * ds) * (large * dl);
    assert (l * small) * (ds * dl) == (l * dl) * (small * ds);
    assert (s * large - l * small) * (ds * dl) == (s * large) * (ds * dl) - (l * small) * (ds * dl);
  }

  lemma PriceImpact(small: nat, large: nat, ds: nat, dl: nat, m: nat, ro: nat)
    requires dl == ds + (large - small) * m
    ensures (small * m * ro) * (large * dl) - (large * m * ro) * (small * ds)
         == (small * m) * (large * m) * (large - small) * ro
  {
    var t := (small * m) * large;
    PriceImpactFactored(small, large, ds, dl, m, ro);
    calc {
      t * (ro * dl) - t * (ro * ds);
      { Distribute(ro * dl, ro * ds, t); Distribute(dl, ds, ro); }
      t * (ro * ((large - small) * m));
      { PriceImpactRegrouped(small, large, m, ro); }
      (small * m) * (large * m) * (large - small) * ro;
    }
  }

  lemma PriceImpactFactored(small: nat, large: nat, ds: nat, dl: nat, m: nat, ro: nat)
    ensures var t := (small * m) * large;
      (small * m * ro) * (large * dl) - (large * m * ro) * (small * ds) == t * (ro * dl) - t * (ro * ds)
  {
    Interchange(small * m, ro, large, dl);
    Interchange(large * m, ro, small, ds);
    Commute(small, m, large);
    Commute(large, m, small);
    Assoc(small, large, m);
  }

  lemma PriceImpactRegrouped(small: nat, large: nat, m: nat, ro: nat)
    ensures ((small * m) * large) * (ro * ((large - small) * m)) == (small * m) * (large * m) * (large - small) * ro
  {
    var x, y, g := small * m, large * m, large - small;
    calc {
      (x * large) * (ro * (g * m));
      { Commute(g, m, ro); Assoc(g, ro, m); }
      (x * large) * (m * (g * ro));
      { Assoc(x, large, m * (g * ro)); Assoc(large, m, g * ro); Assoc(x, y, g * ro); }
      (x * y) * (g * ro);
      { Assoc(x * y, g, ro); }
      x * y * g * ro;
    }
  }
}
