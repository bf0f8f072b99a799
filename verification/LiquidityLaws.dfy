/** What deposits and withdrawals are worth, and the pool-value facts every step keeps. */
module LiquidityLaws {
  import opened Results
  import opened Numeric
  import opened SquareRoot
  import opened AmmMath
  import opened SwapLaws

  // ----- the value of a share

  /** Neither side of the pool is worth less per LP token than before. */
  ghost predicate PerSideKept(ra: nat, rb: nat, lp: nat, ra': nat, rb': nat, lp': nat) {
    ra' * lp >= ra * lp' && rb' * lp >= rb * lp'
  }

  /** Pool value normalised by the square of the LP supply has not fallen. */
  ghost predicate ValueKept(ra: nat, rb: nat, lp: nat, ra': nat, rb': nat, lp': nat) {
    (ra' * rb') * (lp * lp) >= (ra * rb) * (lp' * lp')
  }

  lemma PerSideKeepsValue(ra: nat, rb: nat, lp: nat, ra': nat, rb': nat, lp': nat)
    requires PerSideKept(ra, rb, lp, ra', rb', lp')
    ensures ValueKept(ra, rb, lp, ra', rb', lp')
  {
    MulIsNat(ra, lp');
    MulIsNat(rb, lp');
    MulMono2(ra * lp', ra' * lp, rb * lp', rb' * lp);
    Interchange(ra, lp', rb, lp');
    Interchange(ra', lp, rb', lp);
  }

  lemma ValueKeptTransitive(k0: nat, l0: nat, k1: nat, l1: nat, k2: nat, l2: nat)
    requires l1 > 0
    requires k1 * (l0 * l0) >= k0 * (l1 * l1)
    requires k2 * (l1 * l1) >= k1 * (l2 * l2)
    ensures k2 * (l0 * l0) >= k0 * (l2 * l2)
  {
    var s0, s1, s2 := l0 * l0, l1 * l1, l2 * l2;
    MulStrict(0, l1, l1);
    MulIsNat(l0, l0);
    MulIsNat(l2, l2);
    MulMono(k1 * s2, k2 * s1, s0);
    MulMono(k0 * s1, k1 * s0, s2);
    assert (k1 * s2) * s0 == (k1 * s0) * s2;
    assert (k2 * s1) * s0 == (k2 * s0) * s1;
    assert (k0 * s1) * s2 == (k0 * s2) * s1;
    Cancel(k0 * s2, k2 * s0, s1);
  }

  /** The square-root bound on the LP supply survives any step that keeps value. */
  lemma ValueKeptKeepsRootBound(k: nat, l: nat, k': nat, l': nat)
    requires l > 0 && l * l <= k
    requires k' * (l * l) >= k * (l' * l')
    ensures l' * l' <= k'
  {
    MulIsNat(l', l');
    MulStrict(0, l, l);
    MulMono(l * l, k, l' * l');
    assert (l' * l') * (l * l) == (l * l) * (l' * l');
    Cancel(l' * l', k', l * l);
  }

  /** The square-root bound holds every LP supply under the cap. */
  lemma RootBoundUnderCap(ra: nat, rb: nat, lp: nat)
    requires lp * lp <= ra * rb && ra <= MAX_SUPPLY_CAP && rb <= MAX_SUPPLY_CAP
    ensures lp <= MAX_SUPPLY_CAP
  {
    MulMono2(ra, MAX_SUPPLY_CAP, rb, MAX_SUPPLY_CAP);
    SquareMono(MAX_SUPPLY_CAP + 1, lp);
  }

  lemma CappedProductFits(x: nat, y: nat)
    requires x <= MAX_SUPPLY_CAP && y <= MAX_SUPPLY_CAP
    ensures 0 <= x * y <= MAX_SUPPLY_CAP * MAX_SUPPLY_CAP <= U128_MAX
  {
    MulMono2(x, MAX_SUPPLY_CAP, y, MAX_SUPPLY_CAP);
    MulIsNat(x, y);
  }

  // ----- rounding up

  /** `ceil_div` is the least `c` with `numerator <= c * denominator`, never overflows,
      and rejects only a zero denominator. */
  lemma CeilDivIsLeast(numerator: u128, denominator: u128)
    ensures denominator == 0 ==> CeilDiv(numerator, denominator) == Err(ZeroAmount)
    ensures denominator > 0 ==>
              && CeilDiv(numerator, denominator).Ok?
              && forall c: int :: CeilDiv(numerator, denominator).value <= c <==> numerator <= c * denominator
  {
    if denominator > 0 {
      CeilDivIsCeilOf(numerator, denominator);
      forall c: int
        ensures CeilOf(numerator, denominator) <= c <==> numerator <= c * denominator
      {
        CeilIsLeast(numerator, denominator, c);
      }
    }
  }

  lemma CeilDivIsCeilOf(numerator: u128, denominator: u128)
    requires denominator > 0
    ensures CeilDiv(numerator, denominator) == Ok(CeilOf(numerator, denominator))
  {
    DivIsBelow(numerator, denominator);
    if denominator == 1 {
      assert numerator % denominator == 0;
    } else {
      FloorIsGreatest(numerator, denominator, U128_MAX);
      MulMono(2, denominator, U128_MAX);
    }
  }

  // ----- later deposits

  /** LP tokens earned by `amount` on one side, rounded down. */
  function Share(amount: nat, reserve: nat, lp: nat): nat
    requires reserve > 0
  {
    MulIsNat(amount, lp);
    amount * lp / reserve
  }

  /** `y` units of the other side meet the pool's ratio for `x` units of this one. */
  ghost predicate MeetsRatio(x: nat, y: int, reserveX: nat, reserveY: nat) {
    x * reserveY <= y * reserveX
  }

  /** One side is taken whole and the other is the least that meets the pool's ratio;
      neither exceeds what was offered. */
  ghost predicate Matched(aDesired: nat, bDesired: nat, a: nat, b: nat, ra: nat, rb: nat) {
    && 0 < a <= aDesired && 0 < b <= bDesired
    && (|| (a == aDesired && MeetsRatio(a, b, ra, rb) && !MeetsRatio(a, b - 1, ra, rb))
        || (b == bDesired && MeetsRatio(b, a, rb, ra) && !MeetsRatio(b, a - 1, rb, ra)))
  }

  /** Matching always succeeds on capped inputs: the `a_optimal > a_desired` rejection
      is unreachable. */
  lemma MatchDepositExact(aDesired: u128, bDesired: u128, ra: u128, rb: u128)
    requires 0 < aDesired <= MAX_SUPPLY_CAP && 0 < bDesired <= MAX_SUPPLY_CAP
    requires 0 < ra <= MAX_SUPPLY_CAP && 0 < rb <= MAX_SUPPLY_CAP
    ensures var r := MatchDeposit(aDesired, bDesired, ra, rb);
      r.Ok? && Matched(aDesired, bDesired, r.value.0, r.value.1, ra, rb)
  {
    CappedProductFits(aDesired, rb);
    CappedProductFits(bDesired, ra);
    CeilDivIsCeilOf(aDesired * rb, ra);
    CeilDivIsCeilOf(bDesired * ra, rb);
    var b := CeilOf(aDesired * rb, ra);
    var a := CeilOf(bDesired * ra, rb);
    MulStrict(0, aDesired, rb);
    MulStrict(0, bDesired, ra);
    CeilIsLeast(aDesired * rb, ra, 0);
    CeilIsLeast(aDesired * rb, ra, b);
    CeilIsLeast(aDesired * rb, ra, b - 1);
    CeilIsLeast(aDesired * rb, ra, bDesired);
    CeilIsLeast(bDesired * ra, rb, 0);
    CeilIsLeast(bDesired * ra, rb, a);
    CeilIsLeast(bDesired * ra, rb, a - 1);
    CeilIsLeast(bDesired * ra, rb, aDesired);
  }

  /** Meeting the ratio earns at least as many LP tokens on the matched side. */
  lemma MatchedSideEarnsMore(x: nat, y: nat, reserveX: nat, reserveY: nat, lp: nat)
    requires reserveX > 0 && reserveY > 0 && MeetsRatio(x, y, reserveX, reserveY)
    ensures Share(x, reserveX, lp) <= Share(y, reserveY, lp)
  {
    var s := Share(x, reserveX, lp);
    MulIsNat(x, lp);
    MulIsNat(y, lp);
    FloorIsGreatest(x * lp, reserveX, s);
    MulMono(s * reserveX, x * lp, reserveY);
    MulMono(x * reserveY, y * reserveX, lp);
    assert (x * lp) * reserveY == (x * reserveY) * lp;
    assert (s * reserveX) * reserveY == (s * reserveY) * reserveX;
    assert (y * reserveX) * lp == (y * lp) * reserveX;
    Cancel(s * reserveY, y * lp, reserveX);
    FloorIsGreatest(y * lp, reserveY, s);
  }

  lemma ShareMono(x: nat, y: nat, reserve: nat, lp: nat)
    requires reserve > 0 && x <= y
    ensures Share(x, reserve, lp) <= Share(y, reserve, lp)
  {
    MulMono(x, y, lp);
    MulIsNat(x, lp);
    FloorIsGreatest(x * lp, reserve, 0);
    FloorIsGreatest(y * lp, reserve, Share(x, reserve, lp));
  }

  /** The LP tokens a deposit earns, in terms of what was offered. */
  function DepositShare(aDesired: nat, bDesired: nat, ra: nat, rb: nat, lp: nat): nat
    requires ra > 0 && rb > 0
  {
    Min(Share(aDesired, ra, lp), Share(bDesired, rb, lp))
  }

  /** Taking the matched amounts instead of the desired ones costs no LP tokens. */
  lemma MatchedEarnsFullShare(aDesired: nat, bDesired: nat, a: nat, b: nat, ra: nat, rb: nat, lp: nat)
    requires ra > 0 && rb > 0 && Matched(aDesired, bDesired, a, b, ra, rb)
    ensures DepositShare(a, b, ra, rb, lp) == DepositShare(aDesired, bDesired, ra, rb, lp)
  {
    ShareMono(a, aDesired, ra, lp);
    ShareMono(b, bDesired, rb, lp);
    if a == aDesired && MeetsRatio(a, b, ra, rb) {
      MatchedSideEarnsMore(a, b, ra, rb, lp);
    } else {
      MatchedSideEarnsMore(b, a, rb, ra, lp);
    }
  }

  ghost predicate AddInRange(aDesired: u64, bDesired: u64, ra: u64, rb: u64, lp: u64) {
    && 0 < aDesired <= MAX_SUPPLY_CAP && 0 < bDesired <= MAX_SUPPLY_CAP
    && 0 < ra <= MAX_SUPPLY_CAP && 0 < rb <= MAX_SUPPLY_CAP
    && MINIMUM_LIQUIDITY <= lp <= MAX_SUPPLY_CAP
  }

  lemma ShareFits(amount: nat, reserve: nat, lp: nat)
    requires amount <= MAX_SUPPLY_CAP && lp <= MAX_SUPPLY_CAP && reserve > 0
    ensures 0 <= amount * lp <= U128_MAX
    ensures Share(amount, reserve, lp) <= MAX_SUPPLY_CAP * MAX_SUPPLY_CAP
  {
    CappedProductFits(amount, lp);
    DivIsBelow(amount * lp, reserve);
  }

  lemma MintSharesExact(a: u128, b: u128, ra: u128, rb: u128, lp: u128)
    requires a <= MAX_SUPPLY_CAP && b <= MAX_SUPPLY_CAP && lp <= MAX_SUPPLY_CAP
    requires 0 < ra <= MAX_SUPPLY_CAP && 0 < rb <= MAX_SUPPLY_CAP
    ensures var minted := DepositShare(a, b, ra, rb, lp);
      MintShares(a, b, ra, rb, lp) ==
        if minted == 0 then Err(ZeroOutput)
        else if ra + a <= MAX_SUPPLY_CAP && rb + b <= MAX_SUPPLY_CAP && lp + minted <= MAX_SUPPLY_CAP
        then Ok(AddLiquidityQuote(a, b, minted, ra + a, rb + b, lp + minted))
        else Err(ValueOutOfRange)
  {
    ShareFits(a, ra, lp);
    ShareFits(b, rb, lp);
  }

  lemma QuoteAddComposes(aDesired: u64, bDesired: u64, ra: u64, rb: u64, lp: u64)
    requires AddInRange(aDesired, bDesired, ra, rb, lp)
    requires MatchDeposit(aDesired, bDesired, ra, rb).Ok?
    ensures var (a, b) := MatchDeposit(aDesired, bDesired, ra, rb).value;
      QuoteAddLiquidity(aDesired, bDesired, ra, rb, lp) == MintShares(a, b, ra, rb, lp)
  {}

  lemma QuoteAddOutOfRange(aDesired: u64, bDesired: u64, ra: u64, rb: u64, lp: u64)
    requires !AddInRange(aDesired, bDesired, ra, rb, lp)
    ensures var r := QuoteAddLiquidity(aDesired, bDesired, ra, rb, lp);
      r.Err? && r.error != MathOverflow
  {}

  /** An in-range later deposit mints the smaller of the two proportional shares of what
      was offered, takes matched amounts, and fails only when that share rounds to nothing
      or the grown reserves or supply pass the cap. */
  lemma QuoteAddExact(aDesired: u64, bDesired: u64, ra: u64, rb: u64, lp: u64)
    requires AddInRange(aDesired, bDesired, ra, rb, lp)
    ensures MatchDeposit(aDesired, bDesired, ra, rb).Ok?
    ensures var (a, b) := MatchDeposit(aDesired, bDesired, ra, rb).value;
      var minted := DepositShare(aDesired, bDesired, ra, rb, lp);
      && Matched(aDesired, bDesired, a, b, ra, rb)
      && QuoteAddLiquidity(aDesired, bDesired, ra, rb, lp) ==
         if minted == 0 then Err(ZeroOutput)
         else if ra + a <= MAX_SUPPLY_CAP && rb + b <= MAX_SUPPLY_CAP && lp + minted <= MAX_SUPPLY_CAP
         then Ok(AddLiquidityQuote(a, b, minted, ra + a, rb + b, lp + minted))
         else Err(ValueOutOfRange)
  {
    MatchDepositExact(aDesired, bDesired, ra, rb);
    QuoteAddComposes(aDesired, bDesired, ra, rb, lp);
    var m := MatchDeposit(aDesired, bDesired, ra, rb).value;
    MintSharesExact(m.0, m.1, ra, rb, lp);
    MatchedEarnsFullShare(aDesired, bDesired, m.0, m.1, ra, rb, lp);
  }

  /** A share minted for `amount` is worth no more than the pool's own rate. */
  lemma ShareRate(amount: nat, reserve: nat, lp: nat, minted: nat)
    requires reserve > 0 && minted <= Share(amount, reserve, lp)
    ensures minted * reserve <= amount * lp
    ensures (reserve + amount) * lp >= reserve * (lp + minted)
  {
    MulIsNat(amount, lp);
    FloorIsGreatest(amount * lp, reserve, minted);
    assert (reserve + amount) * lp == reserve * lp + amount * lp;
    assert reserve * (lp + minted) == reserve * lp + minted * reserve;
  }

  lemma DepositKeepsValue(a: nat, b: nat, ra: nat, rb: nat, lp: nat, minted: nat)
    requires ra > 0 && rb > 0 && minted <= DepositShare(a, b, ra, rb, lp)
    ensures PerSideKept(ra, rb, lp, ra + a, rb + b, lp + minted)
    ensures ValueKept(ra, rb, lp, ra + a, rb + b, lp + minted)
  {
    ShareRate(a, ra, lp, minted);
    ShareRate(b, rb, lp, minted);
    PerSideKeepsValue(ra, rb, lp, ra + a, rb + b, lp + minted);
  }

  /** The LP tokens a deposit earns: the most that neither side's offer falls short of. */
  lemma DepositShareIsGreatest(aDesired: nat, bDesired: nat, ra: nat, rb: nat, lp: nat, y: int)
    requires ra > 0 && rb > 0
    ensures y <= DepositShare(aDesired, bDesired, ra, rb, lp) <==> y * ra <= aDesired * lp && y * rb <= bDesired * lp
  {
    MulIsNat(aDesired, lp);
    MulIsNat(bDesired, lp);
    FloorIsGreatest(aDesired * lp, ra, y);
    FloorIsGreatest(bDesired * lp, rb, y);
  }

  /** The pool's ratio leaves no choice: at most one pair of amounts matches an offer. */
  lemma MatchedIsUnique(aDesired: nat, bDesired: nat, a: nat, b: nat, a': nat, b': nat, ra: nat, rb: nat)
    requires ra > 0 && rb > 0
    requires Matched(aDesired, bDesired, a, b, ra, rb) && Matched(aDesired, bDesired, a', b', ra, rb)
    ensures a == a' && b == b'
  {
    if MeetsRatio(a, b, ra, rb) && !MeetsRatio(a, b - 1, ra, rb) && a == aDesired {
      MatchedOnA(aDesired, bDesired, b, a', b', ra, rb);
    } else {
      MatchedOnA(bDesired, aDesired, a, b', a', rb, ra);
    }
  }

  /** Two matches of an offer, the first taking side `x` whole. */
  lemma MatchedOnA(xDesired: nat, yDesired: nat, y: nat, x': nat, y': nat, rx: nat, ry: nat)
    requires rx > 0 && ry > 0 && y <= yDesired
    requires MeetsRatio(xDesired, y, rx, ry) && !MeetsRatio(xDesired, y - 1, rx, ry)
    requires Matched(xDesired, yDesired, x', y', rx, ry)
    ensures x' == xDesired && y' == y
  {
    if y' == yDesired && MeetsRatio(y', x', ry, rx) {
      MulMono(y, y', rx);
      Cancel(xDesired, x', ry);
    }
    MulMono(x', xDesired, ry);
    if y' < y {
      MulMono(y', y - 1, rx);
    }
    if y < y' {
      MulMono(y, y' - 1, rx);
      MulStrict(y, y', rx);
    }
  }

  /** While the LP supply respects the square-root bound, the supply's own cap check can
      never be what rejects a deposit. */
  lemma SupplyNarrowingNeverRejects(aDesired: u64, bDesired: u64, ra: u64, rb: u64, lp: u64)
    requires AddInRange(aDesired, bDesired, ra, rb, lp) && lp * lp <= ra * rb
    requires MatchDeposit(aDesired, bDesired, ra, rb).Ok? ==>
      var (a, b) := MatchDeposit(aDesired, bDesired, ra, rb).value;
      ra + a <= MAX_SUPPLY_CAP && rb + b <= MAX_SUPPLY_CAP
    ensures lp + DepositShare(aDesired, bDesired, ra, rb, lp) <= MAX_SUPPLY_CAP
    ensures QuoteAddLiquidity(aDesired, bDesired, ra, rb, lp).Ok? <==> DepositShare(aDesired, bDesired, ra, rb, lp) >= 1
  {
    QuoteAddExact(aDesired, bDesired, ra, rb, lp);
    var (a, b) := MatchDeposit(aDesired, bDesired, ra, rb).value;
    var minted := DepositShare(aDesired, bDesired, ra, rb, lp);
    MatchedEarnsFullShare(aDesired, bDesired, a, b, ra, rb, lp);
    DepositKeepsValue(a, b, ra, rb, lp, minted);
    MulIsNat(ra, rb);
    MulIsNat(ra + a, rb + b);
    ValueKeptKeepsRootBound(ra * rb, lp, (ra + a) * (rb + b), lp + minted);
    RootBoundUnderCap(ra + a, rb + b, lp + minted);
  }

  // ----- withdrawals

  /** What burning `amount` LP tokens pays on one side, rounded down. */
  function Payout(amount: nat, reserve: nat, lp: nat): nat
    requires lp > 0
  {
    MulIsNat(amount, reserve);
    amount * reserve / lp
  }

  ghost predicate RemoveInRange(amount: u64, ra: u64, rb: u64, lp: u64) {
    && 0 < amount && amount + MINIMUM_LIQUIDITY <= lp <= MAX_SUPPLY_CAP
    && 0 < ra <= MAX_SUPPLY_CAP && 0 < rb <= MAX_SUPPLY_CAP
  }

  lemma PayoutBounds(amount: nat, reserve: nat, lp: nat)
    requires lp > 0 && amount <= lp
    ensures Payout(amount, reserve, lp) * lp <= amount * reserve
    ensures Payout(amount, reserve, lp) <= reserve
    ensures amount < lp && reserve > 0 ==> Payout(amount, reserve, lp) < reserve
    ensures Payout(amount, reserve, lp) >= 1 <==> amount * reserve >= lp
  {
    var y := Payout(amount, reserve, lp);
    MulIsNat(amount, reserve);
    FloorIsGreatest(amount * reserve, lp, y);
    FloorIsGreatest(amount * reserve, lp, 1);
    MulMono(amount, lp, reserve);
    Cancel(y, reserve, lp);
    if amount < lp && reserve > 0 {
      MulStrict(amount, lp, reserve);
      CancelStrict(y, reserve, lp);
    }
  }

  /** For all machine inputs: a withdrawal quote succeeds exactly when its inputs are in
      range and both payouts are worth a unit; the payouts are the greatest whole amounts
      within the proportional share, and reserves and supply shrink by exactly what left. */
  lemma QuoteRemoveExact(amount: u64, ra: u64, rb: u64, lp: u64)
    ensures var r := QuoteRemoveLiquidity(amount, ra, rb, lp);
      && (r.Err? ==> r.error != MathOverflow)
      && (r.Ok? <==> RemoveInRange(amount, ra, rb, lp) && amount * ra >= lp && amount * rb >= lp)
      && (r.Err? && RemoveInRange(amount, ra, rb, lp) ==> r.error == ZeroOutput)
      && (r.Ok? ==>
            var a, b := Payout(amount, ra, lp), Payout(amount, rb, lp);
            && 1 <= a < ra && 1 <= b < rb
            && r.value == RemoveLiquidityQuote(a, b, ra - a, rb - b, lp - amount))
  {
    if RemoveInRange(amount, ra, rb, lp) {
      PayoutBounds(amount, ra, lp);
      PayoutBounds(amount, rb, lp);
      CappedProductFits(amount, ra);
      CappedProductFits(amount, rb);
    }
  }

  lemma PayoutIsGreatest(amount: nat, reserve: nat, lp: nat, y: int)
    requires lp > 0
    ensures y <= Payout(amount, reserve, lp) <==> y * lp <= amount * reserve
  {
    MulIsNat(amount, reserve);
    FloorIsGreatest(amount * reserve, lp, y);
  }

  lemma WithdrawalKeepsValue(amount: nat, ra: nat, rb: nat, lp: nat, a: nat, b: nat)
    requires amount <= lp && a <= ra && b <= rb
    requires a * lp <= amount * ra && b * lp <= amount * rb
    ensures PerSideKept(ra, rb, lp, ra - a, rb - b, lp - amount)
    ensures ValueKept(ra, rb, lp, ra - a, rb - b, lp - amount)
  {
    assert (ra - a) * lp == ra * lp - a * lp && ra * (lp - amount) == ra * lp - amount * ra;
    assert (rb - b) * lp == rb * lp - b * lp && rb * (lp - amount) == rb * lp - amount * rb;
    PerSideKeepsValue(ra, rb, lp, ra - a, rb - b, lp - amount);
  }

  /** Burning LP tokens outside the program only raises what the rest are worth. */
  lemma BurnKeepsValue(ra: nat, rb: nat, lp: nat, lp': nat)
    requires lp' <= lp
    ensures PerSideKept(ra, rb, lp, ra, rb, lp')
    ensures ValueKept(ra, rb, lp, ra, rb, lp')
  {
    MulMono(lp', lp, ra);
    MulMono(lp', lp, rb);
    PerSideKeepsValue(ra, rb, lp, ra, rb, lp');
  }

  /** A first deposit establishes the square-root bound, with equality up to rounding. */
  lemma InitialLiquidityExact(amountA: u64, amountB: u64)
    ensures var r := InitialLiquidity(amountA, amountB);
      && (r.Ok? <==> && amountA <= MAX_SUPPLY_CAP && amountB <= MAX_SUPPLY_CAP
                     && amountA * amountB >= (MINIMUM_LIQUIDITY + 1) * (MINIMUM_LIQUIDITY + 1))
      && (r.Err? ==> r.error != MathOverflow)
      && (r.Ok? ==>
            && r.value.lpToUser >= 1 && r.value.lpToLock == MINIMUM_LIQUIDITY
            && IsFloorRoot(r.value.lpToUser + r.value.lpToLock, amountA * amountB)
            && r.value.lpToUser + r.value.lpToLock <= MAX_SUPPLY_CAP)
  {
    MulIsNat(amountA, amountB);
    FloorSqrtIsGreatest(amountA * amountB, MINIMUM_LIQUIDITY + 1);
    if amountA <= MAX_SUPPLY_CAP && amountB <= MAX_SUPPLY_CAP {
      RootOfCappedProduct(amountA, amountB);
    }
  }

  /** For all machine inputs, no quote ever overflows a u128 intermediate. */
  lemma NoQuoteOverflows(x: u64, y: u64, z: u64, v: u64, lp: u64, feeBps: u16)
    ensures QuoteSwap(x, y, z, feeBps) != Err(MathOverflow)
    ensures InitialLiquidity(x, y) != Err(MathOverflow)
    ensures QuoteAddLiquidity(x, y, z, v, lp) != Err(MathOverflow)
    ensures QuoteRemoveLiquidity(x, y, z, lp) != Err(MathOverflow)
  {
    QuoteSwapExact(x, y, z, feeBps);
    InitialLiquidityExact(x, y);
    if AddInRange(x, y, z, v, lp) {
      QuoteAddExact(x, y, z, v, lp);
    } else {
      QuoteAddOutOfRange(x, y, z, v, lp);
    }
    QuoteRemoveExact(x, y, z, lp);
  }
}
