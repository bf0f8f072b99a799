/** What each AMM instruction does from a state that satisfies the invariant: it moves
    coins between one user and the vaults, keeps the invariant, keeps the pool's
    normalised value, and - for a funded user - fails only by rounding. */
module Steps {
  import opened Results
  import opened Numeric
  import opened SquareRoot
  import opened Balances
  import opened AmmMath
  import opened SwapLaws
  import opened LiquidityLaws
  import opened SplitLaws
  import opened Issuance
  import opened World
  import Token

  ghost predicate StepKeepsValue(w: World, w': World) {
    ValueKept(w.pool.reserveA, w.pool.reserveB, w.lp.supply, w'.pool.reserveA, w'.pool.reserveB, w'.lp.supply)
  }

  ghost predicate StepKeepsPerSide(w: World, w': World) {
    PerSideKept(w.pool.reserveA, w.pool.reserveB, w.lp.supply, w'.pool.reserveA, w'.pool.reserveB, w'.lp.supply)
  }

  /** Reserves are backed by vaults, vaults by supply, and supply by the cap. */
  lemma ReservesUnderCap(w: World)
    requires WorldInv(w)
    ensures w.pool.reserveA <= Token.Balance(w.a.token, w.pool.vaultA) <= w.a.token.supply <= MAX_SUPPLY_CAP
    ensures w.pool.reserveB <= Token.Balance(w.b.token, w.pool.vaultB) <= w.b.token.supply <= MAX_SUPPLY_CAP
    ensures w.lp.supply <= MAX_SUPPLY_CAP
  {
    BalanceWithinTotal(w.a.token.balances, w.pool.vaultA);
    BalanceWithinTotal(w.b.token.balances, w.pool.vaultB);
    if Seeded(w) {
      RootBoundUnderCap(w.pool.reserveA, w.pool.reserveB, w.lp.supply);
    }
  }

  /** The root bound after a step that keeps value. */
  lemma RootBoundKept(ra: nat, rb: nat, lp: nat, ra': nat, rb': nat, lp': nat)
    requires lp > 0 && lp * lp <= ra * rb
    requires ValueKept(ra, rb, lp, ra', rb', lp')
    ensures lp' * lp' <= ra' * rb'
  {
    MulIsNat(ra, rb);
    MulIsNat(ra', rb');
    ValueKeptKeepsRootBound(ra * rb, lp, ra' * rb', lp');
  }

  /** A movement of coins and LP tokens that keeps a seeded pool's value keeps everything. */
  lemma MovedKeepsSeeded(w: World, w': World, u: User, intoA: int, intoB: int, toUser: int)
    requires WorldInv(w) && Seeded(w) && Moved(w, w', u, intoA, intoB, toUser, 0)
    requires CoinInv(w'.a) && CoinInv(w'.b) && Token.TokenInv(w'.lp)
    requires u.a != w.pool.vaultA && u.b != w.pool.vaultB && (u.lp != w.pool.lockedLp || toUser == 0)
    requires w'.pool.reserveA > 0 && w'.pool.reserveB > 0 && StepKeepsValue(w, w')
    ensures WorldInv(w') && Seeded(w')
  {
    hide CoinInv, Moved, StepKeepsValue;
    ValueKeptUnfold(w, w');
    RootBoundKept(w.pool.reserveA, w.pool.reserveB, w.lp.supply, w'.pool.reserveA, w'.pool.reserveB, w'.lp.supply);
    MovedKeepsInv(w, w', u, intoA, intoB, toUser, 0);
  }

  lemma ValueKeptUnfold(w: World, w': World)
    requires StepKeepsValue(w, w')
    ensures ValueKept(w.pool.reserveA, w.pool.reserveB, w.lp.supply, w'.pool.reserveA, w'.pool.reserveB, w'.lp.supply)
  {}

  lemma PerSideStep(w: World, w': World)
    requires StepKeepsPerSide(w, w')
    ensures StepKeepsValue(w, w')
  {
    PerSideKeepsValue(w.pool.reserveA, w.pool.reserveB, w.lp.supply, w'.pool.reserveA, w'.pool.reserveB, w'.lp.supply);
  }

  // ----- what an instruction must have done, told by the reserves and supplies alone

  /** What the pool asks of an offer and issues for it: the whole offer for the root of its
      product less the locked 1_000, or the matching part of it for that part's share. */
  ghost predicate Owed(w: World, aDesired: nat, bDesired: nat, a: nat, b: nat, toUser: nat) {
    && toUser >= 1
    && (Empty(w) ==> a == aDesired && b == bDesired && IsFloorRoot(toUser + 1_000, aDesired * bDesired))
    && (Seeded(w) ==> && Matched(aDesired, bDesired, a, b, w.pool.reserveA, w.pool.reserveB)
                      && toUser == DepositShare(aDesired, bDesired, w.pool.reserveA, w.pool.reserveB, w.lp.supply))
  }

  /** A deposit takes exactly what the pool asks of the offer, issues exactly what it owes
      for that, and locks 1_000 when it is the first. */
  ghost predicate DepositMade(w: World, w': World, u: User, aDesired: u64, bDesired: u64) {
    && w.pool.reserveA <= w'.pool.reserveA && w.pool.reserveB <= w'.pool.reserveB
    && var tookA, tookB := w'.pool.reserveA - w.pool.reserveA, w'.pool.reserveB - w.pool.reserveB;
       var locked := if Empty(w) then 1_000 else 0;
       && w'.lp.supply >= w.lp.supply + locked
       && Moved(w, w', u, tookA, tookB, w'.lp.supply - w.lp.supply - locked, locked)
       && Owed(w, aDesired, bDesired, tookA, tookB, w'.lp.supply - w.lp.supply - locked)
  }

  /** A withdrawal burns what it was given and pays the user the floored share of each side. */
  ghost predicate WithdrawalMade(w: World, w': World, u: User, lpAmount: u64) {
    && w.lp.supply > 0
    && var paidA := Payout(lpAmount, w.pool.reserveA, w.lp.supply);
       var paidB := Payout(lpAmount, w.pool.reserveB, w.lp.supply);
       paidA > 0 && paidB > 0 && Moved(w, w', u, 0 - paidA, 0 - paidB, 0 - lpAmount, 0)
  }

  /** `y` can be paid for `amountIn` at a fee of `feeBps` parts in 10_000. */
  ghost predicate Payable(amountIn: nat, reserveIn: nat, reserveOut: nat, feeBps: nat, y: int) {
    (reserveIn * 10_000 + amountIn * (10_000 - feeBps)) * (reserveOut - y) >= reserveIn * 10_000 * reserveOut
  }

  /** A swap takes the whole input and pays the greatest payable output, of the other coin. */
  ghost predicate SwapMade(w: World, w': World, u: User, direction: SwapDirection, amountIn: u64) {
    && w'.lp == w.lp
    && match direction
       case AtoB =>
         var paid := w.pool.reserveB - w'.pool.reserveB;
         && Moved(w, w', u, amountIn, 0 - paid, 0, 0) && paid > 0
         && Payable(amountIn, w.pool.reserveA, w.pool.reserveB, w.pool.feeBps, paid)
         && !Payable(amountIn, w.pool.reserveA, w.pool.reserveB, w.pool.feeBps, paid + 1)
       case BtoA =>
         var paid := w.pool.reserveA - w'.pool.reserveA;
         && Moved(w, w', u, 0 - paid, amountIn, 0, 0) && paid > 0
         && Payable(amountIn, w.pool.reserveB, w.pool.reserveA, w.pool.feeBps, paid)
         && !Payable(amountIn, w.pool.reserveB, w.pool.reserveA, w.pool.feeBps, paid + 1)
  }

  // ----- add_liquidity

  /** What an accepted deposit quote amounts to, for an empty or a seeded pool. */
  lemma DepositQuoteFacts(w: World, aDesired: u64, bDesired: u64)
    requires WorldInv(w) && DepositQuote(w, aDesired, bDesired).Ok?
    ensures var d := DepositQuote(w, aDesired, bDesired).value;
      && 0 < d.amountA <= aDesired && 0 < d.amountB <= bDesired && d.lpToUser > 0
      && w.pool.reserveA + d.amountA <= MAX_SUPPLY_CAP && w.pool.reserveB + d.amountB <= MAX_SUPPLY_CAP
      && w.lp.supply + d.lpToUser + d.lpToLock <= MAX_SUPPLY_CAP
      && (Empty(w) ==> d.lpToLock == MINIMUM_LIQUIDITY && (d.amountA, d.amountB) == (aDesired, bDesired)
                       && IsFloorRoot(d.lpToUser + d.lpToLock, aDesired * bDesired))
      && (Seeded(w) ==> d.lpToLock == 0
                        && Matched(aDesired, bDesired, d.amountA, d.amountB, w.pool.reserveA, w.pool.reserveB)
                        && d.lpToUser == DepositShare(aDesired, bDesired, w.pool.reserveA, w.pool.reserveB, w.lp.supply)
                        && PerSideKept(w.pool.reserveA, w.pool.reserveB, w.lp.supply, w.pool.reserveA + d.amountA,
                                       w.pool.reserveB + d.amountB, w.lp.supply + d.lpToUser))
  {
    if Empty(w) {
      InitialLiquidityExact(aDesired, bDesired);
    } else {
      var ra, rb, lp := w.pool.reserveA, w.pool.reserveB, w.lp.supply;
      QuoteAddFacts(aDesired, bDesired, ra, rb, lp);
      QuoteAddExact(aDesired, bDesired, ra, rb, lp);
      var q := QuoteAddLiquidity(aDesired, bDesired, ra, rb, lp).value;
      DepositKeepsValue(q.amountA, q.amountB, ra, rb, lp, q.lpMinted);
    }
  }

  lemma OwedIsUnique(w: World, aDesired: nat, bDesired: nat,
                     a: nat, b: nat, toUser: nat, a': nat, b': nat, toUser': nat)
    requires WorldInv(w)
    requires Owed(w, aDesired, bDesired, a, b, toUser) && Owed(w, aDesired, bDesired, a', b', toUser')
    ensures a == a' && b == b' && toUser == toUser'
  {
    if Empty(w) {
      FloorRootUnique(toUser + 1_000, toUser' + 1_000, aDesired * bDesired);
    } else {
      MatchedIsUnique(aDesired, bDesired, a, b, a', b', w.pool.reserveA, w.pool.reserveB);
    }
  }

  lemma QuotedIsOwed(w: World, aDesired: u64, bDesired: u64)
    requires WorldInv(w) && DepositQuote(w, aDesired, bDesired).Ok?
    ensures 0 < aDesired <= 1_000_000_000_000_000 && 0 < bDesired <= 1_000_000_000_000_000
    ensures var d := DepositQuote(w, aDesired, bDesired).value;
      && Owed(w, aDesired, bDesired, d.amountA, d.amountB, d.lpToUser)
      && d.lpToLock == if Empty(w) then 1_000 else 0
  {
    DepositQuoteFacts(w, aDesired, bDesired);
    hide Matched, DepositShare, IsFloorRoot;
    if Empty(w) {
      InitialLiquidityExact(aDesired, bDesired);
    } else {
      QuoteAddFacts(aDesired, bDesired, w.pool.reserveA, w.pool.reserveB, w.lp.supply);
    }
  }

  lemma DepositedAsOwed(w: World, u: User, aDesired: u64, bDesired: u64, d: DepositTerms)
    requires WorldInv(w) && Deposit(w, u, d).Ok?
    requires Owed(w, aDesired, bDesired, d.amountA, d.amountB, d.lpToUser)
    requires d.lpToLock == if Empty(w) then 1_000 else 0
    ensures DepositMade(w, Deposit(w, u, d).value, u, aDesired, bDesired)
  {
    hide Deposit, Owed, CoinMoved, WorldInv, Seeded;
    DepositMoves(w, u, d);
  }

  lemma AddEffect(w: World, u: User, aDesired: u64, bDesired: u64, aMin: u64, bMin: u64, minLp: u64)
    requires WorldInv(w) && AddLiquidity(w, u, aDesired, bDesired, aMin, bMin, minLp).Ok?
    ensures DepositQuote(w, aDesired, bDesired).Ok?
    ensures var w' := AddLiquidity(w, u, aDesired, bDesired, aMin, bMin, minLp).value;
      var d := DepositQuote(w, aDesired, bDesired).value;
      && Moved(w, w', u, d.amountA, d.amountB, d.lpToUser, d.lpToLock)
      && WorldInv(w') && Seeded(w')
      && (Seeded(w) ==> StepKeepsPerSide(w, w') && StepKeepsValue(w, w') && d.lpToLock == 0)
    ensures DepositMade(w, AddLiquidity(w, u, aDesired, bDesired, aMin, bMin, minLp).value, u, aDesired, bDesired)
  {
    hide DepositQuote, Deposit, WorldInv, Seeded, Moved, DepositMade, Owed;
    var d := DepositQuote(w, aDesired, bDesired).value;
    QuotedIsOwed(w, aDesired, bDesired);
    QuotedIsSound(w, aDesired, bDesired);
    DepositedEffect(w, u, d);
    DepositedAsOwed(w, u, aDesired, bDesired, d);
  }

  /** Terms under which a deposit keeps the pool's value or, the first time, seeds it. */
  ghost predicate SoundTerms(w: World, d: DepositTerms) {
    && d.amountA > 0 && d.amountB > 0
    && (Seeded(w) ==> d.lpToLock == 0
                      && PerSideKept(w.pool.reserveA, w.pool.reserveB, w.lp.supply, w.pool.reserveA + d.amountA,
                                     w.pool.reserveB + d.amountB, w.lp.supply + d.lpToUser))
    && (Empty(w) ==> d.lpToLock == MINIMUM_LIQUIDITY
                     && IsFloorRoot(d.lpToUser + d.lpToLock, d.amountA * d.amountB))
  }

  lemma QuotedIsSound(w: World, aDesired: u64, bDesired: u64)
    requires WorldInv(w) && DepositQuote(w, aDesired, bDesired).Ok?
    ensures SoundTerms(w, DepositQuote(w, aDesired, bDesired).value)
  {
    DepositQuoteFacts(w, aDesired, bDesired);
    hide DepositQuote, Matched, DepositShare, PerSideKept, WorldInv, IsFloorRoot;
  }

  /** A deposit on sound terms. */
  lemma DepositedEffect(w: World, u: User, d: DepositTerms)
    requires WorldInv(w) && SoundTerms(w, d) && Deposit(w, u, d).Ok?
    requires u.a != w.pool.vaultA && u.b != w.pool.vaultB && u.lp != w.pool.lockedLp
    ensures var w' := Deposit(w, u, d).value;
      && Moved(w, w', u, d.amountA, d.amountB, d.lpToUser, d.lpToLock)
      && WorldInv(w') && Seeded(w')
      && (Seeded(w) ==> StepKeepsPerSide(w, w') && StepKeepsValue(w, w') && d.lpToLock == 0)
  {
    hide Deposit, CoinInv;
    var w' := Deposit(w, u, d).value;
    DepositMoves(w, u, d);
    if Seeded(w) {
      PerSideStep(w, w');
      MovedKeepsSeeded(w, w', u, d.amountA, d.amountB, d.lpToUser);
    } else {
      MovedKeepsInv(w, w', u, d.amountA, d.amountB, d.lpToUser, d.lpToLock);
    }
  }

  // ----- remove_liquidity

  lemma RemoveEffect(w: World, u: User, lpAmount: u64, minA: u64, minB: u64)
    requires WorldInv(w) && RemoveLiquidity(w, u, lpAmount, minA, minB).Ok?
    ensures QuoteRemoveLiquidity(lpAmount, w.pool.reserveA, w.pool.reserveB, w.lp.supply).Ok?
    ensures var w' := RemoveLiquidity(w, u, lpAmount, minA, minB).value;
      var q := QuoteRemoveLiquidity(lpAmount, w.pool.reserveA, w.pool.reserveB, w.lp.supply).value;
      && Moved(w, w', u, 0 - q.amountA, 0 - q.amountB, 0 - lpAmount, 0)
      && Seeded(w) && WorldInv(w') && Seeded(w')
      && StepKeepsPerSide(w, w') && StepKeepsValue(w, w')
    ensures WithdrawalMade(w, RemoveLiquidity(w, u, lpAmount, minA, minB).value, u, lpAmount)
  {
    QuoteRemoveExact(lpAmount, w.pool.reserveA, w.pool.reserveB, w.lp.supply);
    hide QuoteRemoveLiquidity, Withdraw, CoinInv, Moved, StepKeepsValue, Payout;
    var ra, rb, lp := w.pool.reserveA, w.pool.reserveB, w.lp.supply;
    var q := QuoteRemoveLiquidity(lpAmount, ra, rb, lp).value;
    QuoteRemoveFacts(lpAmount, ra, rb, lp);
    WithdrawnEffect(w, u, lpAmount, q);
  }

  /** A withdrawal on any terms within the proportional share. */
  lemma WithdrawnEffect(w: World, u: User, lpAmount: u64, q: RemoveLiquidityQuote)
    requires WorldInv(w) && w.pool.reserveA > 0 && Withdraw(w, u, lpAmount, q).Ok?
    requires u.a != w.pool.vaultA && u.b != w.pool.vaultB && u.lp != w.pool.lockedLp
    requires q.newReserveA == w.pool.reserveA - q.amountA && q.newReserveB == w.pool.reserveB - q.amountB
    requires q.newReserveA > 0 && q.newReserveB > 0 && lpAmount <= w.lp.supply
    requires PerSideKept(w.pool.reserveA, w.pool.reserveB, w.lp.supply,
                         q.newReserveA, q.newReserveB, w.lp.supply - lpAmount)
    ensures var w' := Withdraw(w, u, lpAmount, q).value;
      && Moved(w, w', u, 0 - q.amountA, 0 - q.amountB, 0 - lpAmount, 0)
      && Seeded(w) && WorldInv(w') && Seeded(w')
      && StepKeepsPerSide(w, w') && StepKeepsValue(w, w')
  {
    hide CoinInv, Withdraw;
    var w' := Withdraw(w, u, lpAmount, q).value;
    WithdrawMoves(w, u, lpAmount, q);
    PerSideStep(w, w');
    MovedKeepsSeeded(w, w', u, 0 - q.amountA, 0 - q.amountB, 0 - lpAmount);
  }

  // ----- swap

  lemma SwapQuoteFacts(amountIn: u64, reserveIn: u64, reserveOut: u64, feeBps: u16)
    requires QuoteSwap(amountIn, reserveIn, reserveOut, feeBps).Ok?
    ensures var q := QuoteSwap(amountIn, reserveIn, reserveOut, feeBps).value;
      && q.newReserveIn == reserveIn + amountIn && q.newReserveOut == reserveOut - q.amountOut
      && 1 <= q.amountOut < reserveOut && reserveIn > 0 && feeBps <= MAX_FEE_BPS
      && q.newReserveIn * q.newReserveOut >= reserveIn * reserveOut
      && (feeBps > 0 ==> q.newReserveIn * q.newReserveOut > reserveIn * reserveOut)
  {
    QuoteSwapExact(amountIn, reserveIn, reserveOut, feeBps);
    var y := SwapOut(amountIn, reserveIn, reserveOut, feeBps);
    SwapOutIsGreatestAffordable(amountIn, reserveIn, reserveOut, feeBps, y);
    AffordableKeepsProduct(amountIn, reserveIn, reserveOut, feeBps, y);
  }

  /** A movement of coins that leaves the LP token alone and does not lower the product. */
  lemma ExchangedKeepsInv(w: World, w': World, u: User, intoA: int, intoB: int)
    requires WorldInv(w) && Moved(w, w', u, intoA, intoB, 0, 0)
    requires CoinInv(w'.a) && CoinInv(w'.b) && w'.lp == w.lp
    requires u.a != w.pool.vaultA && u.b != w.pool.vaultB
    requires w.pool.reserveA > 0 && w'.pool.reserveA > 0 && w'.pool.reserveB > 0
    requires w.pool.reserveA * w.pool.reserveB <= w'.pool.reserveA * w'.pool.reserveB
    ensures Seeded(w) && WorldInv(w') && Seeded(w') && StepKeepsValue(w, w')
  {
    hide CoinInv;
    SameSupplyKeepsValue(w.pool.reserveA, w.pool.reserveB, w.lp.supply, w'.pool.reserveA, w'.pool.reserveB);
    MovedKeepsSeeded(w, w', u, intoA, intoB, 0);
  }

  /** The quoted reserves are the new ones, whichever way the swap goes. */
  lemma ExchangeReserves(w: World, u: User, direction: SwapDirection, amountIn: u64, q: SwapQuote)
    requires Exchange(w, u, direction, amountIn, q).Ok?
    ensures var w' := Exchange(w, u, direction, amountIn, q).value;
      && ReserveIn(w'.pool, direction) == q.newReserveIn && ReserveOut(w'.pool, direction) == q.newReserveOut
      && w'.pool.reserveA * w'.pool.reserveB == q.newReserveIn * q.newReserveOut
      && w.pool.reserveA * w.pool.reserveB == ReserveIn(w.pool, direction) * ReserveOut(w.pool, direction)
  {}

  lemma SwapEffect(w: World, u: User, direction: SwapDirection, amountIn: u64, minOut: u64)
    requires WorldInv(w) && Swap(w, u, direction, amountIn, minOut).Ok?
    ensures QuoteSwap(amountIn, ReserveIn(w.pool, direction), ReserveOut(w.pool, direction), w.pool.feeBps).Ok?
    ensures var w' := Swap(w, u, direction, amountIn, minOut).value;
      var q := QuoteSwap(amountIn, ReserveIn(w.pool, direction), ReserveOut(w.pool, direction), w.pool.feeBps).value;
      && Moved(w, w', u, IntoA(direction, amountIn, q.amountOut), IntoB(direction, amountIn, q.amountOut), 0, 0)
      && w'.lp == w.lp && Seeded(w) && WorldInv(w') && Seeded(w') && StepKeepsValue(w, w')
      && (w.pool.feeBps > 0 ==> w'.pool.reserveA * w'.pool.reserveB > w.pool.reserveA * w.pool.reserveB)
    ensures SwapMade(w, Swap(w, u, direction, amountIn, minOut).value, u, direction, amountIn)
  {
    hide QuoteSwap, Exchange, WorldInv, Seeded, Moved, Payable;
    var q := QuoteSwap(amountIn, ReserveIn(w.pool, direction), ReserveOut(w.pool, direction), w.pool.feeBps).value;
    var w' := Exchange(w, u, direction, amountIn, q).value;
    SwapQuoteFacts(amountIn, ReserveIn(w.pool, direction), ReserveOut(w.pool, direction), w.pool.feeBps);
    ExchangeMoves(w, u, direction, amountIn, q);
    ExchangeReserves(w, u, direction, amountIn, q);
    ExchangedKeepsInv(w, w', u, IntoA(direction, amountIn, q.amountOut), IntoB(direction, amountIn, q.amountOut));
    QuotePaysTheMost(amountIn, ReserveIn(w.pool, direction), ReserveOut(w.pool, direction), w.pool.feeBps);
  }

  lemma QuotePaysTheMost(amountIn: u64, reserveIn: u64, reserveOut: u64, feeBps: u16)
    requires QuoteSwap(amountIn, reserveIn, reserveOut, feeBps).Ok?
    ensures var out := QuoteSwap(amountIn, reserveIn, reserveOut, feeBps).value.amountOut;
      && Payable(amountIn, reserveIn, reserveOut, feeBps, out)
      && !Payable(amountIn, reserveIn, reserveOut, feeBps, out + 1)
  {
    var out := QuoteSwap(amountIn, reserveIn, reserveOut, feeBps).value.amountOut;
    SwapAtTheStatedRate(amountIn, reserveIn, reserveOut, feeBps, out);
    SwapAtTheStatedRate(amountIn, reserveIn, reserveOut, feeBps, out + 1);
  }

  lemma SameSupplyKeepsValue(ra: nat, rb: nat, lp: nat, ra': nat, rb': nat)
    requires ra * rb <= ra' * rb'
    ensures ValueKept(ra, rb, lp, ra', rb', lp)
  {
    MulIsNat(lp, lp);
    MulMono(ra * rb, ra' * rb', lp * lp);
  }
}
