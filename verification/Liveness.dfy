/** What can stop a user: in every state of every run, a funded user with thawed accounts
    and unpaused coins is refused only when an amount rounds to nothing; and nothing in
    the pool moves while a coin is paused. */
module Liveness {
  import opened Results
  import opened Numeric
  import opened SquareRoot
  import opened Balances
  import opened AmmMath
  import opened SwapLaws
  import opened LiquidityLaws
  import opened Issuance
  import opened World
  import opened Steps
  import opened Runs
  import opened Conservation
  import Token

  /** The user's and the pool's coin accounts are thawed and neither coin is paused. */
  predicate Ready(w: World, u: User) {
    && Token.CanMove(w.a.token, u.a) && Token.CanMove(w.a.token, w.pool.vaultA) && u.a != w.pool.vaultA
    && Token.CanMove(w.b.token, u.b) && Token.CanMove(w.b.token, w.pool.vaultB) && u.b != w.pool.vaultB
  }

  /** Thawed implies allowed and the stored pause mirrors the live one, so the program's
      own pause and policy guards pass. */
  lemma ReadyPassesGuards(w: World, u: User)
    requires WorldInv(w) && Ready(w, u)
    ensures CoinAccounts(w, u) && UserAllowed(w, u) && !Paused(w)
  {}

  lemma OutgoingTransferSucceeds(t: Token.Token, vault: Key, user: Key, amount: u64)
    requires Token.TokenInv(t) && Token.CanMove(t, vault) && Token.CanMove(t, user)
    requires amount <= Token.Balance(t, vault)
    ensures Token.Transfer(t, vault, user, amount).Some?
  {
    Token.FundedTransferSucceeds(t, vault, user, amount);
  }

  /** The exit guarantee: the holder of `l` LP tokens can redeem them unless a payout
      rounds to zero or falls short of their own minimum; no range, minimum-supply or
      locked-supply check can stop them. */
  lemma ExitGuarantee(w: World, u: User, l: u64, minA: u64, minB: u64)
    requires Reachable(w) && Ready(w, u) && LpAccounts(w, u)
    requires 0 < l <= Token.Balance(w.lp, u.lp)
    ensures Seeded(w) && w.lp.supply > 0
    ensures var r := RemoveLiquidity(w, u, l, minA, minB);
      var payA, payB := Payout(l, w.pool.reserveA, w.lp.supply), Payout(l, w.pool.reserveB, w.lp.supply);
      && (r.Ok? <==> 1 <= payA && 1 <= payB && minA <= payA && minB <= payB)
      && (r.Err? ==> r.error == if payA == 0 || payB == 0 then AmmError.ZeroOutput else SlippageExceeded)
  {
    ReachableStatesAreSound(w);
    RemovalFromSound(w, u, l, minA, minB);
  }

  lemma RemovalFromSound(w: World, u: User, l: u64, minA: u64, minB: u64)
    requires WorldInv(w) && Ready(w, u) && LpAccounts(w, u)
    requires 0 < l <= Token.Balance(w.lp, u.lp)
    ensures Seeded(w) && w.lp.supply > 0
    ensures var r := RemoveLiquidity(w, u, l, minA, minB);
      var payA, payB := Payout(l, w.pool.reserveA, w.lp.supply), Payout(l, w.pool.reserveB, w.lp.supply);
      && (r.Ok? <==> 1 <= payA && 1 <= payB && minA <= payA && minB <= payB)
      && (r.Err? ==> r.error == if payA == 0 || payB == 0 then AmmError.ZeroOutput else SlippageExceeded)
  {
    BalanceWithinTotal(w.lp.balances, u.lp);
    ReadyPassesGuards(w, u);
    ExitInRange(w, u, l);
    var ra, rb, lp := w.pool.reserveA, w.pool.reserveB, w.lp.supply;
    QuoteRemoveExact(l, ra, rb, lp);
    PayoutBounds(l, ra, lp);
    PayoutBounds(l, rb, lp);
    hide QuoteRemoveLiquidity, WorldInv, Seeded, Payout;
    var q := QuoteRemoveLiquidity(l, ra, rb, lp);
    if q.Ok? {
      WithdrawSucceeds(w, u, l, q.value);
    }
  }

  lemma ExitInRange(w: World, u: User, l: u64)
    requires WorldInv(w) && Seeded(w) && LpAccounts(w, u)
    requires 0 < l <= Token.Balance(w.lp, u.lp)
    ensures RemoveInRange(l, w.pool.reserveA, w.pool.reserveB, w.lp.supply)
    ensures w.lp.supply - l >= Token.Balance(w.lp, w.pool.lockedLp)
  {
    hide CoinInv;
    ReservesUnderCap(w);
    TwoBalancesWithinTotal(w.lp.balances, u.lp, w.pool.lockedLp);
  }

  lemma WithdrawSucceeds(w: World, u: User, l: u64, q: RemoveLiquidityQuote)
    requires WorldInv(w) && Ready(w, u) && LpAccounts(w, u)
    requires l <= Token.Balance(w.lp, u.lp) && q.amountA <= w.pool.reserveA && q.amountB <= w.pool.reserveB
    ensures Withdraw(w, u, l, q).Ok?
  {
    hide SupplyInv, MirrorInv, AllowanceInv, Seeded;
    Token.FundedBurnSucceeds(w.lp, u.lp, l);
    OutgoingTransferSucceeds(w.a.token, w.pool.vaultA, u.a, q.amountA);
    OutgoingTransferSucceeds(w.b.token, w.pool.vaultB, u.b, q.amountB);
  }

  /** A funded swap is refused only when its output rounds to nothing or falls short of
      the user's own minimum: since every coin a user or a vault holds is part of a capped
      supply, the cap check cannot reject it. */
  lemma SwapGuarantee(w: World, u: User, direction: SwapDirection, amountIn: u64, minOut: u64)
    requires Reachable(w) && Seeded(w) && Ready(w, u)
    requires 0 < amountIn <= (if direction.AtoB? then Token.Balance(w.a.token, u.a) else Token.Balance(w.b.token, u.b))
    ensures w.pool.feeBps <= MAX_FEE_BPS
    ensures var r := Swap(w, u, direction, amountIn, minOut);
      var out := SwapOut(amountIn, ReserveIn(w.pool, direction), ReserveOut(w.pool, direction), w.pool.feeBps);
      && (r.Ok? <==> 1 <= out && minOut <= out)
      && (r.Err? ==> r.error == if out == 0 then AmmError.ZeroOutput else SlippageExceeded)
  {
    ReachableStatesAreSound(w);
    SwapFromSound(w, u, direction, amountIn, minOut);
  }

  lemma SwapFromSound(w: World, u: User, direction: SwapDirection, amountIn: u64, minOut: u64)
    requires WorldInv(w) && Seeded(w) && Ready(w, u)
    requires 0 < amountIn <= (if direction.AtoB? then Token.Balance(w.a.token, u.a) else Token.Balance(w.b.token, u.b))
    ensures var r := Swap(w, u, direction, amountIn, minOut);
      var out := SwapOut(amountIn, ReserveIn(w.pool, direction), ReserveOut(w.pool, direction), w.pool.feeBps);
      && (r.Ok? <==> 1 <= out && minOut <= out)
      && (r.Err? ==> r.error == if out == 0 then AmmError.ZeroOutput else SlippageExceeded)
  {
    ReadyPassesGuards(w, u);
    SwapFits(w, u, direction, amountIn);
    var rIn, rOut := ReserveIn(w.pool, direction), ReserveOut(w.pool, direction);
    QuoteSwapExact(amountIn, rIn, rOut, w.pool.feeBps);
    SwapOutIsGreatestAffordable(amountIn, rIn, rOut, w.pool.feeBps, 1);
    InRangeSwapFailsAsZeroOutput(amountIn, rIn, rOut, w.pool.feeBps);
    hide QuoteSwap, WorldInv, SwapOut;
    var q := QuoteSwap(amountIn, rIn, rOut, w.pool.feeBps);
    if q.Ok? {
      ExchangeSucceeds(w, u, direction, amountIn, q.value);
    }
  }

  lemma InRangeSwapFailsAsZeroOutput(amountIn: u64, reserveIn: u64, reserveOut: u64, feeBps: u16)
    requires SwapInRange(amountIn, reserveIn, reserveOut, feeBps)
    ensures var q := QuoteSwap(amountIn, reserveIn, reserveOut, feeBps);
      q.Err? ==> q.error == MathError.ZeroOutput
  {
    SwapOutBelowReserve(amountIn, reserveIn, reserveOut, feeBps);
    SwapOutIsGreatestAffordable(amountIn, reserveIn, reserveOut, feeBps, 1);
    QuoteSwapExact(amountIn, reserveIn, reserveOut, feeBps);
    SwapIntermediatesFit(amountIn, reserveIn, reserveOut, 0, feeBps);
  }

  lemma SwapFits(w: World, u: User, direction: SwapDirection, amountIn: u64)
    requires WorldInv(w) && Seeded(w) && Ready(w, u)
    requires 0 < amountIn <= (if direction.AtoB? then Token.Balance(w.a.token, u.a) else Token.Balance(w.b.token, u.b))
    ensures SwapInRange(amountIn, ReserveIn(w.pool, direction), ReserveOut(w.pool, direction), w.pool.feeBps)
  {
    ReservesUnderCap(w);
    TwoBalancesWithinTotal(w.a.token.balances, u.a, w.pool.vaultA);
    TwoBalancesWithinTotal(w.b.token.balances, u.b, w.pool.vaultB);
  }

  lemma ExchangeSucceeds(w: World, u: User, direction: SwapDirection, amountIn: u64, q: SwapQuote)
    requires WorldInv(w) && Ready(w, u)
    requires amountIn <= (if direction.AtoB? then Token.Balance(w.a.token, u.a) else Token.Balance(w.b.token, u.b))
    requires q.amountOut <= ReserveOut(w.pool, direction)
    ensures Exchange(w, u, direction, amountIn, q).Ok?
  {
    hide SupplyInv, MirrorInv, AllowanceInv, Seeded;
    if direction.AtoB? {
      Token.FundedTransferSucceeds(w.a.token, u.a, w.pool.vaultA, amountIn);
      OutgoingTransferSucceeds(w.b.token, w.pool.vaultB, u.b, q.amountOut);
    } else {
      Token.FundedTransferSucceeds(w.b.token, u.b, w.pool.vaultB, amountIn);
      OutgoingTransferSucceeds(w.a.token, w.pool.vaultA, u.a, q.amountOut);
    }
  }

  // ----- exactly when each instruction succeeds

  /** A withdrawal from a sound state succeeds exactly when the user can move coins on both
      sides, holds the LP tokens, and each payout reaches one unit and its minimum. */
  lemma WithdrawalExactly(w: World, u: User, l: u64, minA: u64, minB: u64)
    requires WorldInv(w)
    ensures RemoveLiquidity(w, u, l, minA, minB).Ok? <==>
              && Ready(w, u) && LpAccounts(w, u) && 0 < l <= Token.Balance(w.lp, u.lp) && w.lp.supply > 0
              && Payout(l, w.pool.reserveA, w.lp.supply) >= 1 && Payout(l, w.pool.reserveB, w.lp.supply) >= 1
              && Payout(l, w.pool.reserveA, w.lp.supply) >= minA && Payout(l, w.pool.reserveB, w.lp.supply) >= minB
  {
    if RemoveLiquidity(w, u, l, minA, minB).Ok? {
      RemovedWasReady(w, u, l, minA, minB);
      hide RemoveLiquidity, WorldInv;
      RemovalFromSound(w, u, l, minA, minB);
    } else if Ready(w, u) && LpAccounts(w, u) && 0 < l <= Token.Balance(w.lp, u.lp) {
      hide RemoveLiquidity, WorldInv;
      RemovalFromSound(w, u, l, minA, minB);
    }
  }

  lemma RemovedWasReady(w: World, u: User, l: u64, minA: u64, minB: u64)
    requires WorldInv(w) && RemoveLiquidity(w, u, l, minA, minB).Ok?
    ensures Ready(w, u) && LpAccounts(w, u) && 0 < l <= Token.Balance(w.lp, u.lp) && w.lp.supply > 0
  {
    hide QuoteRemoveLiquidity, CoinInv, Seeded;
  }

  /** A swap from a sound state succeeds exactly when the pool is seeded, the user can move
      coins on both sides and holds the input, and the asked-for output - at least one
      unit - can be paid at the pool's fee. */
  lemma SwapExactly(w: World, u: User, direction: SwapDirection, amountIn: u64, minOut: u64)
    requires WorldInv(w)
    ensures Swap(w, u, direction, amountIn, minOut).Ok? <==>
              && Seeded(w) && Ready(w, u) && amountIn > 0
              && var asked := if minOut == 0 then 1 else minOut;
                 match direction
                 case AtoB =>
                   && amountIn <= Token.Balance(w.a.token, u.a)
                   && Payable(amountIn, w.pool.reserveA, w.pool.reserveB, w.pool.feeBps, asked)
                 case BtoA =>
                   && amountIn <= Token.Balance(w.b.token, u.b)
                   && Payable(amountIn, w.pool.reserveB, w.pool.reserveA, w.pool.feeBps, asked)
  {
    var rIn, rOut := ReserveIn(w.pool, direction), ReserveOut(w.pool, direction);
    if Swap(w, u, direction, amountIn, minOut).Ok? {
      SwappedWasReady(w, u, direction, amountIn, minOut);
    }
    if Seeded(w) && Ready(w, u)
       && 0 < amountIn <= (if direction.AtoB? then Token.Balance(w.a.token, u.a) else Token.Balance(w.b.token, u.b)) {
      SwapFromSound(w, u, direction, amountIn, minOut);
      SwapOutIsGreatestAffordable(amountIn, rIn, rOut, w.pool.feeBps, if minOut == 0 then 1 else minOut);
    }
  }

  lemma SwappedWasReady(w: World, u: User, direction: SwapDirection, amountIn: u64, minOut: u64)
    requires WorldInv(w) && Swap(w, u, direction, amountIn, minOut).Ok?
    ensures Seeded(w) && Ready(w, u)
    ensures 0 < amountIn <= (if direction.AtoB? then Token.Balance(w.a.token, u.a) else Token.Balance(w.b.token, u.b))
  {
    SwapEffect(w, u, direction, amountIn, minOut);
    hide QuoteSwap, CoinInv, Seeded, SwapMade, Moved;
  }

  lemma OwedIsQuoted(w: World, u: User, aDesired: u64, bDesired: u64, a: nat, b: nat, toUser: nat)
    requires WorldInv(w) && Ready(w, u) && Owed(w, aDesired, bDesired, a, b, toUser)
    requires 0 < aDesired <= 1_000_000_000_000_000 && 0 < bDesired <= 1_000_000_000_000_000
    requires a <= Token.Balance(w.a.token, u.a) && b <= Token.Balance(w.b.token, u.b)
    ensures DepositQuote(w, aDesired, bDesired).Ok?
  {
    OfferFits(w, u, a, b);
    hide CoinInv, QuoteAddLiquidity, InitialLiquidity, Matched, DepositShare;
    if Empty(w) {
      InitialLiquidityExact(aDesired, bDesired);
      MulMono2(1_001, toUser + 1_000, 1_001, toUser + 1_000);
    } else {
      var ra, rb, lp := w.pool.reserveA, w.pool.reserveB, w.lp.supply;
      QuoteAddExact(aDesired, bDesired, ra, rb, lp);
      var m := MatchDeposit(aDesired, bDesired, ra, rb).value;
      MatchedIsUnique(aDesired, bDesired, a, b, m.0, m.1, ra, rb);
      SupplyNarrowingNeverRejects(aDesired, bDesired, ra, rb, lp);
    }
  }

  /** A deposit from a sound state succeeds exactly when the user can move coins on both
      sides and has an LP account, the offer is within the cap, the user holds what the
      pool asks of it - not the whole offer - and the terms meet the user's minimums. */
  lemma DepositExactly(w: World, u: User, aDesired: u64, bDesired: u64, aMin: u64, bMin: u64, minLp: u64)
    requires WorldInv(w)
    ensures AddLiquidity(w, u, aDesired, bDesired, aMin, bMin, minLp).Ok? <==>
              && Ready(w, u) && LpAccounts(w, u)
              && 0 < aDesired <= 1_000_000_000_000_000 && 0 < bDesired <= 1_000_000_000_000_000
              && exists a: nat, b: nat, toUser: nat ::
                   && Owed(w, aDesired, bDesired, a, b, toUser)
                   && aMin <= a <= Token.Balance(w.a.token, u.a)
                   && bMin <= b <= Token.Balance(w.b.token, u.b)
                   && minLp <= toUser
  {
    if AddLiquidity(w, u, aDesired, bDesired, aMin, bMin, minLp).Ok? {
      AddedWasReady(w, u, aDesired, bDesired, aMin, bMin, minLp);
      QuotedIsOwed(w, aDesired, bDesired);
    }
    if Ready(w, u) && LpAccounts(w, u)
       && 0 < aDesired <= 1_000_000_000_000_000 && 0 < bDesired <= 1_000_000_000_000_000 {
      forall a: nat, b: nat, toUser: nat
        | && Owed(w, aDesired, bDesired, a, b, toUser)
          && aMin <= a <= Token.Balance(w.a.token, u.a) && bMin <= b <= Token.Balance(w.b.token, u.b)
          && minLp <= toUser
        ensures AddLiquidity(w, u, aDesired, bDesired, aMin, bMin, minLp).Ok?
      {
        OwedDepositSucceeds(w, u, aDesired, bDesired, aMin, bMin, minLp, a, b, toUser);
      }
    }
  }

  lemma AddedWasReady(w: World, u: User, aDesired: u64, bDesired: u64, aMin: u64, bMin: u64, minLp: u64)
    requires WorldInv(w) && AddLiquidity(w, u, aDesired, bDesired, aMin, bMin, minLp).Ok?
    ensures Ready(w, u) && LpAccounts(w, u) && DepositQuote(w, aDesired, bDesired).Ok?
    ensures var d := DepositQuote(w, aDesired, bDesired).value;
      && aMin <= d.amountA <= Token.Balance(w.a.token, u.a)
      && bMin <= d.amountB <= Token.Balance(w.b.token, u.b)
      && minLp <= d.lpToUser
  {
    hide DepositQuote, CoinInv, Seeded;
  }

  lemma OwedDepositSucceeds(w: World, u: User, aDesired: u64, bDesired: u64, aMin: u64, bMin: u64, minLp: u64,
                            a: nat, b: nat, toUser: nat)
    requires WorldInv(w) && Ready(w, u) && LpAccounts(w, u) && Owed(w, aDesired, bDesired, a, b, toUser)
    requires 0 < aDesired <= 1_000_000_000_000_000 && 0 < bDesired <= 1_000_000_000_000_000
    requires aMin <= a <= Token.Balance(w.a.token, u.a) && bMin <= b <= Token.Balance(w.b.token, u.b) && minLp <= toUser
    ensures AddLiquidity(w, u, aDesired, bDesired, aMin, bMin, minLp).Ok?
  {
    OwedIsQuoted(w, u, aDesired, bDesired, a, b, toUser);
    QuotedIsOwed(w, aDesired, bDesired);
    var d := DepositQuote(w, aDesired, bDesired).value;
    OwedIsUnique(w, aDesired, bDesired, a, b, toUser, d.amountA, d.amountB, d.lpToUser);
    DepositQuoteFacts(w, aDesired, bDesired);
    ReadyPassesGuards(w, u);
    hide DepositQuote, WorldInv, Owed;
    DepositSucceeds(w, u, d);
  }

  /** A deposit offered out of the user's own balances is refused only when it is worth
      less than one LP token - or, for the first deposit, when the root of the product does
      not exceed the locked minimum - or when its terms fall short of the user's minimums. */
  lemma DepositGuarantee(w: World, u: User, aDesired: u64, bDesired: u64, aMin: u64, bMin: u64, minLp: u64)
    requires Reachable(w) && Ready(w, u) && LpAccounts(w, u)
    requires 0 < aDesired <= Token.Balance(w.a.token, u.a) && 0 < bDesired <= Token.Balance(w.b.token, u.b)
    ensures WorldInv(w)
    ensures DepositQuote(w, aDesired, bDesired).Ok? <==>
              if Empty(w) then aDesired * bDesired >= (MINIMUM_LIQUIDITY + 1) * (MINIMUM_LIQUIDITY + 1)
              else DepositShare(aDesired, bDesired, w.pool.reserveA, w.pool.reserveB, w.lp.supply) >= 1
    ensures AddLiquidity(w, u, aDesired, bDesired, aMin, bMin, minLp).Ok? <==>
              && DepositQuote(w, aDesired, bDesired).Ok?
              && var d := DepositQuote(w, aDesired, bDesired).value;
                 d.amountA >= aMin && d.amountB >= bMin && d.lpToUser >= minLp
    ensures DepositQuote(w, aDesired, bDesired).Ok? ==>
              var d := DepositQuote(w, aDesired, bDesired).value;
              Owed(w, aDesired, bDesired, d.amountA, d.amountB, d.lpToUser)
    ensures var r := AddLiquidity(w, u, aDesired, bDesired, aMin, bMin, minLp);
      r.Err? ==>
        r.error == if DepositQuote(w, aDesired, bDesired).Ok? then SlippageExceeded
                   else if Empty(w) then AmmError.InsufficientInitialLiquidity else AmmError.ZeroOutput
  {
    ReachableStatesAreSound(w);
    ReadyPassesGuards(w, u);
    QuoteRefusal(w, u, aDesired, bDesired);
    OfferFits(w, u, aDesired, bDesired);
    DepositQuoteSucceeds(w, aDesired, bDesired);
    if DepositQuote(w, aDesired, bDesired).Ok? {
      DepositQuoteFacts(w, aDesired, bDesired);
      QuotedIsOwed(w, aDesired, bDesired);
      hide DepositQuote, WorldInv, Owed;
      DepositSucceeds(w, u, DepositQuote(w, aDesired, bDesired).value);
    }
  }

  lemma QuoteRefusal(w: World, u: User, aDesired: u64, bDesired: u64)
    requires WorldInv(w) && Ready(w, u)
    requires 0 < aDesired <= Token.Balance(w.a.token, u.a) && 0 < bDesired <= Token.Balance(w.b.token, u.b)
    ensures var q := DepositQuote(w, aDesired, bDesired);
      q.Err? ==> q.error == if Empty(w) then AmmError.InsufficientInitialLiquidity else AmmError.ZeroOutput
  {
    OfferFits(w, u, aDesired, bDesired);
    hide CoinInv, QuoteAddLiquidity, DepositShare;
    if Seeded(w) {
      QuoteAddExact(aDesired, bDesired, w.pool.reserveA, w.pool.reserveB, w.lp.supply);
      SupplyNarrowingNeverRejects(aDesired, bDesired, w.pool.reserveA, w.pool.reserveB, w.lp.supply);
    }
  }

  lemma OfferFits(w: World, u: User, aDesired: u64, bDesired: u64)
    requires WorldInv(w) && Ready(w, u)
    requires aDesired <= Token.Balance(w.a.token, u.a) && bDesired <= Token.Balance(w.b.token, u.b)
    ensures w.pool.reserveA + aDesired <= MAX_SUPPLY_CAP && w.pool.reserveB + bDesired <= MAX_SUPPLY_CAP
    ensures w.lp.supply <= MAX_SUPPLY_CAP
  {
    ReservesUnderCap(w);
    TwoBalancesWithinTotal(w.a.token.balances, u.a, w.pool.vaultA);
    TwoBalancesWithinTotal(w.b.token.balances, u.b, w.pool.vaultB);
  }

  lemma DepositQuoteSucceeds(w: World, aDesired: u64, bDesired: u64)
    requires WorldInv(w) && aDesired > 0 && bDesired > 0
    requires w.pool.reserveA + aDesired <= MAX_SUPPLY_CAP && w.pool.reserveB + bDesired <= MAX_SUPPLY_CAP
    requires w.lp.supply <= MAX_SUPPLY_CAP
    ensures Seeded(w) ==> (DepositQuote(w, aDesired, bDesired).Ok?
                           <==> DepositShare(aDesired, bDesired, w.pool.reserveA, w.pool.reserveB, w.lp.supply) >= 1)
    ensures Empty(w) ==> (DepositQuote(w, aDesired, bDesired).Ok?
                          <==> aDesired * bDesired >= (MINIMUM_LIQUIDITY + 1) * (MINIMUM_LIQUIDITY + 1))
  {
    hide CoinInv, QuoteAddLiquidity, InitialLiquidity;
    InitialLiquidityExact(aDesired, bDesired);
    if Seeded(w) {
      QuoteAddExact(aDesired, bDesired, w.pool.reserveA, w.pool.reserveB, w.lp.supply);
      SupplyNarrowingNeverRejects(aDesired, bDesired, w.pool.reserveA, w.pool.reserveB, w.lp.supply);
    }
  }

  lemma DepositSucceeds(w: World, u: User, d: DepositTerms)
    requires WorldInv(w) && Ready(w, u) && LpAccounts(w, u)
    requires d.amountA <= Token.Balance(w.a.token, u.a) && d.amountB <= Token.Balance(w.b.token, u.b)
    requires w.pool.reserveA + d.amountA <= MAX_SUPPLY_CAP && w.pool.reserveB + d.amountB <= MAX_SUPPLY_CAP
    requires w.lp.supply + d.lpToUser + d.lpToLock <= MAX_SUPPLY_CAP
    ensures Deposit(w, u, d).Ok?
  {
    hide SupplyInv, MirrorInv, AllowanceInv, Seeded;
    Token.FundedTransferSucceeds(w.a.token, u.a, w.pool.vaultA, d.amountA);
    Token.FundedTransferSucceeds(w.b.token, u.b, w.pool.vaultB, d.amountB);
    if d.lpToLock > 0 {
      Token.MintWithinWidthSucceeds(w.lp, w.pool.lockedLp, d.lpToLock);
      Token.MintEffect(w.lp, w.pool.lockedLp, d.lpToLock);
      Token.MintWithinWidthSucceeds(LockLp(w, d.lpToLock).value, u.lp, d.lpToUser);
    } else {
      Token.MintWithinWidthSucceeds(w.lp, u.lp, d.lpToUser);
    }
  }

  /** While a coin's live token is paused nothing moves: no balance of that coin changes,
      whoever acts, and neither reserve of the pool does. */
  lemma NothingMovesWhilePaused(w: World, op: Op, side: Side, k: Key)
    requires Reachable(w) && CoinOf(w, side).token.paused && Step(w, op).Some?
    ensures Token.Balance(CoinOf(Step(w, op).value, side).token, k) == Token.Balance(CoinOf(w, side).token, k)
    ensures Step(w, op).value.pool == w.pool
  {
    ReachableStatesAreSound(w);
    hide Seeded, SupplyInv, AllowanceInv;
    assert Paused(w);
    match op
    case OnCoin(s, coinOp) => PausedCoinKeepsBalances(w, s, coinOp, side, k);
    case _ =>
  }

  lemma PausedCoinKeepsBalances(w: World, s: Side, op: CoinOp, side: Side, k: Key)
    requires WorldInv(w) && CoinOf(w, side).token.paused && StepCoin(w, s, op).Some?
    ensures Token.Balance(CoinOf(StepCoin(w, s, op).value, side).token, k) == Token.Balance(CoinOf(w, side).token, k)
  {
    hide Seeded, SupplyInv, AllowanceInv;
    if s == side {
      CoinOpEffect(CoinOf(w, side), op);
      SumOfOne(CoinOf(w, side).token.balances, k);
      SumOfOne(CoinOf(StepCoin(w, s, op).value, side).token.balances, k);
      assert Delta(op, {k}) == 0;
    }
  }

  /** Whatever changes a reserve is a pool instruction by a user whose accounts on both
      coins are allowed and thawed, with both coins live and unpaused. */
  lemma ReservesMoveOnlyForAllowedUsers(w: World, op: Op)
    requires Reachable(w) && Step(w, op).Some?
    requires Step(w, op).value.pool != w.pool
    ensures IsPoolOp(op)
    ensures UserAllowed(w, op.u)
    ensures Token.CanMove(w.a.token, op.u.a) && Token.CanMove(w.b.token, op.u.b)
  {
    hide QuoteSwap, QuoteRemoveLiquidity, DepositQuote;
  }
}
