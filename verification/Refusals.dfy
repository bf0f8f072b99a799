/** What a refusal says: from a sound state an instruction that fails names something true,
    and the errors its redundant checks could raise are never among what it names. */
module Refusals {
  import opened Results
  import opened Numeric
  import opened Balances
  import opened AmmMath
  import opened SwapLaws
  import opened LiquidityLaws
  import opened Issuance
  import opened World
  import opened Steps
  import opened Liveness
  import Token

  /** A user with a blocked account, or with a coin paused, is told so by all three
      instructions, whatever the pool holds. */
  lemma BlockedOrPausedIsRefused(w: World, u: User, direction: SwapDirection, x: u64, y: u64,
                                  minX: u64, minY: u64, minLp: u64)
    requires WorldInv(w) && CoinAccounts(w, u) && LpAccounts(w, u) && x > 0 && y > 0
    ensures !UserAllowed(w, u) ==>
              && AddLiquidity(w, u, x, y, minX, minY, minLp) == Err(AmmError.WalletNotAllowed)
              && RemoveLiquidity(w, u, x, minX, minY) == Err(AmmError.WalletNotAllowed)
              && Swap(w, u, direction, x, minX) == Err(AmmError.WalletNotAllowed)
    ensures UserAllowed(w, u) && (w.a.token.paused || w.b.token.paused) ==>
              && AddLiquidity(w, u, x, y, minX, minY, minLp) == Err(AmmError.ProtocolPaused)
              && RemoveLiquidity(w, u, x, minX, minY) == Err(AmmError.ProtocolPaused)
              && Swap(w, u, direction, x, minX) == Err(AmmError.ProtocolPaused)
  {
    hide Seeded, SupplyInv, AllowanceInv;
  }

  /** From a sound state a refused deposit names something true; overflow, an invalid
      liquidity state and every failed invariant check are not among what it can name. */
  lemma DepositRefusalsAreTrue(w: World, u: User, aDesired: u64, bDesired: u64, aMin: u64, bMin: u64, minLp: u64)
    requires WorldInv(w)
    ensures var r := AddLiquidity(w, u, aDesired, bDesired, aMin, bMin, minLp);
      r.Err? ==>
        match r.error
        case AccountConstraint => !CoinAccounts(w, u) || !LpAccounts(w, u)
        case WalletNotAllowed => !UserAllowed(w, u)
        case ZeroAmount => aDesired == 0 || bDesired == 0
        case ProtocolPaused => w.a.token.paused || w.b.token.paused
        case InsufficientInitialLiquidity => Empty(w) && aDesired * bDesired < 1_001 * 1_001
        case ZeroOutput =>
          Seeded(w) && DepositShare(aDesired, bDesired, w.pool.reserveA, w.pool.reserveB, w.lp.supply) == 0
        case ValueOutOfRange =>
          || w.pool.reserveA + aDesired > 1_000_000_000_000_000
          || w.pool.reserveB + bDesired > 1_000_000_000_000_000
        case SlippageExceeded =>
          forall a: nat, b: nat, toUser: nat ::
            Owed(w, aDesired, bDesired, a, b, toUser) ==> a < aMin || b < bMin || toUser < minLp
        case TokenRejected =>
          || !Ready(w, u)
          || (forall a: nat, b: nat, toUser: nat :: Owed(w, aDesired, bDesired, a, b, toUser) ==>
                a > Token.Balance(w.a.token, u.a) || b > Token.Balance(w.b.token, u.b))
        case _ => false
  {
    hide DepositQuote, Deposit, Owed, Seeded, SupplyInv, AllowanceInv, DepositShare;
    QuoteRefusalsAreTrue(w, aDesired, bDesired);
    var q := DepositQuote(w, aDesired, bDesired);
    if q.Ok? {
      QuotedIsAllThatIsOwed(w, aDesired, bDesired);
      QuotedDepositRefusals(w, u, aDesired, bDesired);
    }
  }

  lemma QuotedIsAllThatIsOwed(w: World, aDesired: u64, bDesired: u64)
    requires WorldInv(w) && DepositQuote(w, aDesired, bDesired).Ok?
    ensures var d := DepositQuote(w, aDesired, bDesired).value;
      forall a: nat, b: nat, toUser: nat ::
        Owed(w, aDesired, bDesired, a, b, toUser) <==> a == d.amountA && b == d.amountB && toUser == d.lpToUser
  {
    hide WorldInv, DepositQuote, Owed;
    var d := DepositQuote(w, aDesired, bDesired).value;
    QuotedIsOwed(w, aDesired, bDesired);
    forall a: nat, b: nat, toUser: nat | Owed(w, aDesired, bDesired, a, b, toUser)
      ensures a == d.amountA && b == d.amountB && toUser == d.lpToUser
    {
      OwedIsUnique(w, aDesired, bDesired, a, b, toUser, d.amountA, d.amountB, d.lpToUser);
    }
  }

  lemma QuotedDepositRefusals(w: World, u: User, aDesired: u64, bDesired: u64)
    requires WorldInv(w) && DepositQuote(w, aDesired, bDesired).Ok?
    ensures var d := DepositQuote(w, aDesired, bDesired).value;
      && (Deposit(w, u, d).Err? ==> Deposit(w, u, d).error == AmmError.TokenRejected)
      && (Ready(w, u) && LpAccounts(w, u)
          && d.amountA <= Token.Balance(w.a.token, u.a) && d.amountB <= Token.Balance(w.b.token, u.b) ==>
            Deposit(w, u, d).Ok?)
  {
    hide WorldInv, DepositQuote, Deposit, Ready;
    var d := DepositQuote(w, aDesired, bDesired).value;
    DepositQuoteFacts(w, aDesired, bDesired);
    DepositFailsOnlyInTokens(w, u, d);
    if Ready(w, u) && LpAccounts(w, u)
       && d.amountA <= Token.Balance(w.a.token, u.a) && d.amountB <= Token.Balance(w.b.token, u.b) {
      DepositSucceeds(w, u, d);
    }
  }

  lemma DepositFailsOnlyInTokens(w: World, u: User, d: DepositTerms)
    requires w.pool.reserveA + d.amountA <= MAX_SUPPLY_CAP && w.pool.reserveB + d.amountB <= MAX_SUPPLY_CAP
    ensures Deposit(w, u, d).Err? ==> Deposit(w, u, d).error == AmmError.TokenRejected
  {}

  lemma QuoteRefusalsAreTrue(w: World, aDesired: u64, bDesired: u64)
    requires WorldInv(w)
    ensures var q := DepositQuote(w, aDesired, bDesired);
      q.Err? && aDesired > 0 && bDesired > 0 ==>
        match q.error
        case InsufficientInitialLiquidity => Empty(w) && aDesired * bDesired < 1_001 * 1_001
        case ZeroOutput =>
          Seeded(w) && DepositShare(aDesired, bDesired, w.pool.reserveA, w.pool.reserveB, w.lp.supply) == 0
        case ValueOutOfRange =>
          || w.pool.reserveA + aDesired > 1_000_000_000_000_000
          || w.pool.reserveB + bDesired > 1_000_000_000_000_000
        case _ => false
  {
    ReservesUnderCap(w);
    hide CoinInv, DepositShare, QuoteAddLiquidity, InitialLiquidity;
    if aDesired > 0 && bDesired > 0 {
      FirstQuoteRefusals(aDesired, bDesired);
      if Seeded(w) {
        LaterQuoteRefusals(aDesired, bDesired, w.pool.reserveA, w.pool.reserveB, w.lp.supply);
      }
    }
  }

  lemma FirstQuoteRefusals(aDesired: u64, bDesired: u64)
    requires aDesired > 0 && bDesired > 0
    ensures var q := InitialLiquidity(aDesired, bDesired);
      && (q.Err? ==> q.error == MathError.InsufficientInitialLiquidity || q.error == MathError.ValueOutOfRange)
      && (q == Err(MathError.InsufficientInitialLiquidity) ==> aDesired * bDesired < 1_001 * 1_001)
      && (q == Err(MathError.ValueOutOfRange) ==> aDesired > MAX_SUPPLY_CAP || bDesired > MAX_SUPPLY_CAP)
  {
    InitialLiquidityExact(aDesired, bDesired);
  }

  lemma LaterQuoteRefusals(aDesired: u64, bDesired: u64, ra: u64, rb: u64, lp: u64)
    requires aDesired > 0 && bDesired > 0 && lp * lp <= ra * rb
    requires 0 < ra <= MAX_SUPPLY_CAP && 0 < rb <= MAX_SUPPLY_CAP && MINIMUM_LIQUIDITY <= lp <= MAX_SUPPLY_CAP
    ensures var q := QuoteAddLiquidity(aDesired, bDesired, ra, rb, lp);
      && (q.Err? ==> q.error == MathError.ZeroOutput || q.error == MathError.ValueOutOfRange)
      && (q == Err(MathError.ZeroOutput) ==> DepositShare(aDesired, bDesired, ra, rb, lp) == 0)
      && (q == Err(MathError.ValueOutOfRange) ==> ra + aDesired > MAX_SUPPLY_CAP || rb + bDesired > MAX_SUPPLY_CAP)
  {
    if AddInRange(aDesired, bDesired, ra, rb, lp) {
      QuoteAddExact(aDesired, bDesired, ra, rb, lp);
      if ra + aDesired <= MAX_SUPPLY_CAP && rb + bDesired <= MAX_SUPPLY_CAP {
        SupplyNarrowingNeverRejects(aDesired, bDesired, ra, rb, lp);
      }
    }
  }

  /** The same for withdrawals. */
  lemma WithdrawalRefusalsAreTrue(w: World, u: User, l: u64, minA: u64, minB: u64)
    requires WorldInv(w)
    ensures var r := RemoveLiquidity(w, u, l, minA, minB);
      r.Err? ==>
        match r.error
        case AccountConstraint => !CoinAccounts(w, u) || !LpAccounts(w, u)
        case WalletNotAllowed => !UserAllowed(w, u)
        case ZeroAmount => l == 0
        case ProtocolPaused => w.a.token.paused || w.b.token.paused
        case InvalidLiquidityState => Empty(w)
        case InsufficientLiquidity => l + 1_000 > w.lp.supply
        case LockedLiquidityInvariant => l + Token.Balance(w.lp, w.pool.lockedLp) > w.lp.supply
        case ZeroOutput =>
          w.lp.supply > 0
          && (Payout(l, w.pool.reserveA, w.lp.supply) == 0 || Payout(l, w.pool.reserveB, w.lp.supply) == 0)
        case SlippageExceeded =>
          w.lp.supply > 0
          && (Payout(l, w.pool.reserveA, w.lp.supply) < minA || Payout(l, w.pool.reserveB, w.lp.supply) < minB)
        case TokenRejected => !Ready(w, u) || Token.Balance(w.lp, u.lp) < l
        case _ => false
  {
    ReservesUnderCap(w);
    hide QuoteRemoveLiquidity, Payout, Withdraw, CoinInv;
    if Seeded(w) && l > 0 {
      RemovalQuoteRefusals(l, w.pool.reserveA, w.pool.reserveB, w.lp.supply);
      var q := QuoteRemoveLiquidity(l, w.pool.reserveA, w.pool.reserveB, w.lp.supply);
      if q.Ok? {
        WithdrawFailsOnlyInTokens(w, u, l, q.value);
        if Ready(w, u) && LpAccounts(w, u) && l <= Token.Balance(w.lp, u.lp) {
          hide Seeded, Ready;
          WithdrawSucceeds(w, u, l, q.value);
        }
      }
    }
  }

  lemma RemovalQuoteRefusals(l: u64, ra: u64, rb: u64, lp: u64)
    requires l > 0 && 0 < ra <= MAX_SUPPLY_CAP && 0 < rb <= MAX_SUPPLY_CAP && MINIMUM_LIQUIDITY <= lp <= MAX_SUPPLY_CAP
    ensures var q := QuoteRemoveLiquidity(l, ra, rb, lp);
      && (q.Err? ==> q.error == MathError.InsufficientLiquidity || q.error == MathError.ZeroOutput)
      && (q == Err(MathError.InsufficientLiquidity) ==> l + 1_000 > lp)
      && (q == Err(MathError.ZeroOutput) ==> Payout(l, ra, lp) == 0 || Payout(l, rb, lp) == 0)
      && (q.Ok? ==>
            && q.value.amountA == Payout(l, ra, lp) <= ra && q.value.amountB == Payout(l, rb, lp) <= rb
            && q.value.newLpSupply == lp - l)
  {
    QuoteRemoveExact(l, ra, rb, lp);
    RemovalOutOfRange(l, ra, rb, lp);
    if l <= lp {
      PayoutBounds(l, ra, lp);
      PayoutBounds(l, rb, lp);
    }
    hide QuoteRemoveLiquidity, Payout;
  }

  lemma RemovalOutOfRange(l: u64, ra: u64, rb: u64, lp: u64)
    requires l > 0 && 0 < ra <= MAX_SUPPLY_CAP && 0 < rb <= MAX_SUPPLY_CAP && MINIMUM_LIQUIDITY <= lp <= MAX_SUPPLY_CAP
    ensures l + 1_000 > lp ==> QuoteRemoveLiquidity(l, ra, rb, lp) == Err(MathError.InsufficientLiquidity)
  {}

  lemma WithdrawFailsOnlyInTokens(w: World, u: User, l: u64, q: RemoveLiquidityQuote)
    ensures Withdraw(w, u, l, q).Err? ==> Withdraw(w, u, l, q).error == AmmError.TokenRejected
  {}

  /** The same for swaps. */
  lemma SwapRefusalsAreTrue(w: World, u: User, direction: SwapDirection, amountIn: u64, minOut: u64)
    requires WorldInv(w)
    ensures var r := Swap(w, u, direction, amountIn, minOut);
      var rIn, rOut := ReserveIn(w.pool, direction), ReserveOut(w.pool, direction);
      r.Err? ==>
        match r.error
        case AccountConstraint => !CoinAccounts(w, u)
        case WalletNotAllowed => !UserAllowed(w, u)
        case ZeroAmount => amountIn == 0
        case ProtocolPaused => w.a.token.paused || w.b.token.paused
        case InsufficientLiquidity => Empty(w)
        case ValueOutOfRange => rIn + amountIn > 1_000_000_000_000_000
        case ZeroOutput => !Payable(amountIn, rIn, rOut, w.pool.feeBps, 1)
        case SlippageExceeded => !Payable(amountIn, rIn, rOut, w.pool.feeBps, minOut)
        case TokenRejected =>
          || !Ready(w, u)
          || (if direction.AtoB? then Token.Balance(w.a.token, u.a) else Token.Balance(w.b.token, u.b)) < amountIn
        case _ => false
  {
    ReservesUnderCap(w);
    hide QuoteSwap, Exchange, CoinInv, Payable;
    var rIn, rOut := ReserveIn(w.pool, direction), ReserveOut(w.pool, direction);
    SwapQuoteRefusals(amountIn, rIn, rOut, w.pool.feeBps, minOut);
    var q := QuoteSwap(amountIn, rIn, rOut, w.pool.feeBps);
    if q.Ok? {
      ExchangeFailsOnlyInTokens(w, u, direction, amountIn, q.value);
      if Ready(w, u)
         && amountIn <= (if direction.AtoB? then Token.Balance(w.a.token, u.a) else Token.Balance(w.b.token, u.b)) {
        hide Seeded, Ready;
        ExchangeSucceeds(w, u, direction, amountIn, q.value);
      }
    }
  }

  lemma ExchangeFailsOnlyInTokens(w: World, u: User, direction: SwapDirection, amountIn: u64, q: SwapQuote)
    ensures Exchange(w, u, direction, amountIn, q).Err? ==>
              Exchange(w, u, direction, amountIn, q).error == AmmError.TokenRejected
  {}

  lemma SwapQuoteRefusals(amountIn: u64, reserveIn: u64, reserveOut: u64, feeBps: u16, asked: u64)
    requires feeBps <= MAX_FEE_BPS && reserveIn <= MAX_SUPPLY_CAP && reserveOut <= MAX_SUPPLY_CAP
    ensures var q := QuoteSwap(amountIn, reserveIn, reserveOut, feeBps);
      && (q.Err? ==>
            match q.error
            case ZeroAmount => amountIn == 0
            case InsufficientLiquidity => reserveIn == 0 || reserveOut == 0
            case ValueOutOfRange => reserveIn + amountIn > MAX_SUPPLY_CAP
            case ZeroOutput => !Payable(amountIn, reserveIn, reserveOut, feeBps, 1)
            case _ => false)
      && (q.Ok? ==>
            && q.value.amountOut <= reserveOut
            && (asked <= q.value.amountOut <==> Payable(amountIn, reserveIn, reserveOut, feeBps, asked)))
  {
    QuoteSwapExact(amountIn, reserveIn, reserveOut, feeBps);
    SwapAtTheStatedRate(amountIn, reserveIn, reserveOut, feeBps, asked);
    if reserveIn > 0 && amountIn <= MAX_SUPPLY_CAP {
      SwapOutIsGreatestAffordable(amountIn, reserveIn, reserveOut, feeBps, 1);
      SwapIntermediatesFit(amountIn, reserveIn, reserveOut, 0, feeBps);
    }
  }
}
