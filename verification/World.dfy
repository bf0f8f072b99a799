/** Two stablecoins, one pool between them, and the pool's LP token; the three AMM
    instructions as functions on that state, carrying only the checks that can fail. */
module World {
  import opened Results
  import opened Numeric
  import opened SquareRoot
  import opened Balances
  import opened AmmMath
  import opened Issuance
  import Token

  datatype Pool = Pool(
    vaultA: Key, vaultB: Key, lockedLp: Key,
    reserveA: u64, reserveB: u64, feeBps: u16)

  datatype World = World(a: Coin, b: Coin, lp: Token.Token, pool: Pool)

  /** The token accounts a user brings to an AMM instruction. */
  datatype User = User(a: Key, b: Key, lp: Key)

  datatype SwapDirection = AtoB | BtoA

  datatype AmmError =
    | AccountConstraint
    | TokenRejected
    | ProtocolPaused
    | WalletNotAllowed
    | SlippageExceeded
    | VaultBalanceInvariant
    | LpSupplyInvariant
    | LockedLiquidityInvariant
    | ConstantProductViolation
    | ZeroAmount
    | InvalidFee
    | InsufficientLiquidity
    | InsufficientInitialLiquidity
    | ZeroOutput
    | InvalidLiquidityState
    | ValueOutOfRange
    | MathOverflow

  function FromMath(error: MathError): AmmError {
    match error
    case ZeroAmount => AmmError.ZeroAmount
    case InvalidFee => AmmError.InvalidFee
    case InsufficientLiquidity => AmmError.InsufficientLiquidity
    case InsufficientInitialLiquidity => AmmError.InsufficientInitialLiquidity
    case ZeroOutput => AmmError.ZeroOutput
    case InvalidLiquidityState => AmmError.InvalidLiquidityState
    case ValueOutOfRange => AmmError.ValueOutOfRange
    case MathOverflow => AmmError.MathOverflow
  }

  type WorldResult = Result<World, AmmError>

  /** The pool's canonical accounts exist, and the user's accounts exist, are not the
      pool's, and have wallet policies. */
  predicate CoinAccounts(w: World, u: User) {
    && w.pool.vaultA in w.a.token.balances && w.pool.vaultB in w.b.token.balances
    && u.a in w.a.token.balances && u.a != w.pool.vaultA && u.a in w.a.policies
    && u.b in w.b.token.balances && u.b != w.pool.vaultB && u.b in w.b.policies
  }

  predicate LpAccounts(w: World, u: User) {
    && w.pool.lockedLp in w.lp.balances
    && u.lp in w.lp.balances && u.lp != w.pool.lockedLp
  }

  predicate UserAllowed(w: World, u: User) {
    IsAllowed(w.a, u.a) && IsAllowed(w.b, u.b)
  }

  predicate Paused(w: World) {
    w.a.config.paused || w.b.config.paused
  }

  // ----- add_liquidity

  datatype DepositTerms = DepositTerms(amountA: u64, amountB: u64, lpToUser: u64, lpToLock: u64)

  function DepositQuote(w: World, aDesired: u64, bDesired: u64): Result<DepositTerms, AmmError> {
    if w.lp.supply == 0 then
      var q :- InitialLiquidity(aDesired, bDesired).MapErr(FromMath);
      Ok(DepositTerms(aDesired, bDesired, q.lpToUser, q.lpToLock))
    else
      var q :- QuoteAddLiquidity(aDesired, bDesired, w.pool.reserveA, w.pool.reserveB, w.lp.supply).MapErr(FromMath);
      Ok(DepositTerms(q.amountA, q.amountB, q.lpMinted, 0))
  }

  function Deposit(w: World, u: User, d: DepositTerms): WorldResult {
    if w.pool.reserveA + d.amountA > U64_MAX || w.pool.reserveB + d.amountB > U64_MAX then Err(AmmError.MathOverflow)
    else
      var a :- Token.Transfer(w.a.token, u.a, w.pool.vaultA, d.amountA).OkOr(AmmError.TokenRejected);
      var b :- Token.Transfer(w.b.token, u.b, w.pool.vaultB, d.amountB).OkOr(AmmError.TokenRejected);
      var locked :- LockLp(w, d.lpToLock);
      var lp :- Token.Mint(locked, u.lp, d.lpToUser).OkOr(AmmError.TokenRejected);
      Ok(World(w.a.(token := a), w.b.(token := b), lp,
               w.pool.(reserveA := w.pool.reserveA + d.amountA, reserveB := w.pool.reserveB + d.amountB)))
  }

  function LockLp(w: World, amount: u64): Result<Token.Token, AmmError> {
    if amount > 0 then Token.Mint(w.lp, w.pool.lockedLp, amount).OkOr(AmmError.TokenRejected) else Ok(w.lp)
  }

  function AddLiquidity(w: World, u: User, aDesired: u64, bDesired: u64,
                        aMin: u64, bMin: u64, minLp: u64): WorldResult {
    if !CoinAccounts(w, u) || !LpAccounts(w, u) then Err(AmmError.AccountConstraint)
    else if !UserAllowed(w, u) then Err(AmmError.WalletNotAllowed)
    else if aDesired == 0 || bDesired == 0 then Err(AmmError.ZeroAmount)
    else if Paused(w) then Err(AmmError.ProtocolPaused)
    else
      var d :- DepositQuote(w, aDesired, bDesired);
      if d.amountA < aMin || d.amountB < bMin || d.lpToUser < minLp then Err(SlippageExceeded)
      else Deposit(w, u, d)
  }

  // ----- remove_liquidity

  function Withdraw(w: World, u: User, lpAmount: u64, q: RemoveLiquidityQuote): WorldResult {
    var lp :- Token.Burn(w.lp, u.lp, lpAmount).OkOr(AmmError.TokenRejected);
    var a :- Token.Transfer(w.a.token, w.pool.vaultA, u.a, q.amountA).OkOr(AmmError.TokenRejected);
    var b :- Token.Transfer(w.b.token, w.pool.vaultB, u.b, q.amountB).OkOr(AmmError.TokenRejected);
    Ok(World(w.a.(token := a), w.b.(token := b), lp,
             w.pool.(reserveA := q.newReserveA, reserveB := q.newReserveB)))
  }

  function RemoveLiquidity(w: World, u: User, lpAmount: u64, minA: u64, minB: u64): WorldResult {
    if !CoinAccounts(w, u) || !LpAccounts(w, u) then Err(AmmError.AccountConstraint)
    else if !UserAllowed(w, u) then Err(AmmError.WalletNotAllowed)
    else if lpAmount == 0 then Err(AmmError.ZeroAmount)
    else if Paused(w) then Err(AmmError.ProtocolPaused)
    else if w.pool.reserveA == 0 || w.pool.reserveB == 0 || w.lp.supply < MINIMUM_LIQUIDITY then
      Err(AmmError.InvalidLiquidityState)
    else
      var q :- QuoteRemoveLiquidity(lpAmount, w.pool.reserveA, w.pool.reserveB, w.lp.supply).MapErr(FromMath);
      if q.newLpSupply < Token.Balance(w.lp, w.pool.lockedLp) then Err(LockedLiquidityInvariant)
      else if q.amountA < minA || q.amountB < minB then Err(SlippageExceeded)
      else Withdraw(w, u, lpAmount, q)
  }

  // ----- swap

  function Exchange(w: World, u: User, direction: SwapDirection, amountIn: u64, q: SwapQuote): WorldResult {
    match direction
    case AtoB =>
      var a :- Token.Transfer(w.a.token, u.a, w.pool.vaultA, amountIn).OkOr(AmmError.TokenRejected);
      var b :- Token.Transfer(w.b.token, w.pool.vaultB, u.b, q.amountOut).OkOr(AmmError.TokenRejected);
      Ok(w.(a := w.a.(token := a), b := w.b.(token := b),
            pool := w.pool.(reserveA := q.newReserveIn, reserveB := q.newReserveOut)))
    case BtoA =>
      var b :- Token.Transfer(w.b.token, u.b, w.pool.vaultB, amountIn).OkOr(AmmError.TokenRejected);
      var a :- Token.Transfer(w.a.token, w.pool.vaultA, u.a, q.amountOut).OkOr(AmmError.TokenRejected);
      Ok(w.(a := w.a.(token := a), b := w.b.(token := b),
            pool := w.pool.(reserveA := q.newReserveOut, reserveB := q.newReserveIn)))
  }

  function ReserveIn(p: Pool, direction: SwapDirection): u64 {
    if direction.AtoB? then p.reserveA else p.reserveB
  }

  function ReserveOut(p: Pool, direction: SwapDirection): u64 {
    if direction.AtoB? then p.reserveB else p.reserveA
  }

  function Swap(w: World, u: User, direction: SwapDirection, amountIn: u64, minOut: u64): WorldResult {
    if !CoinAccounts(w, u) then Err(AmmError.AccountConstraint)
    else if !UserAllowed(w, u) then Err(AmmError.WalletNotAllowed)
    else if amountIn == 0 then Err(AmmError.ZeroAmount)
    else if Paused(w) then Err(AmmError.ProtocolPaused)
    else
      var reserveIn, reserveOut := ReserveIn(w.pool, direction), ReserveOut(w.pool, direction);
      var q :- QuoteSwap(amountIn, reserveIn, reserveOut, w.pool.feeBps).MapErr(FromMath);
      if q.amountOut < minOut then Err(SlippageExceeded)
      else Exchange(w, u, direction, amountIn, q)
  }

  // ----- what every state keeps

  ghost predicate Empty(w: World) {
    w.pool.reserveA == 0 && w.pool.reserveB == 0 && w.lp.supply == 0
  }

  ghost predicate Seeded(w: World) {
    && w.pool.reserveA > 0 && w.pool.reserveB > 0
    && MINIMUM_LIQUIDITY <= Token.Balance(w.lp, w.pool.lockedLp) <= w.lp.supply
    && w.lp.supply * w.lp.supply <= w.pool.reserveA * w.pool.reserveB
  }

  ghost predicate Solvent(w: World) {
    && w.pool.reserveA <= Token.Balance(w.a.token, w.pool.vaultA)
    && w.pool.reserveB <= Token.Balance(w.b.token, w.pool.vaultB)
  }

  ghost predicate PoolAccounts(w: World) {
    && w.pool.vaultA in w.a.token.balances && w.pool.vaultB in w.b.token.balances
    && w.pool.lockedLp in w.lp.balances
    && w.pool.feeBps <= MAX_FEE_BPS
  }

  ghost predicate WorldInv(w: World) {
    && CoinInv(w.a) && CoinInv(w.b)
    && Token.TokenInv(w.lp) && w.lp.frozen == {} && !w.lp.paused
    && PoolAccounts(w) && Solvent(w)
    && (Empty(w) || Seeded(w))
  }

  /** Just after `initialize_pool`: an empty pool over two stablecoins with no history. */
  ghost predicate Initial(w: World) {
    && Fresh(w.a) && Fresh(w.b)
    && w.lp == Token.Token(map[w.pool.lockedLp := 0], 0, {}, false)
    && PoolAccounts(w) && w.pool.reserveA == 0 && w.pool.reserveB == 0
  }

  lemma InitialHasInv(w: World)
    requires Initial(w)
    ensures WorldInv(w)
  {
    FreshHasInv(w.a);
    FreshHasInv(w.b);
    SumOfOne(w.lp.balances, w.pool.lockedLp);
    assert w.lp.balances.Keys == {w.pool.lockedLp};
  }

  // ----- a pool instruction moves coins between one user and the vaults, and nothing else

  ghost predicate CoinMoved(c: Coin, c': Coin, user: Key, vault: Key, into: int) {
    && c'.config == c.config && c'.roles == c.roles && c'.policies == c.policies
    && c'.token.supply == c.token.supply && c'.token.frozen == c.token.frozen && c'.token.paused == c.token.paused
    && c'.token.balances.Keys == c.token.balances.Keys
    && (forall s :: SumOver(c'.token.balances, s)
          == SumOver(c.token.balances, s) + (if vault in s then into else 0) - (if user in s then into else 0))
  }

  /** `intoA` and `intoB` flow from the user into the vaults and reserves alike (out when
      negative); the user's and the locked LP balances change by `toUser` and `toLock`. */
  ghost predicate Moved(w: World, w': World, u: User, intoA: int, intoB: int, toUser: int, toLock: int) {
    && CoinMoved(w.a, w'.a, u.a, w.pool.vaultA, intoA)
    && CoinMoved(w.b, w'.b, u.b, w.pool.vaultB, intoB)
    && (w'.pool.vaultA, w'.pool.vaultB, w'.pool.lockedLp, w'.pool.feeBps)
         == (w.pool.vaultA, w.pool.vaultB, w.pool.lockedLp, w.pool.feeBps)
    && w'.pool.reserveA == w.pool.reserveA + intoA
    && w'.pool.reserveB == w.pool.reserveB + intoB
    && w'.lp.supply == w.lp.supply + toUser + toLock
    && w'.lp.frozen == w.lp.frozen && w'.lp.paused == w.lp.paused
    && w'.lp.balances.Keys == w.lp.balances.Keys
    && (forall s :: SumOver(w'.lp.balances, s)
          == SumOver(w.lp.balances, s) + (if u.lp in s then toUser else 0)
             + (if w.pool.lockedLp in s then toLock else 0))
  }

  lemma TransferMoves(c: Coin, from: Key, to: Key, amount: u64)
    requires CoinInv(c) && Token.Transfer(c.token, from, to, amount).Some?
    ensures var c' := c.(token := Token.Transfer(c.token, from, to, amount).value);
      && CoinInv(c')
      && CoinMoved(c, c', from, to, amount)
      && CoinMoved(c, c', to, from, 0 - amount)
  {
    Token.TransferEffect(c.token, from, to, amount);
  }

  /** Any such movement keeps everything but the pool's own value condition. */
  lemma MovedKeepsInv(w: World, w': World, u: User, intoA: int, intoB: int, toUser: int, toLock: int)
    requires WorldInv(w) && Moved(w, w', u, intoA, intoB, toUser, toLock)
    requires u.a != w.pool.vaultA && u.b != w.pool.vaultB && (u.lp != w.pool.lockedLp || toUser == 0)
    requires CoinInv(w'.a) && CoinInv(w'.b) && Token.TokenInv(w'.lp)
    requires w'.pool.reserveA > 0 && w'.pool.reserveB > 0
    requires Token.Balance(w.lp, w.pool.lockedLp) + toLock >= MINIMUM_LIQUIDITY
    requires w'.lp.supply * w'.lp.supply <= w'.pool.reserveA * w'.pool.reserveB
    ensures WorldInv(w') && Seeded(w')
  {
    SumOfOne(w.a.token.balances, w.pool.vaultA);
    SumOfOne(w'.a.token.balances, w.pool.vaultA);
    SumOfOne(w.b.token.balances, w.pool.vaultB);
    SumOfOne(w'.b.token.balances, w.pool.vaultB);
    SumOfOne(w.lp.balances, w.pool.lockedLp);
    SumOfOne(w'.lp.balances, w.pool.lockedLp);
    BalanceWithinTotal(w'.lp.balances, w.pool.lockedLp);
  }

  lemma DepositMoves(w: World, u: User, d: DepositTerms)
    requires WorldInv(w) && Deposit(w, u, d).Ok?
    ensures var w' := Deposit(w, u, d).value;
      && Moved(w, w', u, d.amountA, d.amountB, d.lpToUser, d.lpToLock)
      && CoinInv(w'.a) && CoinInv(w'.b) && Token.TokenInv(w'.lp)
  {
    TransferMoves(w.a, u.a, w.pool.vaultA, d.amountA);
    TransferMoves(w.b, u.b, w.pool.vaultB, d.amountB);
    var locked := LockLp(w, d.lpToLock).value;
    if d.lpToLock > 0 {
      Token.MintEffect(w.lp, w.pool.lockedLp, d.lpToLock);
    }
    Token.MintEffect(locked, u.lp, d.lpToUser);
  }

  lemma WithdrawMoves(w: World, u: User, lpAmount: u64, q: RemoveLiquidityQuote)
    requires WorldInv(w) && Withdraw(w, u, lpAmount, q).Ok?
    requires q.newReserveA == w.pool.reserveA - q.amountA && q.newReserveB == w.pool.reserveB - q.amountB
    ensures var w' := Withdraw(w, u, lpAmount, q).value;
      && Moved(w, w', u, 0 - q.amountA, 0 - q.amountB, 0 - lpAmount, 0)
      && CoinInv(w'.a) && CoinInv(w'.b) && Token.TokenInv(w'.lp)
  {
    Token.BurnEffect(w.lp, u.lp, lpAmount);
    TransferMoves(w.a, w.pool.vaultA, u.a, q.amountA);
    TransferMoves(w.b, w.pool.vaultB, u.b, q.amountB);
  }

  /** What a swap puts into side A of the pool, and what into side B. */
  function IntoA(direction: SwapDirection, amountIn: u64, amountOut: u64): int {
    if direction.AtoB? then amountIn else 0 - amountOut
  }

  function IntoB(direction: SwapDirection, amountIn: u64, amountOut: u64): int {
    if direction.AtoB? then 0 - amountOut else amountIn
  }

  lemma ExchangeMoves(w: World, u: User, direction: SwapDirection, amountIn: u64, q: SwapQuote)
    requires WorldInv(w) && Exchange(w, u, direction, amountIn, q).Ok?
    requires q.newReserveIn == ReserveIn(w.pool, direction) + amountIn
    requires q.newReserveOut == ReserveOut(w.pool, direction) - q.amountOut
    ensures var w' := Exchange(w, u, direction, amountIn, q).value;
      && Moved(w, w', u, IntoA(direction, amountIn, q.amountOut), IntoB(direction, amountIn, q.amountOut), 0, 0)
      && CoinInv(w'.a) && CoinInv(w'.b) && w'.lp == w.lp
  {
    match direction
    case AtoB =>
      TransferMoves(w.a, u.a, w.pool.vaultA, amountIn);
      TransferMoves(w.b, w.pool.vaultB, u.b, q.amountOut);
    case BtoA =>
      TransferMoves(w.b, u.b, w.pool.vaultB, amountIn);
      TransferMoves(w.a, w.pool.vaultA, u.a, q.amountOut);
  }
}
