/** Where coins go over a whole run: the surplus in each vault is exactly what was sent
    there, and pool instructions create and destroy nothing. */
module Conservation {
  import opened Results
  import opened Numeric
  import opened Balances
  import opened AmmMath
  import opened Issuance
  import opened World
  import opened Steps
  import opened Runs
  import Token

  predicate IsPoolOp(op: Op) {
    op.OpAdd? || op.OpRemove? || op.OpSwap?
  }

  function UserAccount(op: Op, side: Side): Key
    requires IsPoolOp(op)
  {
    if side.SideA? then op.u.a else op.u.b
  }

  /** A pool instruction moves exactly the change of the reserve between its user and the
      vault, on each side; every other balance, the supply, and the rest of the coin stay
      as they were. */
  lemma PoolOpMovesReserves(w: World, op: Op, side: Side)
    requires WorldInv(w) && IsPoolOp(op) && Step(w, op).Some?
    ensures var w' := Step(w, op).value;
      && UserAccount(op, side) != VaultOf(w, side)
      && CoinMoved(CoinOf(w, side), CoinOf(w', side), UserAccount(op, side), VaultOf(w, side),
                   ReserveOf(w', side) - ReserveOf(w, side))
  {
    hide WorldInv, Seeded, StepKeepsPerSide, StepKeepsValue;
    PoolOpMoves(w, op);
  }

  /** The LP tokens a deposit locks: only the first one locks any. */
  function LpToLock(w: World, op: Op): nat {
    if op.OpAdd? && DepositQuote(w, op.aDesired, op.bDesired).Ok?
    then DepositQuote(w, op.aDesired, op.bDesired).value.lpToLock
    else 0
  }

  /** The LP tokens a pool instruction mints or burns go to or come from its user, apart
      from what a first deposit locks. */
  lemma PoolOpMoves(w: World, op: Op)
    requires WorldInv(w) && IsPoolOp(op) && Step(w, op).Some?
    ensures var w' := Step(w, op).value;
      && op.u.a != w.pool.vaultA && op.u.b != w.pool.vaultB
      && (if op.OpSwap? then w'.lp == w.lp else op.u.lp != w.pool.lockedLp)
      && (Seeded(w) ==> LpToLock(w, op) == 0)
      && Moved(w, w', op.u, w'.pool.reserveA - w.pool.reserveA, w'.pool.reserveB - w.pool.reserveB,
               w'.lp.supply - w.lp.supply - LpToLock(w, op), LpToLock(w, op))
  {
    hide WorldInv, Seeded, StepKeepsPerSide, StepKeepsValue, DepositQuote, Deposit, Withdraw, Exchange;
    hide QuoteRemoveLiquidity, QuoteSwap;
    match op
    case OpAdd(u, aDesired, bDesired, aMin, bMin, minLp) => AddEffect(w, u, aDesired, bDesired, aMin, bMin, minLp);
    case OpRemove(u, lpAmount, minA, minB) => RemoveEffect(w, u, lpAmount, minA, minB);
    case OpSwap(u, direction, amountIn, minOut) => SwapEffect(w, u, direction, amountIn, minOut);
  }

  // ----- exact surplus

  /** What a vault holds beyond its reserve. */
  function Surplus(w: World, side: Side): int {
    Token.Balance(CoinOf(w, side).token, VaultOf(w, side)) - ReserveOf(w, side)
  }

  /** What an operation sends or mints straight into a vault, past the pool. */
  function SentTo(op: CoinOp, vault: Key): nat {
    match op
    case DirectTransfer(_, to, amount) => if to == vault then amount else 0
    case OpMintTo(_, destination, amount) => if destination == vault then amount else 0
    case _ => 0
  }

  function DonatedBy(w: World, op: Op, side: Side): nat {
    if op.OnCoin? && op.side == side && Step(w, op).Some? then SentTo(op.coinOp, VaultOf(w, side)) else 0
  }

  function Donated(w: World, ops: seq<Op>, side: Side): nat {
    if ops == [] then 0
    else Donated(w, Front(ops), side) + DonatedBy(Run(w, Front(ops)), Last(ops), side)
  }

  lemma StepSurplus(w: World, op: Op, side: Side)
    requires WorldInv(w) && Step(w, op).Some?
    ensures Surplus(Step(w, op).value, side) == Surplus(w, side) + DonatedBy(w, op, side)
  {
    hide WorldInv, Seeded;
    var w' := Step(w, op).value;
    match op
    case OnCoin(s, coinOp) => CoinStepEffect(w, s, coinOp);
    case OpAdd(_, _, _, _, _, _) => PoolSurplus(w, op, side);
    case OpRemove(_, _, _, _) => PoolSurplus(w, op, side);
    case OpSwap(_, _, _, _) => PoolSurplus(w, op, side);
    case _ => LpStepEffect(w, op);
  }

  lemma PoolSurplus(w: World, op: Op, side: Side)
    requires WorldInv(w) && IsPoolOp(op) && Step(w, op).Some?
    ensures Surplus(Step(w, op).value, side) == Surplus(w, side)
    ensures VaultOf(Step(w, op).value, side) == VaultOf(w, side)
  {
    hide WorldInv, Step;
    var w' := Step(w, op).value;
    StepKeepsInv(w, op);
    PoolOpMovesReserves(w, op, side);
    SumOfOne(CoinOf(w, side).token.balances, VaultOf(w, side));
    SumOfOne(CoinOf(w', side).token.balances, VaultOf(w, side));
  }

  /** Over any run, the surplus on each side grows by exactly what was sent or minted
      straight into that vault: no pool instruction ever touches it. */
  lemma {:induction false} SurplusIsWhatWasDonated(w: World, ops: seq<Op>, side: Side)
    requires WorldInv(w)
    ensures Surplus(Run(w, ops), side) == Surplus(w, side) + Donated(w, ops, side)
    decreases |ops|
  {
    hide WorldInv, Step, Surplus;
    if ops != [] {
      SurplusIsWhatWasDonated(w, Front(ops), side);
      RunKeepsInv(w, Front(ops));
      var before := Run(w, Front(ops));
      if Step(before, Last(ops)).Some? {
        StepSurplus(before, Last(ops), side);
      } else {
        assert DonatedBy(before, Last(ops), side) == 0;
      }
    }
  }

  // ----- conservation

  /** A pool instruction leaves each coin's supply, and the joint balance of its user and
      the vault, exactly as they were, and touches no third account. */
  lemma PoolOpsConserveCoins(w: World, op: Op, side: Side, third: Key)
    requires WorldInv(w) && IsPoolOp(op) && Step(w, op).Some?
    requires third != UserAccount(op, side) && third != VaultOf(w, side)
    ensures var c, c' := CoinOf(w, side).token, CoinOf(Step(w, op).value, side).token;
      var user, vault := UserAccount(op, side), VaultOf(w, side);
      && c'.supply == c.supply
      && Token.Balance(c', user) + Token.Balance(c', vault) == Token.Balance(c, user) + Token.Balance(c, vault)
      && Token.Balance(c', third) == Token.Balance(c, third)
  {
    hide WorldInv, Step;
    PoolOpMovesReserves(w, op, side);
    var m, m' := CoinOf(w, side).token.balances, CoinOf(Step(w, op).value, side).token.balances;
    SumOfOne(m, UserAccount(op, side));
    SumOfOne(m', UserAccount(op, side));
    SumOfOne(m, VaultOf(w, side));
    SumOfOne(m', VaultOf(w, side));
    SumOfOne(m, third);
    SumOfOne(m', third);
  }
}
