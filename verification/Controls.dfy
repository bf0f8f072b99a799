/** The issuer's controls over whole runs: any coin can be paused and resumed, a blocked
    account keeps its balance until it is allowed again, and what holders of LP tokens do
    directly does what they ask. */
module Controls {
  import opened Results
  import opened Numeric
  import opened Balances
  import opened AmmMath
  import opened Issuance
  import opened World
  import opened Steps
  import opened Runs
  import opened CoinEffects
  import opened Conservation
  import opened IssuanceRuns
  import Token

  lemma ReachableNext(w: World, op: Op)
    requires Reachable(w)
    ensures Reachable(Next(w, op))
  {
    var w0: World, ops: seq<Op> :| Initial(w0) && Run(w0, ops) == w;
    assert Front(ops + [op]) == ops;
    assert Run(w0, ops + [op]) == Next(w, op);
  }

  /** In every reachable state a live coin can be paused by its admin or its compliance
      authority, which changes nothing else; either of them can resume it, which leads back
      to the state before. So paused states are reached, and are never a dead end. */
  lemma EveryCoinCanBePaused(w: World, side: Side, first: Key, second: Key)
    requires Reachable(w) && !CoinOf(w, side).token.paused
    requires first == CoinOf(w, side).config.admin || first == CoinOf(w, side).config.complianceAuthority
    requires second == CoinOf(w, side).config.admin || second == CoinOf(w, side).config.complianceAuthority
    ensures var w' := Next(w, OnCoin(side, OpSetPause(first, true)));
      && Reachable(w')
      && CoinOf(w', side).token.paused && CoinOf(w', side).config.paused
      && Next(w', OnCoin(side, OpSetPause(second, false))) == w
  {
    ReachableStatesAreSound(w);
    ReachableNext(w, OnCoin(side, OpSetPause(first, true)));
    var c := CoinOf(w, side);
    assert CoinInv(c);
    PauseExact(c, first, true);
    PauseIsUndone(c, first, second);
    hide CoinStep, CoinInv, WorldInv;
    var paused := CoinStep(c, OpSetPause(first, true)).value;
    assert Next(w, OnCoin(side, OpSetPause(first, true))) == WithCoin(w, side, paused);
  }

  // ----- blocked accounts

  /** The account cannot move coins: it is frozen, or does not exist. */
  predicate Held(c: Coin, k: Key) {
    k !in c.token.balances || k in c.token.frozen
  }

  lemma CoinStepHolds(c: Coin, op: CoinOp, k: Key)
    requires CoinInv(c) && CoinStep(c, op).Ok? && Held(c, k)
    requires !(op.OpSetWalletPolicy? && op.account == k && op.status.Allowed?)
    ensures Held(CoinStep(c, op).value, k)
    ensures Token.Balance(CoinStep(c, op).value.token, k) == Token.Balance(c.token, k)
  {
    hide SupplyInv, AllowanceInv, Token.TokenInv;
  }

  lemma StepHolds(w: World, op: Op, side: Side, k: Key)
    requires WorldInv(w) && Step(w, op).Some? && Held(CoinOf(w, side), k)
    requires !(op.OnCoin? && op.side == side && op.coinOp.OpSetWalletPolicy?
               && op.coinOp.account == k && op.coinOp.status.Allowed?)
    ensures var c' := CoinOf(Step(w, op).value, side);
      Held(c', k) && Token.Balance(c'.token, k) == Token.Balance(CoinOf(w, side).token, k)
  {
    CoinEvolution(w, op, side);
    assert CoinInv(CoinOf(w, side));
    if op.OnCoin? && op.side == side {
      hide WorldInv, Step, CoinStep;
      CoinStepHolds(CoinOf(w, side), op.coinOp, k);
    } else if IsPoolOp(op) {
      PoolHolds(w, op, side, k);
    } else {
      hide WorldInv, CoinInv;
    }
  }

  lemma PoolHolds(w: World, op: Op, side: Side, k: Key)
    requires WorldInv(w) && IsPoolOp(op) && Step(w, op).Some? && Held(CoinOf(w, side), k)
    ensures Token.Balance(CoinOf(Step(w, op).value, side).token, k) == Token.Balance(CoinOf(w, side).token, k)
  {
    hide DepositQuote, QuoteRemoveLiquidity, QuoteSwap, WorldInv;
  }

  /** A block holds: from any sound state in which an account is frozen, no run changes its
      balance until the compliance authority allows it - not the owner, not the pool, not
      closing and reopening the account. */
  lemma {:induction false} HeldBalanceStays(w: World, ops: seq<Op>, side: Side, k: Key)
    requires WorldInv(w) && Held(CoinOf(w, side), k)
    requires forall op :: op in ops ==>
               !(op.OnCoin? && op.side == side && op.coinOp.OpSetWalletPolicy?
                 && op.coinOp.account == k && op.coinOp.status.Allowed?)
    ensures Held(CoinOf(Run(w, ops), side), k)
    ensures Token.Balance(CoinOf(Run(w, ops), side).token, k) == Token.Balance(CoinOf(w, side).token, k)
    decreases |ops|
  {
    hide WorldInv, Step, Held;
    if ops != [] {
      HeldBalanceStays(w, Front(ops), side, k);
      RunKeepsInv(w, Front(ops));
      var before := Run(w, Front(ops));
      if Step(before, Last(ops)).Some? {
        StepHolds(before, Last(ops), side, k);
      }
    }
  }

  /** Blocking is enough: once the compliance authority blocks an existing account, its
      balance stays as it is over every run that does not allow it again. */
  lemma BlockedBalanceStays(w: World, ops: seq<Op>, side: Side, k: Key)
    requires Reachable(w) && k in CoinOf(w, side).token.balances
    requires forall op :: op in ops ==>
               !(op.OnCoin? && op.side == side && op.coinOp.OpSetWalletPolicy?
                 && op.coinOp.account == k && op.coinOp.status.Allowed?)
    ensures var block := OnCoin(side, OpSetWalletPolicy(CoinOf(w, side).config.complianceAuthority, k, Blocked));
      Token.Balance(CoinOf(Run(Next(w, block), ops), side).token, k) == CoinOf(w, side).token.balances[k]
  {
    var c := CoinOf(w, side);
    var op := OpSetWalletPolicy(c.config.complianceAuthority, k, Blocked);
    ReachableStatesAreSound(w);
    WalletPolicyExact(c, c.config.complianceAuthority, k, Blocked);
    StepKeepsInvNext(w, OnCoin(side, op));
    hide CoinStep, WorldInv;
    assert Next(w, OnCoin(side, op)) == WithCoin(w, side, CoinStep(c, op).value);
    HeldBalanceStays(Next(w, OnCoin(side, op)), ops, side, k);
  }

  lemma StepKeepsInvNext(w: World, op: Op)
    requires WorldInv(w)
    ensures WorldInv(Next(w, op))
  {
    if Step(w, op).Some? {
      StepKeepsInv(w, op);
    }
  }

  // ----- LP tokens outside the pool

  /** LP tokens move and burn at their holder's will: any amount held, except what is locked,
      and with no effect but on the balances named and, for a burn, the supply. */
  lemma LpMovesFreely(w: World, from: Key, to: Key, amount: u64)
    requires WorldInv(w)
    ensures Step(w, LpTransfer(from, to, amount)).Some? <==>
              && from != w.pool.lockedLp && from in w.lp.balances && to in w.lp.balances
              && amount <= w.lp.balances[from]
    ensures Step(w, LpTransfer(from, to, amount)).Some? ==>
              var w' := Step(w, LpTransfer(from, to, amount)).value;
              && w' == w.(lp := w.lp.(balances := w'.lp.balances))
              && w'.lp.balances.Keys == w.lp.balances.Keys
              && (forall k :: k in w.lp.balances ==>
                    w'.lp.balances[k] == w.lp.balances[k] + (if k == to then amount else 0)
                                         - (if k == from then amount else 0))
    ensures Step(w, LpBurn(from, amount)).Some? <==>
              from != w.pool.lockedLp && from in w.lp.balances && amount <= w.lp.balances[from]
    ensures Step(w, LpBurn(from, amount)).Some? ==>
              var w' := Step(w, LpBurn(from, amount)).value;
              w' == w.(lp := w'.lp) && OnlyCredited(w.lp, w'.lp, from, 0 - amount)
  {
    hide CoinInv, Seeded;
    if from in w.lp.balances {
      Token.FundedBurnSucceeds(w.lp, from, amount);
      if to in w.lp.balances {
        Token.FundedTransferSucceeds(w.lp, from, to, amount);
      }
    }
  }
}
