/** Every way the world can move: the AMM instructions, the stablecoin instructions, and
    what owners do to their token accounts without either program; and runs of them. */
module Runs {
  import opened Results
  import opened Numeric
  import opened Balances
  import opened AmmMath
  import opened LiquidityLaws
  import opened Issuance
  import opened World
  import opened Steps
  import Token

  datatype Side = SideA | SideB

  function CoinOf(w: World, side: Side): Coin {
    if side.SideA? then w.a else w.b
  }

  function VaultOf(w: World, side: Side): Key {
    if side.SideA? then w.pool.vaultA else w.pool.vaultB
  }

  function ReserveOf(w: World, side: Side): u64 {
    if side.SideA? then w.pool.reserveA else w.pool.reserveB
  }

  function WithCoin(w: World, side: Side, c: Coin): World {
    if side.SideA? then w.(a := c) else w.(b := c)
  }

  datatype Op =
    | OnCoin(side: Side, coinOp: CoinOp)
    | LpOpen(account: Key)
    | LpClose(account: Key)
    | LpTransfer(from: Key, to: Key, amount: u64)
    | LpBurn(from: Key, amount: u64)
    | OpAdd(u: User, aDesired: u64, bDesired: u64, aMin: u64, bMin: u64, minLp: u64)
    | OpRemove(u: User, lpAmount: u64, minA: u64, minB: u64)
    | OpSwap(u: User, direction: SwapDirection, amountIn: u64, minOut: u64)

  /** The accounts whose owner has to sign. The pool signs only inside its own
      instructions, so its vaults and its locked LP account never appear here. */
  function Debited(op: CoinOp): set<Key> {
    match op
    case CloseAccount(k) => {k}
    case DirectTransfer(from, _, _) => {from}
    case DirectBurn(from, _) => {from}
    case OpBurn(source, _) => {source}
    case _ => {}
  }

  function StepCoin(w: World, side: Side, op: CoinOp): Option<World> {
    if VaultOf(w, side) in Debited(op) then None
    else
      match CoinStep(CoinOf(w, side), op)
      case Ok(c) => Some(WithCoin(w, side, c))
      case Err(_) => None
  }

  function WithLp(w: World, lp: Option<Token.Token>): Option<World> {
    match lp
    case Some(t) => Some(w.(lp := t))
    case None => None
  }

  function Accepted(r: WorldResult): Option<World> {
    match r
    case Ok(w) => Some(w)
    case Err(_) => None
  }

  function Step(w: World, op: Op): Option<World> {
    match op
    case OnCoin(side, coinOp) => StepCoin(w, side, coinOp)
    case LpOpen(k) => WithLp(w, Token.OpenAccount(w.lp, k, false))
    case LpClose(k) => if k == w.pool.lockedLp then None else WithLp(w, Token.CloseAccount(w.lp, k))
    case LpTransfer(from, to, amount) =>
      if from == w.pool.lockedLp then None else WithLp(w, Token.Transfer(w.lp, from, to, amount))
    case LpBurn(from, amount) =>
      if from == w.pool.lockedLp then None else WithLp(w, Token.Burn(w.lp, from, amount))
    case OpAdd(u, aDesired, bDesired, aMin, bMin, minLp) =>
      Accepted(AddLiquidity(w, u, aDesired, bDesired, aMin, bMin, minLp))
    case OpRemove(u, lpAmount, minA, minB) => Accepted(RemoveLiquidity(w, u, lpAmount, minA, minB))
    case OpSwap(u, direction, amountIn, minOut) => Accepted(Swap(w, u, direction, amountIn, minOut))
  }

  /** A rejected operation leaves the world as it was. */
  function Next(w: World, op: Op): World {
    match Step(w, op)
    case Some(w') => w'
    case None => w
  }

  function Run(w: World, ops: seq<Op>): World {
    if ops == [] then w else Next(Run(w, Front(ops)), Last(ops))
  }

  function Front(ops: seq<Op>): seq<Op>
    requires ops != []
  {
    ops[..|ops| - 1]
  }

  function Last(ops: seq<Op>): Op
    requires ops != []
  {
    ops[|ops| - 1]
  }

  ghost predicate Reachable(w: World) {
    exists w0: World, ops: seq<Op> :: Initial(w0) && Run(w0, ops) == w
  }

  // ----- what a step on one coin does to the rest of the world

  lemma VaultOnlyGains(op: CoinOp, vault: Key)
    requires vault !in Debited(op)
    ensures Delta(op, {vault}) >= 0 && op != CloseAccount(vault)
  {}

  lemma CoinStepEffect(w: World, side: Side, op: CoinOp)
    requires WorldInv(w) && StepCoin(w, side, op).Some?
    ensures var w' := StepCoin(w, side, op).value;
      && WorldInv(w') && w'.pool == w.pool && w'.lp == w.lp
      && Token.Balance(CoinOf(w', side).token, VaultOf(w, side))
           == Token.Balance(CoinOf(w, side).token, VaultOf(w, side)) + Delta(op, {VaultOf(w, side)})
  {
    var c := CoinOf(w, side);
    var vault := VaultOf(w, side);
    CoinOpEffect(c, op);
    VaultOnlyGains(op, vault);
    SumOfOne(c.token.balances, vault);
    SumOfOne(CoinStep(c, op).value.token.balances, vault);
  }

  /** LP tokens that move or burn without touching the locked balance keep the invariant. */
  lemma LpMovementKeepsInv(w: World, lp': Token.Token)
    requires WorldInv(w) && Token.TokenInv(lp') && lp'.frozen == {} && !lp'.paused
    requires w.pool.lockedLp in lp'.balances && lp'.supply <= w.lp.supply
    requires Token.Balance(lp', w.pool.lockedLp) >= Token.Balance(w.lp, w.pool.lockedLp)
    ensures WorldInv(w.(lp := lp'))
    ensures Seeded(w) ==>
              Seeded(w.(lp := lp')) && StepKeepsPerSide(w, w.(lp := lp')) && StepKeepsValue(w, w.(lp := lp'))
  {
    hide CoinInv;
    BalanceWithinTotal(lp'.balances, w.pool.lockedLp);
    SquareMono(lp'.supply, w.lp.supply);
    BurnKeepsValue(w.pool.reserveA, w.pool.reserveB, w.lp.supply, lp'.supply);
  }

  lemma LpTokenEffect(w: World, op: Op)
    requires WorldInv(w) && Step(w, op).Some?
    requires op.LpOpen? || op.LpClose? || op.LpTransfer? || op.LpBurn?
    ensures var lp' := Step(w, op).value.lp;
      && Step(w, op).value == w.(lp := lp')
      && Token.TokenInv(lp') && lp'.frozen == {} && !lp'.paused && w.pool.lockedLp in lp'.balances
      && lp'.supply == w.lp.supply - (if op.LpBurn? then op.amount else 0)
      && (forall s :: SumOver(lp'.balances, s) == SumOver(w.lp.balances, s) + LpDelta(op, s))
  {
    hide CoinInv, Seeded;
    match op
    case LpOpen(k) => Token.OpenKeepsInv(w.lp, k, false);
    case LpClose(k) => Token.CloseKeepsInv(w.lp, k);
    case LpTransfer(from, to, amount) => Token.TransferEffect(w.lp, from, to, amount);
    case LpBurn(from, amount) => Token.BurnEffect(w.lp, from, amount);
  }

  /** What LP holders do among themselves: the supply never grows, the locked balance never
      falls, and neither reserve moves. */
  lemma LpStepEffect(w: World, op: Op)
    requires WorldInv(w) && Step(w, op).Some?
    requires op.LpOpen? || op.LpClose? || op.LpTransfer? || op.LpBurn?
    ensures var w' := Step(w, op).value;
      && WorldInv(w') && w' == w.(lp := w'.lp)
      && w'.lp.supply == w.lp.supply - (if op.LpBurn? then op.amount else 0)
      && Token.Balance(w'.lp, w.pool.lockedLp) >= Token.Balance(w.lp, w.pool.lockedLp)
      && (Seeded(w) ==> Seeded(w') && StepKeepsPerSide(w, w') && StepKeepsValue(w, w'))
  {
    LpTokenEffect(w, op);
    hide WorldInv, Seeded, Token.TokenInv;
    var lp' := Step(w, op).value.lp;
    SumOfOne(w.lp.balances, w.pool.lockedLp);
    SumOfOne(lp'.balances, w.pool.lockedLp);
    LpMovementKeepsInv(w, lp');
  }

  function LpDelta(op: Op, s: set<Key>): int {
    match op
    case LpTransfer(from, to, amount) => (if to in s then amount else 0) - (if from in s then amount else 0)
    case LpBurn(from, amount) => if from in s then 0 - amount else 0
    case _ => 0
  }

  // ----- invariants of every run

  /** Every step keeps the invariant; a seeded pool stays seeded and its normalised value
      does not fall. */
  lemma StepKeepsInv(w: World, op: Op)
    requires WorldInv(w) && Step(w, op).Some?
    ensures var w' := Step(w, op).value;
      && WorldInv(w')
      && (w'.pool.vaultA, w'.pool.vaultB, w'.pool.lockedLp, w'.pool.feeBps)
           == (w.pool.vaultA, w.pool.vaultB, w.pool.lockedLp, w.pool.feeBps)
      && (Seeded(w) ==> Seeded(w') && StepKeepsValue(w, w'))
  {
    hide CoinInv, AddLiquidity, RemoveLiquidity, Swap;
    match op
    case OnCoin(side, coinOp) => CoinStepEffect(w, side, coinOp);
    case OpAdd(u, aDesired, bDesired, aMin, bMin, minLp) => AddEffect(w, u, aDesired, bDesired, aMin, bMin, minLp);
    case OpRemove(u, lpAmount, minA, minB) => RemoveEffect(w, u, lpAmount, minA, minB);
    case OpSwap(u, direction, amountIn, minOut) => SwapEffect(w, u, direction, amountIn, minOut);
    case _ => LpStepEffect(w, op);
  }

  lemma {:induction false} RunKeepsInv(w: World, ops: seq<Op>)
    requires WorldInv(w)
    ensures WorldInv(Run(w, ops))
    ensures var w' := Run(w, ops);
      (w'.pool.vaultA, w'.pool.vaultB, w'.pool.lockedLp, w'.pool.feeBps)
        == (w.pool.vaultA, w.pool.vaultB, w.pool.lockedLp, w.pool.feeBps)
    decreases |ops|
  {
    hide WorldInv, Step;
    if ops != [] {
      RunKeepsInv(w, Front(ops));
      var before := Run(w, Front(ops));
      if Step(before, Last(ops)).Some? {
        StepKeepsInv(before, Last(ops));
      }
    }
  }

  /** In every reachable state the pool is either entirely empty or seeded: positive
      reserves backed by the vaults, at least the minimum liquidity locked, and an LP
      supply whose square is at most the product of the reserves. */
  lemma ReachableStatesAreSound(w: World)
    requires Reachable(w)
    ensures WorldInv(w)
    ensures Empty(w) ==> Token.Balance(w.lp, w.pool.lockedLp) == 0
    ensures Seeded(w) ==> w.pool.reserveA * w.pool.reserveB >= MINIMUM_LIQUIDITY * MINIMUM_LIQUIDITY
  {
    var w0: World, ops: seq<Op> :| Initial(w0) && Run(w0, ops) == w;
    InitialHasInv(w0);
    RunKeepsInv(w0, ops);
    BalanceWithinTotal(w.lp.balances, w.pool.lockedLp);
    if Seeded(w) {
      SquareMono(MINIMUM_LIQUIDITY, w.lp.supply);
    }
  }

  /** Between any two states of a run that starts seeded, `k_new * L_old^2 >= k_old * L_new^2`. */
  lemma {:induction false} ValueNeverFallsOverARun(w: World, ops: seq<Op>)
    requires WorldInv(w) && Seeded(w)
    ensures WorldInv(Run(w, ops)) && Seeded(Run(w, ops)) && StepKeepsValue(w, Run(w, ops))
    decreases |ops|
  {
    hide WorldInv, Step;
    if ops != [] {
      ValueNeverFallsOverARun(w, Front(ops));
      var before := Run(w, Front(ops));
      if Step(before, Last(ops)).Some? {
        StepKeepsInv(before, Last(ops));
        var after := Step(before, Last(ops)).value;
        MulIsNat(w.pool.reserveA, w.pool.reserveB);
        MulIsNat(before.pool.reserveA, before.pool.reserveB);
        MulIsNat(after.pool.reserveA, after.pool.reserveB);
        ValueKeptTransitive(w.pool.reserveA * w.pool.reserveB, w.lp.supply,
                            before.pool.reserveA * before.pool.reserveB, before.lp.supply,
                            after.pool.reserveA * after.pool.reserveB, after.lp.supply);
      }
    }
  }

  // ----- runs without swaps

  lemma PerSideTransitive(r0: nat, l0: nat, r1: nat, l1: nat, r2: nat, l2: nat)
    requires l1 > 0 && r1 * l0 >= r0 * l1 && r2 * l1 >= r1 * l2
    ensures r2 * l0 >= r0 * l2
  {
    calc {
      (r0 * l2) * l1;
      { Commute(r0, l2, l1); }
      (r0 * l1) * l2;
      <= { MulMono(r0 * l1, r1 * l0, l2); Commute(r1, l0, l2); }
      (r1 * l2) * l0;
      <= { MulMono(r1 * l2, r2 * l1, l0); Commute(r2, l1, l0); }
      (r2 * l0) * l1;
    }
    Cancel(r0 * l2, r2 * l0, l1);
  }

  lemma StepKeepsSides(w: World, op: Op)
    requires WorldInv(w) && Seeded(w) && Step(w, op).Some? && !op.OpSwap?
    ensures StepKeepsPerSide(w, Step(w, op).value)
  {
    hide CoinInv, AddLiquidity, RemoveLiquidity, Swap;
    match op
    case OnCoin(side, coinOp) => CoinStepEffect(w, side, coinOp);
    case OpAdd(u, aDesired, bDesired, aMin, bMin, minLp) => AddEffect(w, u, aDesired, bDesired, aMin, bMin, minLp);
    case OpRemove(u, lpAmount, minA, minB) => RemoveEffect(w, u, lpAmount, minA, minB);
    case _ => LpStepEffect(w, op);
  }

  /** A run of deposits, withdrawals, burns, transfers and donations - anything but swaps -
      keeps the stronger bound: neither side of the pool is worth less per share. */
  lemma {:induction false} SidesNeverFallWithoutSwaps(w: World, ops: seq<Op>)
    requires WorldInv(w) && Seeded(w)
    requires forall op :: op in ops ==> !op.OpSwap?
    ensures StepKeepsPerSide(w, Run(w, ops))
    decreases |ops|
  {
    hide WorldInv, Step;
    if ops != [] {
      SidesNeverFallWithoutSwaps(w, Front(ops));
      ValueNeverFallsOverARun(w, Front(ops));
      var before := Run(w, Front(ops));
      if Step(before, Last(ops)).Some? {
        StepKeepsSides(before, Last(ops));
        var after := Step(before, Last(ops)).value;
        PerSideTransitive(w.pool.reserveA, w.lp.supply, before.pool.reserveA, before.lp.supply,
                          after.pool.reserveA, after.lp.supply);
        PerSideTransitive(w.pool.reserveB, w.lp.supply, before.pool.reserveB, before.lp.supply,
                          after.pool.reserveB, after.lp.supply);
      }
    }
  }
}
