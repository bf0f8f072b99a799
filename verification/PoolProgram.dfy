/** The AMM program as it runs: pool reserves updated in place, token calls in the
    handlers' order, every check they make (the ones that cannot fail included), and the
    runtime's rollback. Each handler is proved against the function of its name, and the
    whole program against `Runs`. */
module PoolProgram {
  import opened Results
  import opened Numeric
  import opened Balances
  import opened AmmMath
  import opened Issuance
  import opened World
  import Spec = World
  import opened Steps
  import opened Runs
  import Issuer
  import SplitLaws
  import Token

  /** What a handler did. From any state whatever it succeeds exactly when `spec` does and
      the checks the program repeats around it, `checks`, pass; the result is then the one
      `spec` gives. From a state that satisfies the invariant those checks reject nothing that
      `spec` accepts, and a failure is the one `spec` reports. */
  ghost predicate Handles(before: World, r: Result<(), AmmError>, after: World, spec: WorldResult, checks: bool) {
    && (r.Ok? <==> spec.Ok? && checks)
    && (r.Ok? ==> spec == Ok(after))
    && (WorldInv(before) ==> (spec.Ok? ==> checks) && (r.Err? ==> spec == Err(r.error)))
  }

  /** A seeded pool as the program checks it: reserves and LP supply in place, and the
      locked balance between the minimum and the supply. */
  ghost predicate LooksSeeded(w: World) {
    && w.pool.reserveA > 0 && w.pool.reserveB > 0 && w.lp.supply >= 1_000
    && 1_000 <= Token.Balance(w.lp, w.pool.lockedLp) <= w.lp.supply
  }

  /** What a deposit checks before it quotes: an empty pool is empty throughout, any other
      one looks seeded. */
  ghost predicate PassesDepositChecks(w: World) {
    if w.lp.supply == 0 then w.pool.reserveA == 0 && w.pool.reserveB == 0 && Token.Balance(w.lp, w.pool.lockedLp) == 0
    else LooksSeeded(w)
  }

  /** What the checks after the token calls ask of the new state. */
  ghost predicate PassesPostChecks(w: World) {
    Solvent(w) && LooksSeeded(w)
  }

  lemma SoundPassesPostChecks(w: World)
    ensures WorldInv(w) && Seeded(w) ==> PassesPostChecks(w)
  {}

  /** The second half of a handler, from the first token call on: it applies `spec` or
      reports its error, and the post-checks reject only a state that fails them. */
  ghost predicate Settles(r: Result<(), AmmError>, after: World, spec: WorldResult, checked: bool) {
    && (r.Ok? ==> spec == Ok(after))
    && (spec.Ok? ==> (r.Ok? <==> checked))
    && (spec.Err? && checked ==> r == Err(spec.error))
  }

  class PoolProgram {
    const coinA: Issuer.Issuer
    const coinB: Issuer.Issuer
    const lpMint: Token.Ledger
    const vaultA: Key
    const vaultB: Key
    const lockedLp: Key
    const feeBps: u16
    var reserveA: u64
    var reserveB: u64

    constructor (w: World)
      ensures Value() == w && Distinct()
      ensures fresh(coinA) && fresh(coinA.ledger) && fresh(coinB) && fresh(coinB.ledger) && fresh(lpMint)
    {
      coinA := new Issuer.Issuer(w.a);
      coinB := new Issuer.Issuer(w.b);
      lpMint := new Token.Ledger(w.lp);
      vaultA, vaultB, lockedLp, feeBps := w.pool.vaultA, w.pool.vaultB, w.pool.lockedLp, w.pool.feeBps;
      reserveA, reserveB := w.pool.reserveA, w.pool.reserveB;
    }

    /** The accounts are different objects. */
    ghost predicate Distinct() {
      && coinA != coinB && coinA.ledger != coinB.ledger
      && lpMint != coinA.ledger && lpMint != coinB.ledger
    }

    function PoolValue(): Pool
      reads this
    {
      Pool(vaultA, vaultB, lockedLp, reserveA, reserveB, feeBps)
    }

    function Value(): World
      reads this, coinA, coinA.ledger, coinB, coinB.ledger, lpMint
    {
      World(coinA.Value(), coinB.Value(), lpMint.Value(), PoolValue())
    }

    // ----- the guards

    predicate EnsureUnpaused()
      reads coinA, coinB
    {
      !coinA.paused && !coinB.paused
    }

    predicate EnsureSolvent()
      reads this, coinA.ledger, coinB.ledger
    {
      && Get(coinA.ledger.balances, vaultA) >= reserveA
      && Get(coinB.ledger.balances, vaultB) >= reserveB
    }

    function EnsureSeeded(lpSupply: u64, locked: u64): (r: Result<(), AmmError>)
      reads this
    {
      if !(reserveA > 0 && reserveB > 0 && lpSupply >= MINIMUM_LIQUIDITY) then Err(AmmError.InvalidLiquidityState)
      else if !(locked >= MINIMUM_LIQUIDITY && locked <= lpSupply) then Err(LockedLiquidityInvariant)
      else Ok(())
    }

    // ----- add_liquidity

    method AddLiquidity(u: User, aDesired: u64, bDesired: u64, aMin: u64, bMin: u64, minLp: u64)
        returns (r: Result<(), AmmError>)
      requires Distinct()
      modifies this, coinA.ledger, coinB.ledger, lpMint
      ensures Handles(old(Value()), r, Value(),
                      Spec.AddLiquidity(old(Value()), u, aDesired, bDesired, aMin, bMin, minLp),
                      && Solvent(old(Value())) && PassesDepositChecks(old(Value()))
                      && var spec := Spec.AddLiquidity(old(Value()), u, aDesired, bDesired, aMin, bMin, minLp);
                         spec.Ok? ==> PassesPostChecks(spec.value))
      ensures r.Ok? && WorldInv(old(Value())) ==>
                DepositMade(old(Value()), Value(), u, aDesired, bDesired)
    {
      ghost var before := Value();
      SoundPassesDepositChecks(before);
      hide WorldInv, DepositQuote, Deposit, DepositMade, PassesPostChecks;
      if !CoinAccounts(Value(), u) || !LpAccounts(Value(), u) {
        return Err(AmmError.AccountConstraint);
      }
      if !UserAllowed(Value(), u) {
        return Err(AmmError.WalletNotAllowed);
      }
      if !(aDesired > 0 && bDesired > 0) {
        return Err(AmmError.ZeroAmount);
      }
      if !EnsureUnpaused() {
        return Err(AmmError.ProtocolPaused);
      }
      if !EnsureSolvent() {
        return Err(VaultBalanceInvariant);
      }
      var quote := DepositTermsFor(aDesired, bDesired);
      match quote {
        case Err(e) => return Err(e);
        case Ok(d) =>
          if !(d.amountA >= aMin && d.amountB >= bMin && d.lpToUser >= minLp) {
            return Err(SlippageExceeded);
          }
          r := SettleDeposit(u, d);
          if WorldInv(before) {
            SoundDeposit(before, u, aDesired, bDesired, aMin, bMin, minLp);
          }
      }
    }

    /** The two branches of a deposit: the first one by square root, later ones by share. */
    method DepositTermsFor(aDesired: u64, bDesired: u64) returns (r: Result<DepositTerms, AmmError>)
      ensures r.Ok? <==> DepositQuote(Value(), aDesired, bDesired).Ok? && PassesDepositChecks(Value())
      ensures r.Ok? ==> DepositQuote(Value(), aDesired, bDesired) == r
      ensures WorldInv(Value()) ==> PassesDepositChecks(Value()) && DepositQuote(Value(), aDesired, bDesired) == r
      ensures WorldInv(Value()) && r.Ok? ==>
                && Owed(Value(), aDesired, bDesired, r.value.amountA, r.value.amountB, r.value.lpToUser)
                && r.value.lpToLock == if Empty(Value()) then 1_000 else 0
    {
      SoundPassesDepositChecks(Value());
      if WorldInv(Value()) && DepositQuote(Value(), aDesired, bDesired).Ok? {
        QuotedIsOwed(Value(), aDesired, bDesired);
      }
      hide WorldInv, Owed, QuoteAddLiquidity, InitialLiquidity;
      var lpSupply := lpMint.supply;
      var locked := Get(lpMint.balances, lockedLp);
      if lpSupply == 0 {
        if !(reserveA == 0 && reserveB == 0 && locked == 0) {
          return Err(AmmError.InvalidLiquidityState);
        }
        var quote := QuoteInitialLiquidity(aDesired, bDesired);
        match quote {
          case Err(e) => return Err(FromMath(e));
          case Ok(q) => return Ok(DepositTerms(aDesired, bDesired, q.lpToUser, q.lpToLock));
        }
      } else {
        var seeded := EnsureSeeded(lpSupply, locked);
        match seeded {
          case Err(e) => return Err(e);
          case Ok(_) =>
            var quote := QuoteAddLiquidity(aDesired, bDesired, reserveA, reserveB, lpSupply);
            match quote {
              case Err(e) => return Err(FromMath(e));
              case Ok(q) => return Ok(DepositTerms(q.amountA, q.amountB, q.lpMinted, 0));
            }
        }
      }
    }

    method SettleDeposit(u: User, d: DepositTerms) returns (r: Result<(), AmmError>)
      requires Distinct()
      modifies this, coinA.ledger, coinB.ledger, lpMint
      ensures var spec := Deposit(old(Value()), u, d);
        Settles(r, Value(), spec,
                if spec.Ok? then PassesPostChecks(spec.value)
                else old(lpMint.supply) + d.lpToUser + d.lpToLock <= U64_MAX)
    {
      DepositSupply(Value(), u, d);
      hide Token.Transfer, Token.Mint;
      var newA := CheckedAdd64(reserveA, d.amountA);
      var newB := CheckedAdd64(reserveB, d.amountB);
      var expectedSupply := if lpMint.supply + d.lpToUser > U64_MAX then None
                            else CheckedAdd64(lpMint.supply + d.lpToUser, d.lpToLock);
      if newA.None? || newB.None? || expectedSupply.None? {
        return Err(AmmError.MathOverflow);
      }

      var paid := PayIn(u, d.amountA, d.amountB);
      if !paid {
        return Err(AmmError.TokenRejected);
      }
      var minted := MintLp(u, d.lpToUser, d.lpToLock);
      if !minted {
        return Err(AmmError.TokenRejected);
      }
      reserveA := newA.value;
      reserveB := newB.value;

      if lpMint.supply != expectedSupply.value {
        return Err(LpSupplyInvariant);
      }
      if !EnsureSolvent() {
        return Err(VaultBalanceInvariant);
      }
      return EnsureSeeded(expectedSupply.value, Get(lpMint.balances, lockedLp));
    }

    method PayIn(u: User, amountA: u64, amountB: u64) returns (ok: bool)
      requires Distinct()
      modifies coinA.ledger, coinB.ledger
      ensures ok <==> && Token.Transfer(old(coinA.ledger.Value()), u.a, vaultA, amountA).Some?
                      && Token.Transfer(old(coinB.ledger.Value()), u.b, vaultB, amountB).Some?
      ensures ok ==> && coinA.ledger.Value() == Token.Transfer(old(coinA.ledger.Value()), u.a, vaultA, amountA).value
                     && coinB.ledger.Value() == Token.Transfer(old(coinB.ledger.Value()), u.b, vaultB, amountB).value
    {
      hide Token.Transfer;
      ok := coinA.ledger.TransferChecked(u.a, vaultA, amountA);
      if ok {
        ok := coinB.ledger.TransferChecked(u.b, vaultB, amountB);
      }
    }

    method MintLp(u: User, toUser: u64, toLock: u64) returns (ok: bool)
      requires Distinct()
      modifies lpMint
      ensures ok <==> && LockLp(old(Value()), toLock).Ok?
                      && Token.Mint(LockLp(old(Value()), toLock).value, u.lp, toUser).Some?
      ensures ok ==> lpMint.Value() == Token.Mint(LockLp(old(Value()), toLock).value, u.lp, toUser).value
    {
      hide Token.Mint;
      ok := true;
      if toLock > 0 {
        ok := lpMint.MintToChecked(lockedLp, toLock);
      }
      if ok {
        ok := lpMint.MintToChecked(u.lp, toUser);
      }
    }

    // ----- remove_liquidity

    method RemoveLiquidity(u: User, lpAmount: u64, minA: u64, minB: u64) returns (r: Result<(), AmmError>)
      requires Distinct()
      modifies this, coinA.ledger, coinB.ledger, lpMint
      ensures Handles(old(Value()), r, Value(), Spec.RemoveLiquidity(old(Value()), u, lpAmount, minA, minB),
                      && PassesPostChecks(old(Value()))
                      && var spec := Spec.RemoveLiquidity(old(Value()), u, lpAmount, minA, minB);
                         spec.Ok? ==> PassesPostChecks(spec.value))
      ensures r.Ok? && WorldInv(old(Value())) ==> WithdrawalMade(old(Value()), Value(), u, lpAmount)
    {
      ghost var before := Value();
      if !CoinAccounts(Value(), u) || !LpAccounts(Value(), u) {
        return Err(AmmError.AccountConstraint);
      }
      if !UserAllowed(Value(), u) {
        return Err(AmmError.WalletNotAllowed);
      }
      if !(lpAmount > 0) {
        return Err(AmmError.ZeroAmount);
      }
      if !EnsureUnpaused() {
        return Err(AmmError.ProtocolPaused);
      }
      if !EnsureSolvent() {
        return Err(VaultBalanceInvariant);
      }
      var lpSupply := lpMint.supply;
      var locked := Get(lpMint.balances, lockedLp);
      var seeded := EnsureSeeded(lpSupply, locked);
      match seeded {
        case Err(e) => return Err(e);
        case Ok(_) =>
      }
      var quote := QuoteRemoveLiquidity(lpAmount, reserveA, reserveB, lpSupply);
      match quote {
        case Err(e) => return Err(FromMath(e));
        case Ok(q) =>
          if !(q.newLpSupply >= locked) {
            return Err(LockedLiquidityInvariant);
          }
          if !(q.amountA >= minA && q.amountB >= minB) {
            return Err(SlippageExceeded);
          }
          r := SettleWithdrawal(u, lpAmount, q, locked);
          SplitLaws.QuoteRemoveFacts(lpAmount, before.pool.reserveA, before.pool.reserveB, before.lp.supply);
          if WorldInv(before) && Withdraw(before, u, lpAmount, q).Ok? {
            RemoveEffect(before, u, lpAmount, minA, minB);
            SoundPassesPostChecks(Withdraw(before, u, lpAmount, q).value);
          }
      }
    }

    method SettleWithdrawal(u: User, lpAmount: u64, q: RemoveLiquidityQuote, locked: u64)
        returns (r: Result<(), AmmError>)
      requires Distinct() && u.lp != lockedLp && locked == Get(lpMint.balances, lockedLp)
      modifies this, coinA.ledger, coinB.ledger, lpMint
      ensures var spec := Withdraw(old(Value()), u, lpAmount, q);
        Settles(r, Value(), spec,
                spec.Ok? ==> PassesPostChecks(spec.value) && q.newLpSupply == old(lpMint.supply) - lpAmount)
    {
      hide Token.Transfer;
      var ok := lpMint.BurnChecked(u.lp, lpAmount);
      if !ok {
        return Err(AmmError.TokenRejected);
      }
      ok := coinA.ledger.TransferChecked(vaultA, u.a, q.amountA);
      if !ok {
        return Err(AmmError.TokenRejected);
      }
      ok := coinB.ledger.TransferChecked(vaultB, u.b, q.amountB);
      if !ok {
        return Err(AmmError.TokenRejected);
      }
      reserveA := q.newReserveA;
      reserveB := q.newReserveB;

      if lpMint.supply != q.newLpSupply {
        return Err(LpSupplyInvariant);
      }
      if !EnsureSolvent() {
        return Err(VaultBalanceInvariant);
      }
      return EnsureSeeded(q.newLpSupply, locked);
    }

    // ----- swap

    method Swap(u: User, direction: SwapDirection, amountIn: u64, minOut: u64) returns (r: Result<(), AmmError>)
      requires Distinct()
      modifies this, coinA.ledger, coinB.ledger
      ensures Handles(old(Value()), r, Value(), Spec.Swap(old(Value()), u, direction, amountIn, minOut),
                      && Solvent(old(Value()))
                      && var spec := Spec.Swap(old(Value()), u, direction, amountIn, minOut);
                         spec.Ok? ==> Solvent(spec.value))
      ensures r.Ok? && WorldInv(old(Value())) ==> SwapMade(old(Value()), Value(), u, direction, amountIn)
    {
      ghost var before := Value();
      if !CoinAccounts(Value(), u) {
        return Err(AmmError.AccountConstraint);
      }
      if !UserAllowed(Value(), u) {
        return Err(AmmError.WalletNotAllowed);
      }
      if !(amountIn > 0) {
        return Err(AmmError.ZeroAmount);
      }
      if !EnsureUnpaused() {
        return Err(AmmError.ProtocolPaused);
      }
      if !EnsureSolvent() {
        return Err(VaultBalanceInvariant);
      }
      var reserveIn := if direction.AtoB? then reserveA else reserveB;
      var reserveOut := if direction.AtoB? then reserveB else reserveA;
      U64ProductFits(reserveIn, reserveOut);
      var oldK := CheckedMul(reserveIn, reserveOut);
      if oldK.None? {
        return Err(AmmError.MathOverflow);
      }
      var quote := QuoteSwap(amountIn, reserveIn, reserveOut, feeBps);
      match quote {
        case Err(e) => return Err(FromMath(e));
        case Ok(q) =>
          if !(q.amountOut >= minOut) {
            return Err(SlippageExceeded);
          }
          r := SettleSwap(u, direction, amountIn, q, oldK.value);
          SwapQuoteFacts(amountIn, reserveIn, reserveOut, feeBps);
          if WorldInv(before) && Exchange(before, u, direction, amountIn, q).Ok? {
            SwapEffect(before, u, direction, amountIn, minOut);
          }
      }
    }

    method SettleSwap(u: User, direction: SwapDirection, amountIn: u64, q: SwapQuote, oldK: u128)
        returns (r: Result<(), AmmError>)
      requires Distinct()
      modifies this, coinA.ledger, coinB.ledger
      ensures var spec := Exchange(old(Value()), u, direction, amountIn, q);
        Settles(r, Value(), spec, spec.Ok? ==> Solvent(spec.value) && q.newReserveIn * q.newReserveOut >= oldK)
    {
      hide Token.Transfer;
      var ok;
      match direction {
        case AtoB => ok := coinA.ledger.TransferChecked(u.a, vaultA, amountIn);
        case BtoA => ok := coinB.ledger.TransferChecked(u.b, vaultB, amountIn);
      }
      if !ok {
        return Err(AmmError.TokenRejected);
      }
      match direction {
        case AtoB => ok := coinB.ledger.TransferChecked(vaultB, u.b, q.amountOut);
        case BtoA => ok := coinA.ledger.TransferChecked(vaultA, u.a, q.amountOut);
      }
      if !ok {
        return Err(AmmError.TokenRejected);
      }

      U64ProductFits(q.newReserveIn, q.newReserveOut);
      var newK := CheckedMul(q.newReserveIn, q.newReserveOut);
      if newK.None? {
        return Err(AmmError.MathOverflow);
      }
      if !(newK.value >= oldK) {
        return Err(ConstantProductViolation);
      }
      match direction {
        case AtoB => reserveA, reserveB := q.newReserveIn, q.newReserveOut;
        case BtoA => reserveA, reserveB := q.newReserveOut, q.newReserveIn;
      }
      if !EnsureSolvent() {
        return Err(VaultBalanceInvariant);
      }
      return Ok(());
    }

    // ----- transactions

    /** The runtime's rollback of a failed instruction. */
    method Restore(w: World)
      requires Distinct() && w.pool == PoolValue().(reserveA := w.pool.reserveA, reserveB := w.pool.reserveB)
      modifies this, coinA, coinA.ledger, coinB, coinB.ledger, lpMint
      ensures Value() == w
    {
      coinA.Restore(w.a);
      coinB.Restore(w.b);
      lpMint.Restore(w.lp);
      reserveA, reserveB := w.pool.reserveA, w.pool.reserveB;
    }

    /** One transaction on the LP token that bypasses the pool. */
    method ExecuteLp(op: Op) returns (ok: bool)
      requires Distinct()
      requires op.LpOpen? || op.LpClose? || op.LpTransfer? || op.LpBurn?
      modifies lpMint
      ensures ok <==> Step(old(Value()), op).Some?
      ensures Value() == Next(old(Value()), op)
    {
      ok := false;
      match op {
        case LpOpen(k) => ok := lpMint.Open(k, false);
        case LpClose(k) => if k != lockedLp { ok := lpMint.Close(k); }
        case LpTransfer(from, to, amount) => if from != lockedLp { ok := lpMint.TransferChecked(from, to, amount); }
        case LpBurn(from, amount) => if from != lockedLp { ok := lpMint.BurnChecked(from, amount); }
      }
    }

    /** One transaction on a coin; the pool's vaults cannot be debited this way. */
    method ExecuteCoin(side: Side, op: CoinOp) returns (ok: bool)
      requires Distinct()
      modifies coinA, coinA.ledger, coinB, coinB.ledger
      ensures WorldInv(old(Value())) ==> (ok <==> StepCoin(old(Value()), side, op).Some?)
      ensures WorldInv(old(Value())) ==> Value() == Next(old(Value()), OnCoin(side, op))
    {
      assert WorldInv(Value()) ==> CoinInv(coinA.Value()) && CoinInv(coinB.Value());
      hide WorldInv, CoinInv, CoinStep;
      if side.SideA? {
        if vaultA in Debited(op) {
          return false;
        }
        var r := coinA.Execute(op);
        ok := r.Ok?;
      } else {
        if vaultB in Debited(op) {
          return false;
        }
        var r := coinB.Execute(op);
        ok := r.Ok?;
      }
    }

    /** One AMM instruction with the runtime's rollback. */
    method ExecutePool(op: Op) returns (ok: bool)
      requires Distinct() && (op.OpAdd? || op.OpRemove? || op.OpSwap?)
      modifies this, coinA, coinA.ledger, coinB, coinB.ledger, lpMint
      ensures WorldInv(old(Value())) ==> (ok <==> Step(old(Value()), op).Some?)
      ensures WorldInv(old(Value())) ==> Value() == Next(old(Value()), op)
      ensures !ok ==> Value() == old(Value())
    {
      hide Spec.AddLiquidity, Spec.RemoveLiquidity, Spec.Swap, WorldInv;
      var before := Value();
      var r: Result<(), AmmError>;
      match op {
        case OpAdd(u, aDesired, bDesired, aMin, bMin, minLp) =>
          r := AddLiquidity(u, aDesired, bDesired, aMin, bMin, minLp);
        case OpRemove(u, lpAmount, minA, minB) => r := RemoveLiquidity(u, lpAmount, minA, minB);
        case OpSwap(u, direction, amountIn, minOut) => r := Swap(u, direction, amountIn, minOut);
      }
      ok := r.Ok?;
      if !ok {
        Restore(before);
      }
    }

    /** Any transaction: from a sound state the program takes exactly the step `Runs` takes. */
    method Execute(op: Op) returns (ok: bool)
      requires Distinct()
      modifies this, coinA, coinA.ledger, coinB, coinB.ledger, lpMint
      ensures WorldInv(old(Value())) ==> (ok <==> Step(old(Value()), op).Some?)
      ensures WorldInv(old(Value())) ==> Value() == Next(old(Value()), op)
    {
      match op {
        case OnCoin(side, coinOp) => ok := ExecuteCoin(side, coinOp);
        case OpAdd(_, _, _, _, _, _) => ok := ExecutePool(op);
        case OpRemove(_, _, _, _) => ok := ExecutePool(op);
        case OpSwap(_, _, _, _) => ok := ExecutePool(op);
        case _ => ok := ExecuteLp(op);
      }
    }

    /** A whole history of transactions: the program's state is the run's. */
    method ExecuteAll(ops: seq<Op>)
      requires Distinct() && WorldInv(Value())
      modifies this, coinA, coinA.ledger, coinB, coinB.ledger, lpMint
      ensures Value() == Run(old(Value()), ops) && WorldInv(Value())
    {
      hide WorldInv, Step;
      ghost var start := Value();
      assert ops[..0] == [];
      for i := 0 to |ops|
        invariant Value() == Run(start, ops[..i]) && WorldInv(Value())
      {
        var _ := Execute(ops[i]);
        RunTakesOneMore(start, ops, i);
        RunKeepsInv(start, ops[..i + 1]);
      }
      assert ops[..|ops|] == ops;
    }
  }

  lemma RunTakesOneMore(w: World, ops: seq<Op>, i: nat)
    requires i < |ops|
    ensures Run(w, ops[..i + 1]) == Next(Run(w, ops[..i]), ops[i])
  {
    assert Front(ops[..i + 1]) == ops[..i];
  }

  lemma SoundDeposit(w: World, u: User, aDesired: u64, bDesired: u64, aMin: u64, bMin: u64, minLp: u64)
    requires WorldInv(w)
    ensures DepositQuote(w, aDesired, bDesired).Ok? ==>
              var d := DepositQuote(w, aDesired, bDesired).value;
              w.lp.supply + d.lpToUser + d.lpToLock <= U64_MAX
    ensures var spec := Spec.AddLiquidity(w, u, aDesired, bDesired, aMin, bMin, minLp);
      spec.Ok? ==> DepositMade(w, spec.value, u, aDesired, bDesired) && PassesPostChecks(spec.value)
  {
    if DepositQuote(w, aDesired, bDesired).Ok? {
      DepositQuoteFacts(w, aDesired, bDesired);
    }
    var spec := Spec.AddLiquidity(w, u, aDesired, bDesired, aMin, bMin, minLp);
    if spec.Ok? {
      AddEffect(w, u, aDesired, bDesired, aMin, bMin, minLp);
      hide Spec.AddLiquidity;
      SoundPassesPostChecks(spec.value);
    }
  }

  lemma DepositSupply(w: World, u: User, d: DepositTerms)
    ensures Deposit(w, u, d).Ok? ==> Deposit(w, u, d).value.lp.supply == w.lp.supply + d.lpToUser + d.lpToLock
  {}

  lemma U64ProductFits(x: u64, y: u64)
    ensures x * y <= U128_MAX
  {
    MulMono2(x, U64_MAX, y, U64_MAX);
  }

  /** With no LP supply there is no locked LP and, under the invariant, no reserve. */
  lemma SoundPassesDepositChecks(w: World)
    ensures WorldInv(w) ==> Solvent(w) && PassesDepositChecks(w)
  {
    BalanceWithinTotal(w.lp.balances, w.pool.lockedLp);
  }
}
