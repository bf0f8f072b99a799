/** Nobody extracts value from the pool: a bound over whole runs on what any coalition of
    accounts can gain while everyone else neither trades nor gives it anything. */
module NoProfit {
  import opened Results
  import opened Numeric
  import opened Balances
  import opened AmmMath
  import opened LiquidityLaws
  import opened Issuance
  import opened World
  import opened Steps
  import opened Runs
  import opened Conservation
  import Token

  /** An operation that is either the coalition's own or cannot enrich it: pool
      instructions use only its accounts, coins and LP tokens reach it only from itself,
      only its own LP tokens are burned, and nothing is minted to it. */
  predicate Confined(op: Op, team: set<Key>) {
    match op
    case OnCoin(_, coinOp) => CoinConfined(coinOp, team)
    case LpTransfer(from, to, _) => to in team ==> from in team
    case LpBurn(from, _) => from in team
    case OpAdd(u, _, _, _, _, _) => u.a in team && u.b in team && u.lp in team
    case OpRemove(u, _, _, _) => u.a in team && u.b in team && u.lp in team
    case OpSwap(u, _, _, _) => u.a in team && u.b in team
    case _ => true
  }

  predicate CoinConfined(op: CoinOp, team: set<Key>) {
    match op
    case DirectTransfer(from, to, _) => to in team ==> from in team
    case OpMintTo(_, destination, _) => destination !in team
    case _ => true
  }

  ghost function Coins(w: World, side: Side, team: set<Key>): nat {
    SumOver(CoinOf(w, side).token.balances, team)
  }

  ghost function Shares(w: World, team: set<Key>): nat {
    SumOver(w.lp.balances, team)
  }

  /** The pool's own accounts belong to no coalition. */
  ghost predicate Outside(w: World, team: set<Key>) {
    w.pool.vaultA !in team && w.pool.vaultB !in team && w.pool.lockedLp !in team
  }

  /** Coins only flow from the coalition to the reserves and back, LP tokens outside the
      coalition never shrink, and pool value per share never falls. */
  ghost predicate Bounded(w: World, w': World, team: set<Key>) {
    && Coins(w', SideA, team) + w'.pool.reserveA <= Coins(w, SideA, team) + w.pool.reserveA
    && Coins(w', SideB, team) + w'.pool.reserveB <= Coins(w, SideB, team) + w.pool.reserveB
    && w'.lp.supply - Shares(w', team) >= w.lp.supply - Shares(w, team)
    && StepKeepsValue(w, w')
  }

  lemma CoinStepBounded(w: World, side: Side, op: CoinOp, team: set<Key>)
    requires WorldInv(w) && StepCoin(w, side, op).Some? && CoinConfined(op, team) && Outside(w, team)
    ensures Bounded(w, StepCoin(w, side, op).value, team)
  {
    CoinOpEffect(CoinOf(w, side), op);
    assert Delta(op, team) <= 0;
  }

  lemma PoolStepBounded(w: World, op: Op, team: set<Key>)
    requires WorldInv(w) && Seeded(w) && IsPoolOp(op) && Step(w, op).Some? && Confined(op, team) && Outside(w, team)
    ensures Bounded(w, Step(w, op).value, team)
  {
    hide WorldInv, Seeded, Step, StepKeepsValue;
    StepKeepsInv(w, op);
    PoolOpMoves(w, op);
  }

  lemma StepBounded(w: World, op: Op, team: set<Key>)
    requires WorldInv(w) && Seeded(w) && Step(w, op).Some? && Confined(op, team) && Outside(w, team)
    ensures Bounded(w, Step(w, op).value, team)
  {
    if IsPoolOp(op) {
      PoolStepBounded(w, op, team);
    } else if op.OnCoin? {
      CoinStepBounded(w, op.side, op.coinOp, team);
    } else {
      hide WorldInv, Seeded;
      LpStepEffect(w, op);
      LpTokenEffect(w, op);
    }
  }

  lemma {:induction false} RunBounded(w: World, ops: seq<Op>, team: set<Key>)
    requires WorldInv(w) && Seeded(w) && Outside(w, team)
    requires forall op :: op in ops ==> Confined(op, team)
    ensures Bounded(w, Run(w, ops), team)
    decreases |ops|
  {
    hide WorldInv, Seeded, Step, StepKeepsValue;
    ValueNeverFallsOverARun(w, ops);
    if ops != [] {
      RunBounded(w, Front(ops), team);
      RunKeepsInv(w, Front(ops));
      ValueNeverFallsOverARun(w, Front(ops));
      var before := Run(w, Front(ops));
      if Step(before, Last(ops)).Some? {
        StepBounded(before, Last(ops), team);
      }
    } else {
      assert StepKeepsValue(w, w);
    }
  }

  /** Gaining `gainA` and `gainB` coins and `gainLp` shares (each possibly negative) is
      paid for: what remains of the reserves, at the old supply, covers the old reserves
      at the new one. */
  ghost predicate PaidFor(p: Pool, lp: nat, gainA: int, gainB: int, gainLp: int) {
    && p.reserveA - gainA > 0 && p.reserveB - gainB > 0 && lp + gainLp > 0
    && ((p.reserveA - gainA) * (p.reserveB - gainB)) * (lp * lp)
         >= (p.reserveA * p.reserveB) * ((lp + gainLp) * (lp + gainLp))
  }

  lemma BoundedIsPaidFor(w: World, w': World, team: set<Key>)
    requires Bounded(w, w', team)
    requires w'.pool.reserveA > 0 && w'.pool.reserveB > 0
    requires Shares(w, team) < w.lp.supply && Shares(w', team) < w'.lp.supply
    ensures PaidFor(w.pool, w.lp.supply,
                    Coins(w', SideA, team) - Coins(w, SideA, team),
                    Coins(w', SideB, team) - Coins(w, SideB, team),
                    Shares(w', team) - Shares(w, team))
  {
    ScaleBound(w.pool.reserveA, w.pool.reserveB, w.lp.supply, w'.pool.reserveA, w'.pool.reserveB, w'.lp.supply,
               w.pool.reserveA - (Coins(w', SideA, team) - Coins(w, SideA, team)),
               w.pool.reserveB - (Coins(w', SideB, team) - Coins(w, SideB, team)),
               w.lp.supply + (Shares(w', team) - Shares(w, team)));
  }

  /** The price of extraction: over any run in which everyone else only stands by,
      whatever a coalition gains is paid for. */
  lemma GainsArePaidFor(w: World, ops: seq<Op>, team: set<Key>)
    requires WorldInv(w) && Seeded(w) && Outside(w, team)
    requires forall op :: op in ops ==> Confined(op, team)
    ensures var w' := Run(w, ops);
      PaidFor(w.pool, w.lp.supply,
              Coins(w', SideA, team) - Coins(w, SideA, team),
              Coins(w', SideB, team) - Coins(w, SideB, team),
              Shares(w', team) - Shares(w, team))
  {
    hide Run, Coins, Shares, CoinInv, Bounded, PaidFor;
    RunBounded(w, ops, team);
    ValueNeverFallsOverARun(w, ops);
    RunKeepsInv(w, ops);
    SharesLeaveTheLockedOnes(w, team);
    SharesLeaveTheLockedOnes(Run(w, ops), team);
    BoundedIsPaidFor(w, Run(w, ops), team);
  }

  lemma SharesLeaveTheLockedOnes(w: World, team: set<Key>)
    requires WorldInv(w) && w.pool.lockedLp !in team
    ensures Shares(w, team) + Token.Balance(w.lp, w.pool.lockedLp) <= w.lp.supply
  {
    hide CoinInv;
    SumWithin(w.lp.balances, team, w.pool.lockedLp);
  }

  /** A set of accounts and one more outside it hold at most everything. */
  lemma {:induction false} SumWithin(m: Amounts, s: set<Key>, k: Key)
    requires k !in s
    ensures SumOver(m, s) + Get(m, k) <= Total(m)
  {
    SumMono(m, s + {k}, m.Keys + (s + {k}));
    SumSplit(m, s + {k}, k);
    assert s + {k} - {k} == s;
    SumBeyondKeys(m, m.Keys + (s + {k}));
  }

  lemma {:induction false} SumMono(m: Amounts, s: set<Key>, t: set<Key>)
    requires s <= t
    ensures SumOver(m, s) <= SumOver(m, t)
    decreases s
  {
    if s != {} {
      var k :| k in s;
      SumSplit(m, s, k);
      SumSplit(m, t, k);
      SumMono(m, s - {k}, t - {k});
    }
  }

  lemma {:induction false} SumBeyondKeys(m: Amounts, s: set<Key>)
    requires m.Keys <= s
    ensures SumOver(m, s) == Total(m)
    decreases s
  {
    if s != m.Keys {
      var k :| k in s && k !in m.Keys;
      SumSplit(m, s, k);
      SumBeyondKeys(m, s - {k});
    }
  }

  lemma ScaleBound(ra: nat, rb: nat, lp: nat, ra': nat, rb': nat, lp': nat, xa: int, xb: int, xl: int)
    requires ValueKept(ra, rb, lp, ra', rb', lp')
    requires ra' <= xa && rb' <= xb && 0 <= xl <= lp'
    ensures (xa * xb) * (lp * lp) >= (ra * rb) * (xl * xl)
  {
    MulMono2(ra', xa, rb', xb);
    MulMono2(xl, lp', xl, lp');
    MulIsNat(lp, lp);
    MulIsNat(ra, rb);
    MulMono(ra' * rb', xa * xb, lp * lp);
    MulMono(xl * xl, lp' * lp', ra * rb);
  }

  /** No profit: a coalition that ends with at least its starting shares cannot hold at
      least as much of both coins and strictly more of one, whatever finite mix of
      deposits, withdrawals, swaps, burns, transfers and donations it runs. */
  lemma NoProfitOverAnyRun(w: World, ops: seq<Op>, team: set<Key>)
    requires WorldInv(w) && Seeded(w) && Outside(w, team)
    requires forall op :: op in ops ==> Confined(op, team)
    requires Shares(Run(w, ops), team) >= Shares(w, team)
    ensures !(&& Coins(Run(w, ops), SideA, team) >= Coins(w, SideA, team)
              && Coins(Run(w, ops), SideB, team) >= Coins(w, SideB, team)
              && (|| Coins(Run(w, ops), SideA, team) > Coins(w, SideA, team)
                  || Coins(Run(w, ops), SideB, team) > Coins(w, SideB, team)))
  {
    hide Run, Coins, Shares, Confined, CoinInv, PaidFor;
    GainsArePaidFor(w, ops, team);
    var w' := Run(w, ops);
    var gainA := Coins(w', SideA, team) - Coins(w, SideA, team);
    var gainB := Coins(w', SideB, team) - Coins(w, SideB, team);
    var gainLp := Shares(w', team) - Shares(w, team);
    if gainA >= 0 && gainB >= 0 && (gainA > 0 || gainB > 0) {
      NothingForFree(w.pool, w.lp.supply, gainA, gainB, gainLp);
    }
  }

  lemma NothingForFree(p: Pool, lp: nat, gainA: nat, gainB: nat, gainLp: nat)
    requires lp > 0 && PaidFor(p, lp, gainA, gainB, gainLp)
    ensures gainA == 0 && gainB == 0
  {
    var ra: nat, rb: nat := p.reserveA, p.reserveB;
    var s := lp * lp;
    MulStrict(0, lp, lp);
    MulMono2(lp, lp + gainLp, lp, lp + gainLp);
    MulIsNat(ra, rb);
    MulMono(s, (lp + gainLp) * (lp + gainLp), ra * rb);
    Cancel(ra * rb, (ra - gainA) * (rb - gainB), s);
    if gainA > 0 {
      MulStrict(ra - gainA, ra, rb - gainB);
      MulMono(rb - gainB, rb, ra);
    } else if gainB > 0 {
      MulStrict(rb - gainB, rb, ra);
    }
  }
}
