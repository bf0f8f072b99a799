/** Deposits and withdrawals in several steps, and there-and-back trips: none of them
    beats the single operation. */
module SplitLaws {
  import opened Results
  import opened Numeric
  import opened SquareRoot
  import opened AmmMath
  import opened LiquidityLaws

  // ----- withdrawals

  lemma TwoPayoutsMerge(x: nat, y: nat, reserve: nat, lp: nat, paidX: nat, paidY: nat)
    requires x < lp && x + y <= lp && paidX <= reserve
    requires paidX * lp <= x * reserve
    requires paidY * (lp - x) <= y * (reserve - paidX)
    ensures (paidX + paidY) * lp <= (x + y) * reserve
  {
    var rest := lp - x;
    var p, q := paidX * lp, y * reserve;
    // weigh the first payout by what the second leaves, and the second by the whole supply
    calc {
      ((paidX + paidY) * lp) * rest;
      { Distribute(paidX, paidY, lp); Distribute(p, paidY * lp, rest); Commute(paidY, lp, rest); }
      p * rest + (paidY * rest) * lp;
      <= { MulMono(paidY * rest, y * (reserve - paidX), lp); }
      p * rest + (y * (reserve - paidX)) * lp;
      { Distribute(reserve, paidX, y); Distribute(q, y * paidX, lp); Assoc(y, paidX, lp); Distribute(rest, y, p); }
      p * (rest - y) + q * lp;
      <= { MulMono(p, x * reserve, rest - y); }
      (x * reserve) * (rest - y) + q * lp;
      { Distribute(rest, y, x * reserve); Commute(x, reserve, y);
        Assoc(x, y, reserve); Assoc(y, x, reserve); Commute(y, x, reserve); }
      (x * reserve) * rest - q * x + q * lp;
      { Distribute(lp, x, q); }
      (x * reserve) * rest + q * rest;
      { Distribute(x * reserve, q, rest); Distribute(x, y, reserve); }
      ((x + y) * reserve) * rest;
    }
    Cancel((paidX + paidY) * lp, (x + y) * reserve, rest);
  }

  datatype Withdrawn = Withdrawn(paidA: nat, paidB: nat, reserveA: u64, reserveB: u64, lpSupply: u64)

  function RemoveAll(amounts: seq<u64>, ra: u64, rb: u64, lp: u64): Result<Withdrawn, MathError> {
    if amounts == [] then Ok(Withdrawn(0, 0, ra, rb, lp))
    else
      var first :- QuoteRemoveLiquidity(amounts[0], ra, rb, lp);
      var rest :- RemoveAll(amounts[1..], first.newReserveA, first.newReserveB, first.newLpSupply);
      Ok(rest.(paidA := first.amountA + rest.paidA, paidB := first.amountB + rest.paidB))
  }

  lemma QuoteRemoveFacts(amount: u64, ra: u64, rb: u64, lp: u64)
    requires QuoteRemoveLiquidity(amount, ra, rb, lp).Ok?
    ensures RemoveInRange(amount, ra, rb, lp)
    ensures var q := QuoteRemoveLiquidity(amount, ra, rb, lp).value;
      && q.newReserveA == ra - q.amountA && q.newReserveB == rb - q.amountB && q.newLpSupply == lp - amount
      && 1 <= q.amountA < ra && 1 <= q.amountB < rb && MINIMUM_LIQUIDITY <= q.newLpSupply
      && q.amountA * lp <= amount * ra && q.amountB * lp <= amount * rb
      && PerSideKept(ra, rb, lp, ra - q.amountA, rb - q.amountB, lp - amount)
  {
    QuoteRemoveExact(amount, ra, rb, lp);
    PayoutBounds(amount, ra, lp);
    PayoutBounds(amount, rb, lp);
    WithdrawalKeepsValue(amount, ra, rb, lp, Payout(amount, ra, lp), Payout(amount, rb, lp));
  }

  lemma {:induction false} RemoveAllWithinShare(amounts: seq<u64>, ra: u64, rb: u64, lp: u64)
    requires amounts != [] && RemoveAll(amounts, ra, rb, lp).Ok?
    ensures var w := RemoveAll(amounts, ra, rb, lp).value;
      && 0 < Sum(amounts) && Sum(amounts) + MINIMUM_LIQUIDITY <= lp <= MAX_SUPPLY_CAP
      && 0 < ra <= MAX_SUPPLY_CAP && 0 < rb <= MAX_SUPPLY_CAP
      && 1 <= w.paidA && w.paidA * lp <= Sum(amounts) * ra
      && 1 <= w.paidB && w.paidB * lp <= Sum(amounts) * rb
      && w.lpSupply == lp - Sum(amounts)
    decreases |amounts|
  {
    hide QuoteRemoveLiquidity;
    QuoteRemoveFacts(amounts[0], ra, rb, lp);
    var first := QuoteRemoveLiquidity(amounts[0], ra, rb, lp).value;
    var rest := amounts[1..];
    assert Sum(amounts) == amounts[0] + Sum(rest);
    if rest == [] {
      assert Sum(rest) == 0;
    } else {
      RemoveAllWithinShare(rest, first.newReserveA, first.newReserveB, first.newLpSupply);
      var w := RemoveAll(rest, first.newReserveA, first.newReserveB, first.newLpSupply).value;
      TwoPayoutsMerge(amounts[0], Sum(rest), ra, lp, first.amountA, w.paidA);
      TwoPayoutsMerge(amounts[0], Sum(rest), rb, lp, first.amountB, w.paidB);
    }
  }

  /** If any list of withdrawals all succeed, withdrawing their sum at once succeeds too
      and pays at least as much of both coins. */
  lemma SplitWithdrawalsNeverHelp(amounts: seq<u64>, ra: u64, rb: u64, lp: u64)
    requires amounts != [] && RemoveAll(amounts, ra, rb, lp).Ok?
    ensures Sum(amounts) <= U64_MAX
    ensures var split := RemoveAll(amounts, ra, rb, lp).value;
      var whole := QuoteRemoveLiquidity(Sum(amounts), ra, rb, lp);
      && whole.Ok?
      && whole.value.amountA >= split.paidA && whole.value.amountB >= split.paidB
      && whole.value.newLpSupply == split.lpSupply
  {
    RemoveAllWithinShare(amounts, ra, rb, lp);
    var w := RemoveAll(amounts, ra, rb, lp).value;
    MulMono(1, w.paidA, lp);
    MulMono(1, w.paidB, lp);
    QuoteRemoveExact(Sum(amounts), ra, rb, lp);
    PayoutIsGreatest(Sum(amounts), ra, lp, w.paidA);
    PayoutIsGreatest(Sum(amounts), rb, lp, w.paidB);
  }

  // ----- deposits

  datatype Offer = Offer(a: u64, b: u64)

  function OfferedA(offers: seq<Offer>): nat {
    if offers == [] then 0 else offers[0].a + OfferedA(offers[1..])
  }

  function OfferedB(offers: seq<Offer>): nat {
    if offers == [] then 0 else offers[0].b + OfferedB(offers[1..])
  }

  /** The LP tokens a list of later deposits mints, if they all succeed. */
  function AddAll(offers: seq<Offer>, ra: u64, rb: u64, lp: u64): Result<nat, MathError> {
    if offers == [] then Ok(0)
    else
      var first :- QuoteAddLiquidity(offers[0].a, offers[0].b, ra, rb, lp);
      var rest :- AddAll(offers[1..], first.newReserveA, first.newReserveB, first.newLpSupply);
      Ok(first.lpMinted + rest)
  }

  /** One side of a deposit that takes `taken` of the `offered` and mints `minted`,
      followed by `later` LP tokens earned at the new rate for `rest`. */
  lemma LaterRateIsNoBetter(minted: nat, offered: nat, taken: nat, later: nat, rest: nat, reserve: nat, lp: nat)
    requires reserve > 0 && taken <= offered
    requires minted <= Share(taken, reserve, lp)
    requires later * (reserve + taken) <= rest * (lp + minted)
    ensures (minted + later) * reserve <= (offered + rest) * lp
  {
    var reserve', lp' := reserve + taken, lp + minted;
    ShareRate(taken, reserve, lp, minted);
    MulMono(taken, offered, lp);
    calc {
      (later * reserve) * reserve';
      { Commute(later, reserve, reserve'); }
      (later * reserve') * reserve;
      <= { MulMono(later * reserve', rest * lp', reserve); }
      (rest * lp') * reserve;
      { Assoc(rest, lp', reserve); }
      rest * (reserve * lp');
      <= { MulMono(reserve * lp', reserve' * lp, rest); }
      rest * (reserve' * lp);
      { Assoc(rest, lp, reserve'); }
      (rest * lp) * reserve';
    }
    Cancel(later * reserve, rest * lp, reserve');
    Distribute(minted, later, reserve);
    Distribute(offered, rest, lp);
  }

  lemma QuoteAddFacts(aDesired: u64, bDesired: u64, ra: u64, rb: u64, lp: u64)
    requires QuoteAddLiquidity(aDesired, bDesired, ra, rb, lp).Ok?
    ensures AddInRange(aDesired, bDesired, ra, rb, lp)
    ensures var q := QuoteAddLiquidity(aDesired, bDesired, ra, rb, lp).value;
      && q.newReserveA == ra + q.amountA && q.newReserveB == rb + q.amountB && q.newLpSupply == lp + q.lpMinted
      && 0 < q.amountA <= aDesired && 0 < q.amountB <= bDesired
      && q.lpMinted == DepositShare(aDesired, bDesired, ra, rb, lp) == DepositShare(q.amountA, q.amountB, ra, rb, lp)
      && 1 <= q.lpMinted <= Share(q.amountA, ra, lp) && q.lpMinted <= Share(q.amountB, rb, lp)
      && q.newReserveA <= MAX_SUPPLY_CAP && q.newReserveB <= MAX_SUPPLY_CAP && q.newLpSupply <= MAX_SUPPLY_CAP
  {
    if !AddInRange(aDesired, bDesired, ra, rb, lp) {
      QuoteAddOutOfRange(aDesired, bDesired, ra, rb, lp);
    }
    QuoteAddExact(aDesired, bDesired, ra, rb, lp);
    var m := MatchDeposit(aDesired, bDesired, ra, rb).value;
    MatchedEarnsFullShare(aDesired, bDesired, m.0, m.1, ra, rb, lp);
  }

  lemma {:induction false} AddAllWithinShare(offers: seq<Offer>, ra: u64, rb: u64, lp: u64)
    requires offers != [] && AddAll(offers, ra, rb, lp).Ok?
    ensures ra > 0 && rb > 0
    ensures var minted := AddAll(offers, ra, rb, lp).value;
      && minted * ra <= OfferedA(offers) * lp
      && minted * rb <= OfferedB(offers) * lp
    decreases |offers|
  {
    hide QuoteAddLiquidity, DepositShare, Share;
    var first := offers[0];
    QuoteAddFacts(first.a, first.b, ra, rb, lp);
    var q := QuoteAddLiquidity(first.a, first.b, ra, rb, lp).value;
    var rest := offers[1..];
    var later := 0;
    if rest == [] {
      assert OfferedA(rest) == 0 && OfferedB(rest) == 0;
    } else {
      AddAllWithinShare(rest, q.newReserveA, q.newReserveB, q.newLpSupply);
      later := AddAll(rest, q.newReserveA, q.newReserveB, q.newLpSupply).value;
    }
    assert AddAll(offers, ra, rb, lp).value == q.lpMinted + later;
    assert OfferedA(offers) == first.a + OfferedA(rest) && OfferedB(offers) == first.b + OfferedB(rest);
    LaterRateIsNoBetter(q.lpMinted, first.a, q.amountA, later, OfferedA(rest), ra, lp);
    LaterRateIsNoBetter(q.lpMinted, first.b, q.amountB, later, OfferedB(rest), rb, lp);
  }

  /** If any list of deposits all succeed and the one deposit of all they offer succeeds,
      the one deposit mints at least as many LP tokens. */
  lemma SplitDepositsNeverHelp(offers: seq<Offer>, ra: u64, rb: u64, lp: u64)
    requires offers != [] && AddAll(offers, ra, rb, lp).Ok?
    requires OfferedA(offers) <= U64_MAX && OfferedB(offers) <= U64_MAX
    requires QuoteAddLiquidity(OfferedA(offers), OfferedB(offers), ra, rb, lp).Ok?
    ensures QuoteAddLiquidity(OfferedA(offers), OfferedB(offers), ra, rb, lp).value.lpMinted
              >= AddAll(offers, ra, rb, lp).value
  {
    AddAllWithinShare(offers, ra, rb, lp);
    var minted := AddAll(offers, ra, rb, lp).value;
    QuoteAddFacts(OfferedA(offers), OfferedB(offers), ra, rb, lp);
    MulIsNat(OfferedA(offers), lp);
    MulIsNat(OfferedB(offers), lp);
    FloorIsGreatest(OfferedA(offers) * lp, ra, minted);
    FloorIsGreatest(OfferedB(offers) * lp, rb, minted);
  }

  // ----- there and back

  lemma AddRemoveSide(amount: nat, reserve: nat, lp: nat, minted: nat)
    requires reserve > 0 && minted <= Share(amount, reserve, lp) && lp + minted > 0
    ensures Payout(minted, reserve + amount, lp + minted) <= amount
  {
    var y := Payout(minted, reserve + amount, lp + minted);
    PayoutIsGreatest(minted, reserve + amount, lp + minted, y);
    ShareRate(amount, reserve, lp, minted);
    calc {
      y * (lp + minted);
      <= minted * (reserve + amount);
      { Distribute(reserve, amount, minted); }
      minted * reserve + minted * amount;
      <= amount * lp + minted * amount;
      { Distribute(lp, minted, amount); }
      amount * (lp + minted);
    }
    Cancel(y, amount, lp + minted);
  }

  /** Depositing and withdrawing the LP tokens just minted never returns more than went
      in, on either side. */
  lemma AddThenRemoveNeverProfits(aDesired: u64, bDesired: u64, ra: u64, rb: u64, lp: u64)
    requires QuoteAddLiquidity(aDesired, bDesired, ra, rb, lp).Ok?
    ensures var put := QuoteAddLiquidity(aDesired, bDesired, ra, rb, lp).value;
      var got := QuoteRemoveLiquidity(put.lpMinted, put.newReserveA, put.newReserveB, put.newLpSupply);
      got.Ok? ==> got.value.amountA <= put.amountA && got.value.amountB <= put.amountB
  {
    QuoteAddFacts(aDesired, bDesired, ra, rb, lp);
    var put := QuoteAddLiquidity(aDesired, bDesired, ra, rb, lp).value;
    QuoteRemoveExact(put.lpMinted, put.newReserveA, put.newReserveB, put.newLpSupply);
    AddRemoveSide(put.amountA, ra, lp, put.lpMinted);
    AddRemoveSide(put.amountB, rb, lp, put.lpMinted);
  }

  lemma RemoveAddSide(amount: nat, reserve: nat, lp: nat)
    requires 0 < amount < lp && reserve > 0 && Payout(amount, reserve, lp) < reserve
    ensures Share(Payout(amount, reserve, lp), reserve - Payout(amount, reserve, lp), lp - amount) <= amount
  {
    PayoutIsGreatest(amount, reserve, lp, Payout(amount, reserve, lp));
    var y := Payout(amount, reserve, lp);
    hide Payout;
    ShareOfWithdrawn(y, amount, reserve, lp);
  }

  lemma ShareOfWithdrawn(y: nat, amount: nat, reserve: nat, lp: nat)
    requires amount < lp && y < reserve && y * lp <= amount * reserve
    ensures Share(y, reserve - y, lp - amount) <= amount
  {
    var s := Share(y, reserve - y, lp - amount);
    MulIsNat(y, lp - amount);
    FloorIsGreatest(y * (lp - amount), reserve - y, s);
    calc {
      s * (reserve - y);
      <= y * (lp - amount);
      { Distribute(lp, amount, y); }
      y * lp - y * amount;
      <= amount * reserve - amount * y;
      { Distribute(reserve, y, amount); }
      amount * (reserve - y);
    }
    Cancel(s, amount, reserve - y);
  }

  /** Withdrawing and depositing the coins just withdrawn never mints more LP tokens than
      were burned. */
  lemma RemoveThenAddNeverProfits(amount: u64, ra: u64, rb: u64, lp: u64)
    requires QuoteRemoveLiquidity(amount, ra, rb, lp).Ok?
    ensures var got := QuoteRemoveLiquidity(amount, ra, rb, lp).value;
      var put := QuoteAddLiquidity(got.amountA, got.amountB, got.newReserveA, got.newReserveB, got.newLpSupply);
      put.Ok? ==> put.value.lpMinted <= amount
  {
    QuoteRemoveExact(amount, ra, rb, lp);
    var got := QuoteRemoveLiquidity(amount, ra, rb, lp).value;
    var put := QuoteAddLiquidity(got.amountA, got.amountB, got.newReserveA, got.newReserveB, got.newLpSupply);
    if put.Ok? {
      QuoteAddFacts(got.amountA, got.amountB, got.newReserveA, got.newReserveB, got.newLpSupply);
      RemoveAddSide(amount, ra, lp);
    }
  }
}
