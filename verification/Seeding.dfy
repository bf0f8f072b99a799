/** The reachable states are not just the empty ones: every initialized pool over two
    stablecoins with room under their caps can be brought to life. */
module Seeding {
  import opened Results
  import opened Numeric
  import opened Balances
  import opened AmmMath
  import opened Issuance
  import opened World
  import opened Steps
  import opened Runs
  import opened Liveness
  import Token

  /** A list of operations on one coin, all of which succeed. */
  ghost predicate CoinPath(c: Coin, ops: seq<CoinOp>, c': Coin)
    decreases |ops|
  {
    if ops == [] then c' == c
    else CoinStep(c, ops[0]).Ok? && CoinPath(CoinStep(c, ops[0]).value, ops[1..], c')
  }

  function Lift(side: Side, ops: seq<CoinOp>): seq<Op> {
    if ops == [] then [] else [OnCoin(side, ops[0])] + Lift(side, ops[1..])
  }

  lemma CoinOpRuns(w: World, before: seq<Op>, side: Side, op: CoinOp)
    requires CoinStep(CoinOf(Run(w, before), side), op).Ok? && VaultOf(Run(w, before), side) !in Debited(op)
    ensures Run(w, before + [OnCoin(side, op)])
         == WithCoin(Run(w, before), side, CoinStep(CoinOf(Run(w, before), side), op).value)
  {
    hide CoinStep;
    assert Front(before + [OnCoin(side, op)]) == before;
  }

  /** In a run, such a list does to its coin just what it does alone. */
  lemma {:induction false} CoinPathRuns(w: World, before: seq<Op>, side: Side, ops: seq<CoinOp>, c': Coin)
    requires CoinPath(CoinOf(Run(w, before), side), ops, c')
    requires forall op :: op in ops ==> VaultOf(Run(w, before), side) !in Debited(op)
    ensures Run(w, before + Lift(side, ops)) == WithCoin(Run(w, before), side, c')
    decreases |ops|
  {
    hide CoinStep, Run;
    if ops == [] {
      assert before + Lift(side, ops) == before;
    } else {
      var next := before + [OnCoin(side, ops[0])];
      CoinOpRuns(w, before, side, ops[0]);
      CoinPathRuns(w, next, side, ops[1..], c');
      assert next + Lift(side, ops[1..]) == before + Lift(side, ops);
    }
  }

  /** Allow the vault and a new account, appoint a minter, and mint to the account. */
  function Setup(c: Coin, vault: Key, account: Key, minter: Key, amount: u64): seq<CoinOp> {
    [OpSetWalletPolicy(c.config.complianceAuthority, vault, PolicyStatus.Allowed),
     OpenAccount(account),
     OpSetWalletPolicy(c.config.complianceAuthority, account, PolicyStatus.Allowed),
     OpGrantMinter(c.config.admin, minter, amount),
     OpMintTo(minter, account, amount)]
  }

  lemma SetupSucceeds(c: Coin, vault: Key, account: Key, minter: Key, amount: u64) returns (c': Coin)
    requires Fresh(c) && vault in c.token.balances && account !in c.token.balances
    requires minter != DEFAULT_KEY && 0 < amount <= c.config.supplyCap
    ensures CoinPath(c, Setup(c, vault, account, minter, amount), c')
    ensures Token.CanMove(c'.token, account) && Token.CanMove(c'.token, vault)
    ensures Token.Balance(c'.token, account) == amount
  {
    var ops := Setup(c, vault, account, minter, amount);
    var c1 := CoinStep(c, ops[0]).value;
    var c2 := CoinStep(c1, ops[1]).value;
    var c3 := CoinStep(c2, ops[2]).value;
    var c4 := CoinStep(c3, ops[3]).value;
    assert CoinStep(c4, ops[4]).Ok?;
    c' := CoinStep(c4, ops[4]).value;
    hide CoinStep;
    assert ops[1..][1..] == ops[2..] && ops[2..][1..] == ops[3..] && ops[3..][1..] == [ops[4]];
    assert CoinPath(c', [], c');
    assert CoinPath(c4, [ops[4]], c');
    assert CoinPath(c3, ops[3..], c');
    assert CoinPath(c2, ops[2..], c');
    assert CoinPath(c1, ops[1..], c');
  }

  /** Both coins set up and an LP account opened, one after the other. */
  function Preparations(w: World, u: User, minter: Key, aDesired: u64, bDesired: u64): seq<Op> {
    Lift(SideA, Setup(w.a, w.pool.vaultA, u.a, minter, aDesired))
    + Lift(SideB, Setup(w.b, w.pool.vaultB, u.b, minter, bDesired))
    + [LpOpen(u.lp)]
  }

  lemma PreparationsSucceed(w0: World, u: User, minter: Key, aDesired: u64, bDesired: u64)
    requires Initial(w0) && minter != DEFAULT_KEY
    requires u.a !in w0.a.token.balances && u.b !in w0.b.token.balances && u.lp != w0.pool.lockedLp
    requires 0 < aDesired <= w0.a.config.supplyCap && 0 < bDesired <= w0.b.config.supplyCap
    ensures var w := Run(w0, Preparations(w0, u, minter, aDesired, bDesired));
      && Empty(w) && Ready(w, u) && LpAccounts(w, u)
      && Token.Balance(w.a.token, u.a) == aDesired && Token.Balance(w.b.token, u.b) == bDesired
  {
    var opsA := Setup(w0.a, w0.pool.vaultA, u.a, minter, aDesired);
    var opsB := Setup(w0.b, w0.pool.vaultB, u.b, minter, bDesired);
    var a := SetupSucceeds(w0.a, w0.pool.vaultA, u.a, minter, aDesired);
    var b := SetupSucceeds(w0.b, w0.pool.vaultB, u.b, minter, bDesired);
    SetupDebitsNothing(w0.a, w0.pool.vaultA, u.a, minter, aDesired);
    SetupDebitsNothing(w0.b, w0.pool.vaultB, u.b, minter, bDesired);
    hide Setup, CoinPath, Lift, Fresh;
    CoinPathRuns(w0, [], SideA, opsA, a);
    assert [] + Lift(SideA, opsA) == Lift(SideA, opsA);
    CoinPathRuns(w0, Lift(SideA, opsA), SideB, opsB, b);
    assert Front(Preparations(w0, u, minter, aDesired, bDesired)) == Lift(SideA, opsA) + Lift(SideB, opsB);
  }

  lemma SetupDebitsNothing(c: Coin, vault: Key, account: Key, minter: Key, amount: u64)
    ensures forall op :: op in Setup(c, vault, account, minter, amount) ==> Debited(op) == {}
  {}

  /** From every initial world there is a run after which the pool is seeded, for any first
      deposit the coins' caps leave room for and whose root exceeds the locked minimum. */
  lemma EveryPoolCanBeSeeded(w0: World, u: User, minter: Key, aDesired: u64, bDesired: u64)
    requires Initial(w0) && minter != DEFAULT_KEY
    requires u.a !in w0.a.token.balances && u.b !in w0.b.token.balances && u.lp != w0.pool.lockedLp
    requires 0 < aDesired <= w0.a.config.supplyCap && 0 < bDesired <= w0.b.config.supplyCap
    requires aDesired * bDesired >= (MINIMUM_LIQUIDITY + 1) * (MINIMUM_LIQUIDITY + 1)
    ensures var w := Run(w0, Preparations(w0, u, minter, aDesired, bDesired) + [OpAdd(u, aDesired, bDesired, 0, 0, 0)]);
      Reachable(w) && Seeded(w) && w.pool.reserveA == aDesired && w.pool.reserveB == bDesired
  {
    PreparationsSucceed(w0, u, minter, aDesired, bDesired);
    var before := Preparations(w0, u, minter, aDesired, bDesired);
    hide Initial, Preparations;
    FirstDepositSeeds(w0, before, u, aDesired, bDesired);
    var ops := before + [OpAdd(u, aDesired, bDesired, 0, 0, 0)];
    assert Front(ops) == before;
    assert Initial(w0) && Run(w0, ops) == Run(w0, ops);
  }

  lemma FirstDepositSeeds(w0: World, before: seq<Op>, u: User, aDesired: u64, bDesired: u64)
    requires Initial(w0) && Empty(Run(w0, before)) && Ready(Run(w0, before), u) && LpAccounts(Run(w0, before), u)
    requires var w := Run(w0, before);
      0 < aDesired <= Token.Balance(w.a.token, u.a) && 0 < bDesired <= Token.Balance(w.b.token, u.b)
    requires aDesired * bDesired >= (MINIMUM_LIQUIDITY + 1) * (MINIMUM_LIQUIDITY + 1)
    ensures var r := AddLiquidity(Run(w0, before), u, aDesired, bDesired, 0, 0, 0);
      r.Ok? && Seeded(r.value) && r.value.pool.reserveA == aDesired && r.value.pool.reserveB == bDesired
  {
    var w := Run(w0, before);
    assert Reachable(w);
    DepositGuarantee(w, u, aDesired, bDesired, 0, 0, 0);
    AddEffect(w, u, aDesired, bDesired, 0, 0, 0);
    DepositQuoteFacts(w, aDesired, bDesired);
  }
}
