/** The issuance ledger over whole runs: the program's counters against what really
    happened, and its stored policies against the live frozen accounts. */
module IssuanceRuns {
  import opened Results
  import opened Numeric
  import opened Balances
  import opened Issuance
  import opened World
  import opened Steps
  import opened Runs
  import opened Conservation
  import Token

  /** A step changes a coin by one of its own operations, or leaves everything but its
      balances alone. */
  lemma CoinEvolution(w: World, op: Op, side: Side)
    requires WorldInv(w) && Step(w, op).Some?
    ensures var c, c' := CoinOf(w, side), CoinOf(Step(w, op).value, side);
      if op.OnCoin? && op.side == side then CoinStep(c, op.coinOp) == Ok(c')
      else && c'.config == c.config && c'.roles == c.roles && c'.policies == c.policies
           && c'.token.supply == c.token.supply && c'.token.frozen == c.token.frozen
           && c'.token.balances.Keys == c.token.balances.Keys
  {
    if IsPoolOp(op) {
      hide WorldInv, Step;
      PoolOpMovesReserves(w, op, side);
    }
  }

  // ----- burns the program does not see

  function BurnedOutsideBy(w: World, op: Op, side: Side): nat {
    if op.OnCoin? && op.side == side && op.coinOp.DirectBurn? && Step(w, op).Some? then op.coinOp.amount else 0
  }

  /** What owners burned without the program over a run. */
  function BurnedOutside(w: World, ops: seq<Op>, side: Side): nat {
    if ops == [] then 0
    else BurnedOutside(w, Front(ops), side) + BurnedOutsideBy(Run(w, Front(ops)), Last(ops), side)
  }

  /** Tracked outstanding supply in excess of the live one. */
  function Untracked(c: Coin): int {
    c.config.totalMinted - c.config.totalBurned - c.token.supply
  }

  lemma CoinStepUntracked(c: Coin, op: CoinOp)
    requires CoinStep(c, op).Ok?
    ensures Untracked(CoinStep(c, op).value) == Untracked(c) + (if op.DirectBurn? then op.amount else 0)
  {}

  lemma StepUntracked(w: World, op: Op, side: Side)
    requires WorldInv(w) && Step(w, op).Some?
    ensures Untracked(CoinOf(Step(w, op).value, side)) == Untracked(CoinOf(w, side)) + BurnedOutsideBy(w, op, side)
  {
    CoinEvolution(w, op, side);
    hide WorldInv, Step, CoinStep;
    if op.OnCoin? && op.side == side {
      CoinStepUntracked(CoinOf(w, side), op.coinOp);
    }
  }

  /** Over any run, the gap between what the counters call outstanding and the live supply
      grows by exactly what owners burned outside the program. */
  lemma {:induction false} UntrackedIsBurnedOutside(w: World, ops: seq<Op>, side: Side)
    requires WorldInv(w)
    ensures Untracked(CoinOf(Run(w, ops), side)) == Untracked(CoinOf(w, side)) + BurnedOutside(w, ops, side)
    decreases |ops|
  {
    hide WorldInv, Step, Untracked;
    if ops != [] {
      UntrackedIsBurnedOutside(w, Front(ops), side);
      RunKeepsInv(w, Front(ops));
      var before := Run(w, Front(ops));
      if Step(before, Last(ops)).Some? {
        StepUntracked(before, Last(ops), side);
      } else {
        assert BurnedOutsideBy(before, Last(ops), side) == 0;
      }
    }
  }

  // ----- every role ever opened

  function MintedBy(roles: map<Key, MinterRole>): Amounts {
    map k | k in roles :: roles[k].minted
  }

  function AllowedTo(roles: map<Key, MinterRole>): Amounts {
    map k | k in roles :: roles[k].allowance
  }

  ghost function RolesMinted(c: Coin): nat {
    Total(MintedBy(c.roles))
  }

  ghost function RolesAllowed(c: Coin): nat {
    Total(AllowedTo(c.roles))
  }

  /** The role a step revokes, if it revokes one. */
  function Revoked(w: World, op: Op, side: Side): MinterRole {
    if op.OnCoin? && op.side == side && op.coinOp.OpRevokeMinter? && Step(w, op).Some?
       && op.coinOp.authority in CoinOf(w, side).roles
    then CoinOf(w, side).roles[op.coinOp.authority]
    else MinterRole(0, 0)
  }

  /** What the roles revoked along a run had minted. */
  function RevokedMinted(w: World, ops: seq<Op>, side: Side): nat {
    if ops == [] then 0
    else RevokedMinted(w, Front(ops), side) + Revoked(Run(w, Front(ops)), Last(ops), side).minted
  }

  /** What the roles revoked along a run had been allowed. */
  function RevokedAllowance(w: World, ops: seq<Op>, side: Side): nat {
    if ops == [] then 0
    else RevokedAllowance(w, Front(ops), side) + Revoked(Run(w, Front(ops)), Last(ops), side).allowance
  }

  function GrantedBy(w: World, op: Op, side: Side): nat {
    if op.OnCoin? && op.side == side && op.coinOp.OpGrantMinter? && Step(w, op).Some? then op.coinOp.allowance else 0
  }

  /** Every allowance the admin granted along a run. */
  function Granted(w: World, ops: seq<Op>, side: Side): nat {
    if ops == [] then 0
    else Granted(w, Front(ops), side) + GrantedBy(Run(w, Front(ops)), Last(ops), side)
  }

  lemma RoleUpdated(roles: map<Key, MinterRole>, k: Key, r: MinterRole)
    ensures Total(MintedBy(roles[k := r]))
         == Total(MintedBy(roles)) + r.minted - (if k in roles then roles[k].minted else 0)
    ensures Total(AllowedTo(roles[k := r]))
         == Total(AllowedTo(roles)) + r.allowance - (if k in roles then roles[k].allowance else 0)
  {
    assert MintedBy(roles[k := r]) == MintedBy(roles)[k := r.minted];
    assert AllowedTo(roles[k := r]) == AllowedTo(roles)[k := r.allowance];
    TotalUpdate(MintedBy(roles), k, r.minted);
    TotalUpdate(AllowedTo(roles), k, r.allowance);
  }

  lemma RoleRemoved(roles: map<Key, MinterRole>, k: Key)
    requires k in roles
    ensures Total(MintedBy(roles - {k})) == Total(MintedBy(roles)) - roles[k].minted
    ensures Total(AllowedTo(roles - {k})) == Total(AllowedTo(roles)) - roles[k].allowance
  {
    assert MintedBy(roles - {k}) == MintedBy(roles) - {k};
    assert AllowedTo(roles - {k}) == AllowedTo(roles) - {k};
    TotalRemove(MintedBy(roles), k);
    TotalRemove(AllowedTo(roles), k);
  }

  lemma CoinStepRoles(c: Coin, op: CoinOp)
    requires CoinStep(c, op).Ok?
    ensures var c' := CoinStep(c, op).value;
      if op.OpRevokeMinter? then
        && op.authority in c.roles
        && RolesMinted(c') == RolesMinted(c) - c.roles[op.authority].minted
        && RolesAllowed(c') == RolesAllowed(c) - c.roles[op.authority].allowance
        && c'.config.totalMinted == c.config.totalMinted
      else
        && RolesMinted(c') - RolesMinted(c) == c'.config.totalMinted - c.config.totalMinted
        && RolesAllowed(c') == RolesAllowed(c) + (if op.OpGrantMinter? then op.allowance else 0)
  {
    match op
    case OpMintTo(minter, destination, amount) =>
      RoleUpdated(c.roles, minter, c.roles[minter].(minted := c.roles[minter].minted + amount));
    case OpGrantMinter(_, authority, allowance) => RoleUpdated(c.roles, authority, MinterRole(allowance, 0));
    case OpRevokeMinter(_, authority) => RoleRemoved(c.roles, authority);
    case _ => OtherStepsKeepRoles(c, op); hide CoinStep;
  }

  lemma OtherStepsKeepRoles(c: Coin, op: CoinOp)
    requires CoinStep(c, op).Ok? && !op.OpMintTo? && !op.OpGrantMinter? && !op.OpRevokeMinter?
    ensures CoinStep(c, op).value.roles == c.roles
    ensures CoinStep(c, op).value.config.totalMinted == c.config.totalMinted
  {}

  lemma StepRoles(w: World, op: Op, side: Side)
    requires WorldInv(w) && Step(w, op).Some?
    ensures var c, c' := CoinOf(w, side), CoinOf(Step(w, op).value, side);
      var gone := Revoked(w, op, side);
      && RolesMinted(c') + gone.minted - RolesMinted(c) == c'.config.totalMinted - c.config.totalMinted
      && RolesAllowed(c') + gone.allowance == RolesAllowed(c) + GrantedBy(w, op, side)
      && gone.minted <= gone.allowance
  {
    CoinEvolution(w, op, side);
    assert AllowanceInv(CoinOf(w, side));
    hide WorldInv, Step, RolesMinted, RolesAllowed;
    if op.OnCoin? && op.side == side {
      CoinStepRoles(CoinOf(w, side), op.coinOp);
    } else {
      SameRoles(CoinOf(w, side), CoinOf(Step(w, op).value, side));
    }
  }

  lemma SameRoles(c: Coin, c': Coin)
    requires c'.roles == c.roles
    ensures RolesMinted(c') == RolesMinted(c) && RolesAllowed(c') == RolesAllowed(c)
  {}

  /** Over any run, `total_minted` grows by exactly what the roles - those still open and
      those revoked on the way - minted, and what they are allowed by what was granted. */
  lemma {:induction false} MintedIsWhatRolesMinted(w: World, ops: seq<Op>, side: Side)
    requires WorldInv(w)
    ensures var c, c' := CoinOf(w, side), CoinOf(Run(w, ops), side);
      c'.config.totalMinted - c.config.totalMinted == RolesMinted(c') + RevokedMinted(w, ops, side) - RolesMinted(c)
    ensures RolesAllowed(CoinOf(Run(w, ops), side)) + RevokedAllowance(w, ops, side)
         == RolesAllowed(CoinOf(w, side)) + Granted(w, ops, side)
    ensures RevokedMinted(w, ops, side) <= RevokedAllowance(w, ops, side)
    decreases |ops|
  {
    hide WorldInv, Step, RolesMinted, RolesAllowed, Revoked, GrantedBy;
    if ops != [] {
      MintedIsWhatRolesMinted(w, Front(ops), side);
      RunKeepsInv(w, Front(ops));
      var before := Run(w, Front(ops));
      if Step(before, Last(ops)).Some? {
        StepRoles(before, Last(ops), side);
      } else {
        RejectedRevokesNothing(before, Last(ops), side);
      }
    }
  }

  lemma RejectedRevokesNothing(w: World, op: Op, side: Side)
    requires Step(w, op).None?
    ensures Revoked(w, op, side) == MinterRole(0, 0) && GrantedBy(w, op, side) == 0
  {}

  lemma {:induction false} SumBelow(m: Amounts, n: Amounts, s: set<Key>)
    requires forall k :: k in s ==> Get(m, k) <= Get(n, k)
    ensures SumOver(m, s) <= SumOver(n, s)
    decreases s
  {
    if s != {} {
      var k :| k in s;
      SumSplit(m, s, k);
      SumSplit(n, s, k);
      SumBelow(m, n, s - {k});
    }
  }

  /** The issuance account of every run from initialization: `total_minted` is the sum of
      `minted` over all roles ever opened, and at most the sum of the allowances granted; the
      untracked gap is exactly what owners burned outside the program; and the live
      supply is within the cap, which is within the protocol's. */
  lemma IssuanceIsAccountedFor(w0: World, ops: seq<Op>, side: Side)
    requires Initial(w0)
    ensures var c := CoinOf(Run(w0, ops), side);
      && c.config.totalMinted == RolesMinted(c) + RevokedMinted(w0, ops, side)
      && c.config.totalMinted <= Granted(w0, ops, side)
      && c.config.totalMinted - c.config.totalBurned - c.token.supply == BurnedOutside(w0, ops, side)
      && c.token.supply <= c.config.supplyCap <= MAX_SUPPLY_CAP
  {
    InitialHasInv(w0);
    RunKeepsInv(w0, ops);
    MintedIsWhatRolesMinted(w0, ops, side);
    UntrackedIsBurnedOutside(w0, ops, side);
    var c := CoinOf(Run(w0, ops), side);
    assert CoinInv(c);
    assert MintedBy(CoinOf(w0, side).roles) == map[] == AllowedTo(CoinOf(w0, side).roles);
    SumBelow(MintedBy(c.roles), AllowedTo(c.roles), c.roles.Keys);
    assert MintedBy(c.roles).Keys == c.roles.Keys == AllowedTo(c.roles).Keys;
  }

  // ----- policies against frozen accounts

  /** Whether the account at `k` was closed and opened again since its policy was last set. */
  function Reopened(w: World, ops: seq<Op>, side: Side, k: Key): bool {
    if ops == [] then false
    else ReopenedBy(Run(w, Front(ops)), Last(ops), side, k, Reopened(w, Front(ops), side, k))
  }

  function ReopenedBy(w: World, op: Op, side: Side, k: Key, before: bool): bool {
    if op.OnCoin? && op.side == side && Step(w, op).Some? then ReopenedByCoinOp(op.coinOp, k, before) else before
  }

  /** The live state of an account, from its policy and its history. */
  ghost predicate FrozenAsExpected(c: Coin, k: Key, reopened: bool) {
    k in c.token.balances ==>
      (k in c.token.frozen <==> k !in c.policies || c.policies[k].Blocked? || reopened)
  }

  /** What one of a coin's own operations makes of the history. */
  function ReopenedByCoinOp(op: CoinOp, k: Key, before: bool): bool {
    if op == OpenAccount(k) then true
    else if op.OpSetWalletPolicy? && op.account == k then false
    else before
  }

  lemma CoinStepFrozen(c: Coin, op: CoinOp, k: Key, reopened: bool)
    requires Token.TokenInv(c.token) && CoinStep(c, op).Ok? && FrozenAsExpected(c, k, reopened)
    ensures FrozenAsExpected(CoinStep(c, op).value, k, ReopenedByCoinOp(op, k, reopened))
  {}

  lemma StepFrozen(w: World, op: Op, side: Side, k: Key, reopened: bool)
    requires WorldInv(w) && Step(w, op).Some?
    requires FrozenAsExpected(CoinOf(w, side), k, reopened)
    ensures FrozenAsExpected(CoinOf(Step(w, op).value, side), k, ReopenedBy(w, op, side, k, reopened))
  {
    CoinEvolution(w, op, side);
    assert Token.TokenInv(CoinOf(w, side).token);
    hide WorldInv, Step, CoinStep;
    if op.OnCoin? && op.side == side {
      CoinStepFrozen(CoinOf(w, side), op.coinOp, k, reopened);
    }
  }

  lemma {:induction false} RunFrozen(w: World, ops: seq<Op>, side: Side, k: Key)
    requires WorldInv(w) && FrozenAsExpected(CoinOf(w, side), k, false)
    ensures FrozenAsExpected(CoinOf(Run(w, ops), side), k, Reopened(w, ops, side, k))
    decreases |ops|
  {
    hide WorldInv, Step, FrozenAsExpected;
    if ops != [] {
      RunFrozen(w, Front(ops), side, k);
      RunKeepsInv(w, Front(ops));
      var before := Run(w, Front(ops));
      if Step(before, Last(ops)).Some? {
        StepFrozen(before, Last(ops), side, k, Reopened(w, Front(ops), side, k));
      }
    }
  }

  /** Exactly when a wallet policy agrees with the live account: over every run from
      initialization, an existing account with a policy is frozen if and only if the
      policy is `Blocked`, unless the policy is `Allowed` and the account has been closed
      and reopened since it was set - then, and only then, they disagree, and the account
      is frozen. An account without a policy is always frozen. */
  lemma PolicyAgreesUnlessReopened(w0: World, ops: seq<Op>, side: Side, k: Key)
    requires Initial(w0) && k in CoinOf(Run(w0, ops), side).token.balances
    ensures var c := CoinOf(Run(w0, ops), side);
      && (k !in c.policies ==> k in c.token.frozen)
      && (k in c.policies ==>
            ((k in c.token.frozen <==> c.policies[k].Blocked?)
             <==> !(c.policies[k].Allowed? && Reopened(w0, ops, side, k))))
  {
    InitialHasInv(w0);
    RunFrozen(w0, ops, side, k);
  }

  /** Such a disagreement does happen: allow a fresh account, close it, and open it again. */
  lemma PolicyCanDisagree(w0: World, k: Key)
    requires Initial(w0) && k !in w0.a.token.balances && k != w0.pool.vaultA
    ensures var c := Run(w0, ReopeningRun(w0, k)).a;
      && k in c.token.balances && k in c.token.frozen
      && k in c.policies && c.policies[k].Allowed?
  {
    var o1, o3 := OpenAccount(k), CloseAccount(k);
    var o2 := OpSetWalletPolicy(w0.a.config.complianceAuthority, k, PolicyStatus.Allowed);
    ReopeningSteps(w0.a, k);
    hide CoinStep, Initial;
    var c1 := CoinStep(w0.a, o1).value;
    var c2 := CoinStep(c1, o2).value;
    var c3 := CoinStep(c2, o3).value;
    var r1 := [OnCoin(SideA, o1)];
    RunOnA(w0, [], o1);
    RunOnA(w0, r1, o2);
    RunOnA(w0, r1 + [OnCoin(SideA, o2)], o3);
    RunOnA(w0, r1 + [OnCoin(SideA, o2)] + [OnCoin(SideA, o3)], o1);
    assert [] + r1 == r1;
    assert r1 + [OnCoin(SideA, o2)] + [OnCoin(SideA, o3)] + [OnCoin(SideA, o1)] == ReopeningRun(w0, k);
  }

  lemma ReopeningSteps(c: Coin, k: Key)
    requires k !in c.token.balances
    ensures var o1, o3 := OpenAccount(k), CloseAccount(k);
      var o2 := OpSetWalletPolicy(c.config.complianceAuthority, k, PolicyStatus.Allowed);
      && CoinStep(c, o1).Ok? && CoinStep(CoinStep(c, o1).value, o2).Ok?
      && CoinStep(CoinStep(CoinStep(c, o1).value, o2).value, o3).Ok?
      && var r := CoinStep(CoinStep(CoinStep(CoinStep(c, o1).value, o2).value, o3).value, o1);
         r.Ok? && k in r.value.token.balances && k in r.value.token.frozen && IsAllowed(r.value, k)
  {}

  /** One more successful operation on the first coin at the end of a run. */
  lemma RunOnA(w: World, ops: seq<Op>, op: CoinOp)
    requires Run(w, ops).pool.vaultA !in Debited(op) && CoinStep(Run(w, ops).a, op).Ok?
    ensures Run(w, ops + [OnCoin(SideA, op)]) == Run(w, ops).(a := CoinStep(Run(w, ops).a, op).value)
  {
    assert Front(ops + [OnCoin(SideA, op)]) == ops;
  }

  function ReopeningRun(w0: World, k: Key): seq<Op> {
    [OnCoin(SideA, OpenAccount(k)),
     OnCoin(SideA, OpSetWalletPolicy(w0.a.config.complianceAuthority, k, PolicyStatus.Allowed)),
     OnCoin(SideA, CloseAccount(k)),
     OnCoin(SideA, OpenAccount(k))]
  }
}
