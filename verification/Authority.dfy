/** Who can change what: every change to a stablecoin traces back to the signer the
    design names for it. */
module Authority {
  import opened Results
  import opened Numeric
  import opened Balances
  import opened Issuance
  import opened World
  import opened Steps
  import opened Runs
  import opened IssuanceRuns
  import Token

  /** New supply appears only when a minter with that much allowance left mints it to an
      allowed, thawed account of an unpaused coin, within the cap. */
  lemma OnlyMintersIssue(c: Coin, op: CoinOp)
    requires CoinInv(c) && CoinStep(c, op).Ok?
    requires CoinStep(c, op).value.token.supply > c.token.supply
    ensures op.OpMintTo? && op.minter in c.roles
    ensures c.roles[op.minter].minted + op.amount <= c.roles[op.minter].allowance
    ensures !c.token.paused && IsAllowed(c, op.destination) && op.destination !in c.token.frozen
    ensures CoinStep(c, op).value.token.supply == c.token.supply + op.amount <= c.config.supplyCap
  {}

  /** The admin changes only when the key the admin nominated signs; a nomination is made
      only by the admin, and names neither the default key nor the admin. */
  lemma RotationTakesTwoSteps(c: Coin, op: CoinOp)
    requires CoinStep(c, op).Ok?
    ensures var c' := CoinStep(c, op).value;
      && (c'.config.admin != c.config.admin ==>
            op.OpAcceptAdmin? && c.config.pendingAdmin == Some(op.caller) && c'.config.admin == op.caller
            && c'.config.pendingAdmin == None)
      && (c'.config.pendingAdmin != c.config.pendingAdmin && c'.config.pendingAdmin.Some? ==>
            && op.OpUpdateConfig? && op.caller == c.config.admin && op.newAdmin == c'.config.pendingAdmin
            && c'.config.pendingAdmin.value != DEFAULT_KEY && c'.config.pendingAdmin.value != c.config.admin)
  {}

  /** The cap, the compliance authority and the roles are the admin's to change; the pause
      belongs to the admin and the compliance authority; policies to the latter alone. */
  lemma OnlyAuthoritiesConfigure(c: Coin, op: CoinOp)
    requires CoinStep(c, op).Ok?
    ensures var c' := CoinStep(c, op).value;
      && (c'.config.supplyCap != c.config.supplyCap ==>
            op.OpUpdateConfig? && op.caller == c.config.admin && op.supplyCap == Some(c'.config.supplyCap)
            && c.token.supply <= c'.config.supplyCap <= MAX_SUPPLY_CAP)
      && (c'.config.complianceAuthority != c.config.complianceAuthority ==>
            op.OpUpdateConfig? && op.caller == c.config.admin && op.compliance == Some(c'.config.complianceAuthority)
            && c'.config.complianceAuthority != DEFAULT_KEY)
      && (c'.roles.Keys != c.roles.Keys ==>
            (op.OpGrantMinter? || op.OpRevokeMinter?) && op.caller == c.config.admin)
      && (c'.token.paused != c.token.paused ==>
            op.OpSetPause? && (op.caller == c.config.admin || op.caller == c.config.complianceAuthority))
      && (c'.policies != c.policies ==>
            op.OpSetWalletPolicy? && op.caller == c.config.complianceAuthority)
  {
    if op.OpMintTo? {
      assert CoinStep(c, op).value.roles.Keys == c.roles.Keys;
    }
  }

  /** A thawed account got that way through the compliance authority. */
  lemma OnlyComplianceThaws(c: Coin, op: CoinOp, k: Key)
    requires CoinInv(c) && CoinStep(c, op).Ok?
    requires Token.CanMove(CoinStep(c, op).value.token, k)
    requires k !in c.token.balances || k in c.token.frozen
    ensures op == OpSetWalletPolicy(c.config.complianceAuthority, k, PolicyStatus.Allowed)
  {}

  ghost predicate ProperAuthorities(c: Coin) {
    && c.config.admin != DEFAULT_KEY && c.config.complianceAuthority != DEFAULT_KEY
    && c.config.pendingAdmin != Some(DEFAULT_KEY)
  }

  lemma CoinStepKeepsAuthorities(c: Coin, op: CoinOp)
    requires ProperAuthorities(c) && CoinStep(c, op).Ok?
    ensures ProperAuthorities(CoinStep(c, op).value)
  {}

  /** Over any run, no authority is ever the default key. */
  lemma {:induction false} AuthoritiesStayProper(w: World, ops: seq<Op>, side: Side)
    requires WorldInv(w) && ProperAuthorities(CoinOf(w, side))
    ensures ProperAuthorities(CoinOf(Run(w, ops), side))
    decreases |ops|
  {
    hide WorldInv, Step, CoinStep;
    if ops != [] {
      AuthoritiesStayProper(w, Front(ops), side);
      RunKeepsInv(w, Front(ops));
      var before := Run(w, Front(ops));
      if Step(before, Last(ops)).Some? {
        CoinEvolution(before, Last(ops), side);
        if Last(ops).OnCoin? && Last(ops).side == side {
          CoinStepKeepsAuthorities(CoinOf(before, side), Last(ops).coinOp);
        }
      }
    }
  }
}
