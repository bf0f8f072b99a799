/** What each operation on a stablecoin asks for and what it does, told account by account
    and field by field: when it succeeds, what it changes, and that it changes nothing else. */
module CoinEffects {
  import opened Results
  import opened Numeric
  import opened Balances
  import opened Issuance
  import Token

  /** Only the balance at `k`, and the supply with it, moved - by `amount`. */
  ghost predicate OnlyCredited(t: Token.Token, t': Token.Token, k: Key, amount: int) {
    && t'.balances.Keys == t.balances.Keys
    && (forall j :: j in t.balances ==> t'.balances[j] == t.balances[j] + (if j == k then amount else 0))
    && t'.supply == t.supply + amount && t'.frozen == t.frozen && t'.paused == t.paused
  }

  /** Only the freeze state of `k` may differ. */
  ghost predicate OnlyRefrozen(t: Token.Token, t': Token.Token, k: Key) {
    && t'.balances == t.balances && t'.supply == t.supply && t'.paused == t.paused
    && (forall j :: j != k ==> (j in t'.frozen <==> j in t.frozen))
  }

  lemma KeepsCoinInv(c: Coin, op: CoinOp)
    requires CoinInv(c) && CoinStep(c, op).Ok?
    ensures CoinInv(CoinStep(c, op).value)
  {
    CoinOpEffect(c, op);
  }

  // ----- issuing and burning

  /** The minter holds an open role with that much allowance left, the destination is
      allowed and thawed, the coin is live, and the cap and the counter have room. */
  ghost predicate MayMint(c: Coin, minter: Key, destination: Key, amount: u64) {
    && minter in c.roles && amount > 0 && !c.token.paused
    && destination in c.token.balances && destination !in c.token.frozen && IsAllowed(c, destination)
    && c.roles[minter].minted + amount <= c.roles[minter].allowance
    && c.token.supply + amount <= c.config.supplyCap
    && c.config.totalMinted + amount <= U128_MAX
  }

  /** What is minted appears in the role, the counter, the supply and the destination. */
  ghost predicate Minted(c: Coin, c': Coin, minter: Key, destination: Key, amount: u64) {
    && OnlyCredited(c.token, c'.token, destination, amount)
    && c'.policies == c.policies && c'.roles.Keys == c.roles.Keys
    && (forall m :: m in c.roles ==>
          && c'.roles[m].allowance == c.roles[m].allowance
          && c'.roles[m].minted == c.roles[m].minted + (if m == minter then amount else 0))
    && c'.config.totalMinted == c.config.totalMinted + amount
    && c'.config == c.config.(totalMinted := c'.config.totalMinted)
  }

  /** From any sound state minting succeeds exactly when it may, and does what it should. */
  lemma MintExact(c: Coin, minter: Key, destination: Key, amount: u64)
    requires CoinInv(c)
    ensures CoinStep(c, OpMintTo(minter, destination, amount)).Ok? <==> MayMint(c, minter, destination, amount)
    ensures CoinStep(c, OpMintTo(minter, destination, amount)).Ok? ==>
              Minted(c, CoinStep(c, OpMintTo(minter, destination, amount)).value, minter, destination, amount)
  {
    hide SumOver;
    BalanceWithinTotal(c.token.balances, destination);
  }

  /** A refused mint names a limit that it would in fact have broken. */
  lemma MintRefusalsAreTrue(c: Coin, minter: Key, destination: Key, amount: u64)
    requires CoinInv(c)
    ensures var r := CoinStep(c, OpMintTo(minter, destination, amount));
      r.Err? ==>
        match r.error
        case AccountConstraint =>
          minter !in c.roles || destination !in c.token.balances || destination !in c.policies
        case ZeroAmount => amount == 0
        case ProtocolPaused => c.token.paused
        case WalletNotAllowed => destination in c.policies && c.policies[destination].Blocked?
        case AllowanceExceeded => minter in c.roles && c.roles[minter].minted + amount > c.roles[minter].allowance
        case SupplyCapExceeded => c.token.supply + amount > c.config.supplyCap
        case MathOverflow =>
          || (minter in c.roles && c.roles[minter].minted + amount > U64_MAX)
          || c.token.supply + amount > U64_MAX || c.config.totalMinted + amount > U128_MAX
        case TokenRejected => destination in c.token.frozen
        case _ => false
  {
    hide SumOver;
    BalanceWithinTotal(c.token.balances, destination);
  }

  /** A burn through the program succeeds exactly when the owner's account is thawed and
      holds the amount and the coin is live: the counter of burned tokens, being at most
      what was minted, cannot overflow. */
  lemma BurnExact(c: Coin, source: Key, amount: u64)
    requires CoinInv(c)
    ensures CoinStep(c, OpBurn(source, amount)).Ok? <==>
              && amount > 0 && !c.token.paused
              && source in c.token.balances && source !in c.token.frozen && amount <= c.token.balances[source]
    ensures CoinStep(c, OpBurn(source, amount)).Ok? ==>
              var c' := CoinStep(c, OpBurn(source, amount)).value;
              && OnlyCredited(c.token, c'.token, source, 0 - amount)
              && c'.roles == c.roles && c'.policies == c.policies
              && c'.config.totalBurned == c.config.totalBurned + amount
              && c'.config == c.config.(totalBurned := c'.config.totalBurned)
  {
    hide SumOver;
    BalanceWithinTotal(c.token.balances, source);
  }

  /** Minting in two parts is minting the sum: once the first part is in, the second is
      accepted exactly when the whole would have been, and leaves the same coin. */
  lemma MintsAddUp(c: Coin, minter: Key, destination: Key, x: u64, y: u64)
    requires CoinInv(c) && x + y <= U64_MAX && y > 0
    requires CoinStep(c, OpMintTo(minter, destination, x)).Ok?
    ensures var first := CoinStep(c, OpMintTo(minter, destination, x)).value;
      var second := CoinStep(first, OpMintTo(minter, destination, y));
      var whole := CoinStep(c, OpMintTo(minter, destination, x + y));
      && (second.Ok? <==> whole.Ok?)
      && (second.Ok? ==> second == whole)
  {
    hide CoinInv, CoinStep, MayMint, Minted;
    var first := CoinStep(c, OpMintTo(minter, destination, x)).value;
    KeepsCoinInv(c, OpMintTo(minter, destination, x));
    MintExact(c, minter, destination, x);
    MintExact(c, minter, destination, x + y);
    MintExact(first, minter, destination, y);
    MayMintAddsUp(c, first, minter, destination, x, y);
    var second := CoinStep(first, OpMintTo(minter, destination, y));
    var whole := CoinStep(c, OpMintTo(minter, destination, x + y));
    if second.Ok? {
      MintedAddsUp(c, first, second.value, whole.value, minter, destination, x, y);
    }
  }

  lemma MayMintAddsUp(c: Coin, first: Coin, minter: Key, destination: Key, x: u64, y: u64)
    requires MayMint(c, minter, destination, x) && Minted(c, first, minter, destination, x)
    requires y > 0 && x + y <= U64_MAX
    ensures MayMint(first, minter, destination, y) <==> MayMint(c, minter, destination, x + y)
  {}

  lemma MintedAddsUp(c: Coin, first: Coin, second: Coin, whole: Coin, minter: Key, destination: Key, x: u64, y: u64)
    requires x + y <= U64_MAX
    requires Minted(c, first, minter, destination, x) && Minted(first, second, minter, destination, y)
    requires Minted(c, whole, minter, destination, x + y)
    ensures second == whole
  {
    SameCredits(c.token, first.token, second.token, whole.token, destination, x, y);
    hide OnlyCredited;
    assert forall m :: m in c.roles ==> second.roles[m] == whole.roles[m];
    assert second.roles == whole.roles;
  }

  lemma SameCredits(t: Token.Token, first: Token.Token, second: Token.Token, whole: Token.Token, k: Key, x: int, y: int)
    requires OnlyCredited(t, first, k, x) && OnlyCredited(first, second, k, y) && OnlyCredited(t, whole, k, x + y)
    ensures second == whole
  {
    assert forall j :: j in t.balances ==> j in t.balances.Keys && j in first.balances;
    assert second.balances == whole.balances;
  }

  // ----- roles

  /** The admin opens a role where none is open, for a real key and a positive allowance;
      it starts with nothing minted. */
  lemma GrantExact(c: Coin, caller: Key, authority: Key, allowance: u64)
    ensures CoinStep(c, OpGrantMinter(caller, authority, allowance)).Ok? <==>
              caller == c.config.admin && authority !in c.roles && authority != DEFAULT_KEY && allowance > 0
    ensures CoinStep(c, OpGrantMinter(caller, authority, allowance)).Ok? ==>
              var c' := CoinStep(c, OpGrantMinter(caller, authority, allowance)).value;
              && c' == c.(roles := c'.roles) && c'.roles.Keys == c.roles.Keys + {authority}
              && c'.roles[authority].allowance == allowance && c'.roles[authority].minted == 0
              && (forall m :: m in c.roles ==> c'.roles[m] == c.roles[m])
  {}

  /** The admin closes an open role, and only that one. */
  lemma RevokeExact(c: Coin, caller: Key, authority: Key)
    ensures CoinStep(c, OpRevokeMinter(caller, authority)).Ok? <==>
              caller == c.config.admin && authority in c.roles
    ensures CoinStep(c, OpRevokeMinter(caller, authority)).Ok? ==>
              var c' := CoinStep(c, OpRevokeMinter(caller, authority)).value;
              && c' == c.(roles := c'.roles) && authority !in c'.roles
              && (forall m :: m in c.roles && m != authority ==> m in c'.roles && c'.roles[m] == c.roles[m])
              && c'.roles.Keys <= c.roles.Keys
  {}

  /** A revoked minter mints nothing, and granting the role again starts it from zero:
      the old role's use is not carried over. */
  lemma RevokedAndGrantedAgain(c: Coin, caller: Key, authority: Key, allowance: u64, destination: Key, amount: u64)
    requires CoinInv(c) && CoinStep(c, OpRevokeMinter(caller, authority)).Ok?
    requires authority != DEFAULT_KEY && allowance > 0
    ensures var gone := CoinStep(c, OpRevokeMinter(caller, authority)).value;
      && CoinStep(gone, OpMintTo(authority, destination, amount)).Err?
      && var again := CoinStep(gone, OpGrantMinter(caller, authority, allowance));
         again.Ok? && again.value == c.(roles := c.roles[authority := MinterRole(allowance, 0)])
  {
    var gone := CoinStep(c, OpRevokeMinter(caller, authority)).value;
    KeepsCoinInv(c, OpRevokeMinter(caller, authority));
    RevokeExact(c, caller, authority);
    MintExact(gone, authority, destination, amount);
    GrantExact(gone, caller, authority, allowance);
    hide CoinInv, CoinStep;
    var again := CoinStep(gone, OpGrantMinter(caller, authority, allowance)).value;
    assert again.roles == c.roles[authority := MinterRole(allowance, 0)];
  }

  // ----- policies and the pause

  /** Whatever the account's state was, a policy set by the compliance authority takes
      effect: the account is frozen exactly when the policy is `Blocked`, and no other
      account, balance or policy is touched. Any existing account will do. */
  lemma WalletPolicyExact(c: Coin, caller: Key, account: Key, status: PolicyStatus)
    ensures CoinStep(c, OpSetWalletPolicy(caller, account, status)).Ok? <==>
              caller == c.config.complianceAuthority && account in c.token.balances
    ensures CoinStep(c, OpSetWalletPolicy(caller, account, status)).Ok? ==>
              var c' := CoinStep(c, OpSetWalletPolicy(caller, account, status)).value;
              && (account in c'.token.frozen <==> status.Blocked?)
              && OnlyRefrozen(c.token, c'.token, account)
              && c'.policies == c.policies[account := status]
              && c'.config == c.config && c'.roles == c.roles
  {}

  /** Under a live coin, an account can pay out exactly when it is funded and was last
      allowed, not blocked: the policy decides. */
  lemma PolicyDecidesPayments(c: Coin, caller: Key, account: Key, status: PolicyStatus, to: Key, amount: u64)
    requires CoinInv(c) && CoinStep(c, OpSetWalletPolicy(caller, account, status)).Ok?
    ensures var c' := CoinStep(c, OpSetWalletPolicy(caller, account, status)).value;
      CoinStep(c', DirectTransfer(account, to, amount)).Ok? <==>
        && status.Allowed? && !c.token.paused && amount <= c.token.balances[account]
        && to in c.token.balances && (to == account || to !in c.token.frozen)
  {
    var c' := CoinStep(c, OpSetWalletPolicy(caller, account, status)).value;
    KeepsCoinInv(c, OpSetWalletPolicy(caller, account, status));
    WalletPolicyExact(c, caller, account, status);
    hide CoinStep;
    DirectTransferExact(c', account, to, amount);
  }

  /** The pause is set by the admin or the compliance authority when it is not what it is
      asked to be; the stored flag and the live one both become what was asked. */
  lemma PauseExact(c: Coin, caller: Key, pause: bool)
    requires CoinInv(c)
    ensures CoinStep(c, OpSetPause(caller, pause)).Ok? <==>
              (caller == c.config.admin || caller == c.config.complianceAuthority) && c.token.paused != pause
    ensures CoinStep(c, OpSetPause(caller, pause)).Ok? ==>
              var c' := CoinStep(c, OpSetPause(caller, pause)).value;
              && c'.token.paused == pause == c'.config.paused
              && c' == c.(token := c.token.(paused := c'.token.paused), config := c.config.(paused := c'.config.paused))
  {}

  /** A pause can be lifted, and lifting it leaves no trace of it. */
  lemma PauseIsUndone(c: Coin, caller: Key, other: Key)
    requires CoinInv(c) && CoinStep(c, OpSetPause(caller, true)).Ok?
    requires other == c.config.admin || other == c.config.complianceAuthority
    ensures var paused := CoinStep(c, OpSetPause(caller, true)).value;
      CoinStep(paused, OpSetPause(other, false)) == Ok(c)
  {
    var paused := CoinStep(c, OpSetPause(caller, true)).value;
    KeepsCoinInv(c, OpSetPause(caller, true));
    PauseExact(c, caller, true);
    PauseExact(paused, other, false);
  }

  // ----- configuration

  /** The admin's update succeeds exactly when it names something, each named value is
      admissible - a cap between the live supply and the protocol's, a real authority, a
      real and new admin - and it sets exactly the named fields. */
  lemma UpdateExact(c: Coin, caller: Key, cap: Option<u64>, compliance: Option<Key>, newAdmin: Option<Key>)
    ensures CoinStep(c, OpUpdateConfig(caller, cap, compliance, newAdmin)).Ok? <==>
              && caller == c.config.admin
              && (cap.Some? || compliance.Some? || newAdmin.Some?)
              && (cap.Some? ==> 0 < cap.value <= 1_000_000_000_000_000 && c.token.supply <= cap.value)
              && (compliance.Some? ==> compliance.value != DEFAULT_KEY)
              && (newAdmin.Some? ==> newAdmin.value != DEFAULT_KEY && newAdmin.value != c.config.admin)
    ensures CoinStep(c, OpUpdateConfig(caller, cap, compliance, newAdmin)).Ok? ==>
              var c' := CoinStep(c, OpUpdateConfig(caller, cap, compliance, newAdmin)).value;
              && c'.token == c.token && c'.roles == c.roles && c'.policies == c.policies
              && c'.config.admin == c.config.admin && c'.config.paused == c.config.paused
              && c'.config.totalMinted == c.config.totalMinted && c'.config.totalBurned == c.config.totalBurned
              && Some(c'.config.supplyCap) == (if cap.Some? then cap else Some(c.config.supplyCap))
              && Some(c'.config.complianceAuthority)
                   == (if compliance.Some? then compliance else Some(c.config.complianceAuthority))
              && c'.config.pendingAdmin == (if newAdmin.Some? then newAdmin else c.config.pendingAdmin)
  {}

  /** The nominated key, and no other, becomes the admin, and the nomination is used up. */
  lemma AcceptExact(c: Coin, caller: Key)
    ensures CoinStep(c, OpAcceptAdmin(caller)).Ok? <==> c.config.pendingAdmin == Some(caller)
    ensures CoinStep(c, OpAcceptAdmin(caller)).Ok? ==>
              var c' := CoinStep(c, OpAcceptAdmin(caller)).value;
              && c'.config.admin == caller && c'.config.pendingAdmin == None
              && c' == c.(config := c.config.(admin := c'.config.admin, pendingAdmin := c'.config.pendingAdmin))
  {}

  /** A rotation goes through: whoever the admin nominates becomes the admin by signing,
      and the old admin can configure nothing from then on. */
  lemma RotationCompletes(c: Coin, key: Key, cap: Option<u64>)
    requires key != DEFAULT_KEY && key != c.config.admin
    ensures var nominated := CoinStep(c, OpUpdateConfig(c.config.admin, None, None, Some(key)));
      && nominated.Ok?
      && var accepted := CoinStep(nominated.value, OpAcceptAdmin(key));
         && accepted == Ok(c.(config := c.config.(admin := key, pendingAdmin := None)))
         && CoinStep(accepted.value, OpUpdateConfig(c.config.admin, cap, None, None)).Err?
  {
    UpdateExact(c, c.config.admin, None, None, Some(key));
    var nominated := CoinStep(c, OpUpdateConfig(c.config.admin, None, None, Some(key))).value;
    AcceptExact(nominated, key);
    UpdateExact(CoinStep(nominated, OpAcceptAdmin(key)).value, c.config.admin, cap, None, None);
  }

  // ----- what owners do without the program

  /** An owner's transfer succeeds exactly between thawed accounts of a live coin, out of
      funds held, and moves the amount from the one to the other. */
  lemma DirectTransferExact(c: Coin, from: Key, to: Key, amount: u64)
    requires CoinInv(c)
    ensures CoinStep(c, DirectTransfer(from, to, amount)).Ok? <==>
              && from in c.token.balances && from !in c.token.frozen && to in c.token.balances && to !in c.token.frozen
              && !c.token.paused && amount <= c.token.balances[from]
    ensures CoinStep(c, DirectTransfer(from, to, amount)).Ok? ==>
              var c' := CoinStep(c, DirectTransfer(from, to, amount)).value;
              && c' == c.(token := c.token.(balances := c'.token.balances))
              && c'.token.balances.Keys == c.token.balances.Keys
              && (forall k :: k in c.token.balances ==>
                    c'.token.balances[k] == c.token.balances[k] + (if k == to then amount else 0)
                                            - (if k == from then amount else 0))
  {
    hide SumOver;
    if Token.CanMove(c.token, from) && Token.CanMove(c.token, to) {
      Token.FundedTransferSucceeds(c.token, from, to, amount);
    }
  }

  /** An owner's burn outside the program: as `BurnExact`, but no counter sees it. */
  lemma DirectBurnExact(c: Coin, from: Key, amount: u64)
    requires CoinInv(c)
    ensures CoinStep(c, DirectBurn(from, amount)).Ok? <==>
              && from in c.token.balances && from !in c.token.frozen
              && !c.token.paused && amount <= c.token.balances[from]
    ensures CoinStep(c, DirectBurn(from, amount)).Ok? ==>
              var c' := CoinStep(c, DirectBurn(from, amount)).value;
              OnlyCredited(c.token, c'.token, from, 0 - amount) && c' == c.(token := c'.token)
  {
    hide SumOver;
    if Token.CanMove(c.token, from) {
      Token.FundedBurnSucceeds(c.token, from, amount);
    }
  }

  /** A new account is empty and frozen; only an empty account closes, and leaves nothing. */
  lemma AccountsExact(c: Coin, k: Key)
    ensures CoinStep(c, OpenAccount(k)).Ok? <==> k !in c.token.balances
    ensures CoinStep(c, OpenAccount(k)).Ok? ==>
              var t' := CoinStep(c, OpenAccount(k)).value.token;
              && CoinStep(c, OpenAccount(k)).value == c.(token := t')
              && OnlyRefrozen(c.token.(balances := t'.balances), t', k)
              && t'.balances == c.token.balances[k := 0] && k in t'.frozen
    ensures CoinStep(c, CloseAccount(k)).Ok? <==> k in c.token.balances && c.token.balances[k] == 0
    ensures CoinStep(c, CloseAccount(k)).Ok? ==>
              var t' := CoinStep(c, CloseAccount(k)).value.token;
              && CoinStep(c, CloseAccount(k)).value == c.(token := t')
              && OnlyRefrozen(c.token.(balances := t'.balances), t', k)
              && t'.balances == c.token.balances - {k} && k !in t'.frozen
  {}
}
