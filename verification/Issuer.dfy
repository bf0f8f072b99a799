/** The stablecoin program as it runs: account fields updated in place, every check the
    handlers make (the ones that cannot fail included), and the runtime's rollback of a
    failed instruction. Each method is proved against the function of its name. */
module Issuer {
  import opened Results
  import opened Numeric
  import opened Balances
  import opened Issuance
  import opened CoinEffects
  import Token

  /** What a handler did to the coin. From any state whatever it succeeds exactly when
      `spec` does and the program's redundant checks, `checks`, pass; the result is then the
      one `spec` gives. From a state that satisfies the invariant the redundant checks pass,
      and a failure is the one `spec` reports. */
  ghost predicate Handles(before: Coin, r: Result<(), StablecoinError>, after: Coin, spec: CoinResult, checks: bool) {
    && (r.Ok? <==> spec.Ok? && checks)
    && (r.Ok? ==> spec == Ok(after))
    && (CoinInv(before) ==> checks && (r.Err? ==> spec == Err(r.error)))
  }

  /** Tracked outstanding supply is an upper bound on the live supply. */
  ghost predicate Tracked(c: Coin) {
    c.config.totalMinted - c.config.totalBurned >= c.token.supply
  }

  /** The checks that only a corrupted state could fail, per operation. */
  ghost predicate Checks(c: Coin, op: CoinOp) {
    match op
    case OpMintTo(_, _, _) => Tracked(c)
    case OpBurn(_, _) => Tracked(c)
    case OpSetPause(_, _) => c.config.paused == c.token.paused
    case OpUpdateConfig(_, cap, _, _) => cap.Some? ==> Tracked(c)
    case _ => true
  }

  class Issuer {
    const ledger: Token.Ledger
    var admin: Key
    var pendingAdmin: Option<Key>
    var complianceAuthority: Key
    var supplyCap: u64
    var totalMinted: u128
    var totalBurned: u128
    var paused: bool
    var roles: map<Key, MinterRole>
    var policies: map<Key, PolicyStatus>

    constructor (c: Coin)
      ensures Value() == c && fresh(ledger)
    {
      ledger := new Token.Ledger(c.token);
      admin, pendingAdmin := c.config.admin, c.config.pendingAdmin;
      complianceAuthority, supplyCap := c.config.complianceAuthority, c.config.supplyCap;
      totalMinted, totalBurned, paused := c.config.totalMinted, c.config.totalBurned, c.config.paused;
      roles, policies := c.roles, c.policies;
    }

    function Config(): MintConfig
      reads this
    {
      MintConfig(admin, pendingAdmin, complianceAuthority, supplyCap, totalMinted, totalBurned, paused)
    }

    function Value(): Coin
      reads this, ledger
    {
      Coin(ledger.Value(), Config(), roles, policies)
    }

    /** The runtime's rollback of a failed instruction. */
    method Restore(c: Coin)
      modifies this, ledger
      ensures Value() == c
    {
      ledger.Restore(c.token);
      admin, pendingAdmin := c.config.admin, c.config.pendingAdmin;
      complianceAuthority, supplyCap := c.config.complianceAuthority, c.config.supplyCap;
      totalMinted, totalBurned, paused := c.config.totalMinted, c.config.totalBurned, c.config.paused;
      roles, policies := c.roles, c.policies;
    }

    /** Tracked outstanding supply is an upper bound on the live supply. */
    predicate SupplyTracked(supply: u64)
      reads this
    {
      totalBurned <= totalMinted && totalMinted - totalBurned >= supply
    }

    method MintTo(minter: Key, destination: Key, amount: u64) returns (r: Result<(), StablecoinError>)
      modifies this, ledger
      ensures Handles(old(Value()), r, Value(), Issuance.MintTo(old(Value()), minter, destination, amount),
                      Checks(old(Value()), OpMintTo(minter, destination, amount)))
      ensures CoinInv(old(Value())) ==>
                (r.Ok? <==>
                  && minter in old(roles) && amount > 0 && !old(ledger.paused)
                  && destination in old(ledger.balances) && destination !in old(ledger.frozen)
                  && IsAllowed(old(Value()), destination)
                  && old(roles)[minter].minted + amount <= old(roles)[minter].allowance
                  && old(ledger.supply) + amount <= old(supplyCap)
                  && old(totalMinted) + amount <= U128_MAX)
      ensures r.Ok? ==>
                && minter in old(roles) && destination in old(ledger.balances)
                && roles == old(roles)[minter := MinterRole(old(roles)[minter].allowance,
                                                            old(roles)[minter].minted + amount)]
                && totalMinted == old(totalMinted) + amount && ledger.supply == old(ledger.supply) + amount
                && Get(ledger.balances, destination) == old(ledger.balances)[destination] + amount
    {
      if CoinInv(Value()) {
        MintExact(Value(), minter, destination, amount);
      }
      if minter !in roles || destination !in ledger.balances || destination !in policies {
        return Err(AccountConstraint);
      }
      if amount == 0 {
        return Err(ZeroAmount);
      }
      if paused {
        return Err(ProtocolPaused);
      }
      if policies[destination] != Allowed {
        return Err(WalletNotAllowed);
      }
      var supply := ledger.supply;
      if !SupplyTracked(supply) {
        return Err(CounterInvariantViolation);
      }
      var minted := CheckedAdd64(roles[minter].minted, amount);
      if minted.None? {
        return Err(MathOverflow);
      }
      if minted.value > roles[minter].allowance {
        return Err(AllowanceExceeded);
      }
      var newSupply := CheckedAdd64(supply, amount);
      if newSupply.None? {
        return Err(MathOverflow);
      }
      if newSupply.value > supplyCap {
        return Err(SupplyCapExceeded);
      }
      var newTotal := CheckedAdd(totalMinted, amount);
      if newTotal.None? {
        return Err(MathOverflow);
      }

      var ok := ledger.MintToChecked(destination, amount);
      if !ok {
        return Err(TokenRejected);
      }
      if ledger.supply != newSupply.value {
        return Err(CounterInvariantViolation);
      }

      roles := roles[minter := roles[minter].(minted := minted.value)];
      totalMinted := newTotal.value;
      if !SupplyTracked(newSupply.value) {
        return Err(CounterInvariantViolation);
      }
      return Ok(());
    }

    method Burn(source: Key, amount: u64) returns (r: Result<(), StablecoinError>)
      modifies this, ledger
      ensures Handles(old(Value()), r, Value(), Issuance.Burn(old(Value()), source, amount),
                      Checks(old(Value()), OpBurn(source, amount)))
      ensures CoinInv(old(Value())) ==>
                (r.Ok? <==>
                  && amount > 0 && !old(ledger.paused) && source !in old(ledger.frozen)
                  && source in old(ledger.balances) && amount <= old(ledger.balances)[source])
      ensures r.Ok? ==>
                && source in old(ledger.balances)
                && totalBurned == old(totalBurned) + amount && ledger.supply == old(ledger.supply) - amount
                && Get(ledger.balances, source) == old(ledger.balances)[source] - amount
    {
      if CoinInv(Value()) {
        BurnExact(Value(), source, amount);
      }
      if source !in ledger.balances {
        return Err(AccountConstraint);
      }
      if amount == 0 {
        return Err(ZeroAmount);
      }
      if paused {
        return Err(ProtocolPaused);
      }
      var supply := ledger.supply;
      if !SupplyTracked(supply) {
        return Err(CounterInvariantViolation);
      }
      var newTotal := CheckedAdd(totalBurned, amount);
      if newTotal.None? {
        return Err(MathOverflow);
      }

      var ok := ledger.BurnChecked(source, amount);
      if !ok {
        return Err(TokenRejected);
      }
      var newSupply := CheckedSub64(supply, amount);
      if newSupply.None? {
        return Err(MathOverflow);
      }
      if ledger.supply != newSupply.value {
        return Err(CounterInvariantViolation);
      }

      totalBurned := newTotal.value;
      if !SupplyTracked(newSupply.value) {
        return Err(CounterInvariantViolation);
      }
      return Ok(());
    }

    method GrantMinter(caller: Key, authority: Key, allowance: u64) returns (r: Result<(), StablecoinError>)
      modifies this
      ensures Handles(old(Value()), r, Value(), Issuance.GrantMinter(old(Value()), caller, authority, allowance),
                      Checks(old(Value()), OpGrantMinter(caller, authority, allowance)))
      ensures r.Ok? <==> caller == old(admin) && authority !in old(roles) && authority != DEFAULT_KEY && allowance > 0
      ensures r.Ok? ==> roles == old(roles)[authority := MinterRole(allowance, 0)]
    {
      if caller != admin {
        return Err(Unauthorized);
      }
      if authority in roles {
        return Err(AccountConstraint);
      }
      if allowance == 0 {
        return Err(ZeroAllowance);
      }
      if authority == DEFAULT_KEY {
        return Err(InvalidAuthority);
      }
      roles := roles[authority := MinterRole(allowance, 0)];
      return Ok(());
    }

    method RevokeMinter(caller: Key, authority: Key) returns (r: Result<(), StablecoinError>)
      modifies this
      ensures Handles(old(Value()), r, Value(), Issuance.RevokeMinter(old(Value()), caller, authority),
                      Checks(old(Value()), OpRevokeMinter(caller, authority)))
      ensures r.Ok? <==> caller == old(admin) && authority in old(roles)
      ensures r.Ok? ==> authority !in roles && roles[authority := old(roles)[authority]] == old(roles)
    {
      if caller != admin {
        return Err(Unauthorized);
      }
      if authority !in roles {
        return Err(AccountConstraint);
      }
      roles := roles - {authority};
      return Ok(());
    }

    predicate IsFrozen(account: Key)
      reads ledger
    {
      account in ledger.frozen
    }

    method SetWalletPolicy(caller: Key, account: Key, status: PolicyStatus) returns (r: Result<(), StablecoinError>)
      modifies this, ledger
      ensures Handles(old(Value()), r, Value(), Issuance.SetWalletPolicy(old(Value()), caller, account, status),
                      Checks(old(Value()), OpSetWalletPolicy(caller, account, status)))
      ensures r.Ok? <==> caller == old(complianceAuthority) && account in old(ledger.balances)
      ensures r.Ok? ==>
                && (account in ledger.frozen <==> status.Blocked?)
                && ledger.frozen - {account} == old(ledger.frozen) - {account}
                && policies == old(policies)[account := status]
                && ledger.balances == old(ledger.balances)
    {
      if caller != complianceAuthority {
        return Err(Unauthorized);
      }
      if account !in ledger.balances {
        return Err(AccountConstraint);
      }
      if status.Blocked? != IsFrozen(account) {
        var ok;
        if status.Blocked? {
          ok := ledger.FreezeAccount(account);
        } else {
          ok := ledger.ThawAccount(account);
        }
        if !ok {
          return Err(TokenRejected);
        }
      }
      if IsFrozen(account) != status.Blocked? {
        return Err(PolicyStateMismatch);
      }
      policies := policies[account := status];
      // freezing a frozen account or thawing a thawed one is skipped, and changes no set
      assert ledger.frozen
          == if status.Blocked? then old(ledger.frozen) + {account} else old(ledger.frozen) - {account};
      return Ok(());
    }

    method SetPause(caller: Key, pause: bool) returns (r: Result<(), StablecoinError>)
      modifies this, ledger
      ensures Handles(old(Value()), r, Value(), Issuance.SetPause(old(Value()), caller, pause),
                      Checks(old(Value()), OpSetPause(caller, pause)))
      ensures r.Ok? ==> ledger.paused == pause == paused
      ensures CoinInv(old(Value())) ==>
                (r.Ok? <==> (caller == old(admin) || caller == old(complianceAuthority)) && old(ledger.paused) != pause)
    {
      if caller != admin && caller != complianceAuthority {
        return Err(Unauthorized);
      }
      var live := ledger.paused;
      if live != paused {
        return Err(PauseStateDrift);
      }
      if live == pause {
        return Err(PauseStateUnchanged);
      }
      ledger.SetPaused(pause);
      if ledger.paused != pause {
        return Err(PauseStateDrift);
      }
      paused := pause;
      return Ok(());
    }

    method UpdateConfig(caller: Key, cap: Option<u64>, compliance: Option<Key>, newAdmin: Option<Key>)
        returns (r: Result<(), StablecoinError>)
      modifies this, ledger
      ensures Handles(old(Value()), r, Value(), Issuance.UpdateConfig(old(Value()), caller, cap, compliance, newAdmin),
                      Checks(old(Value()), OpUpdateConfig(caller, cap, compliance, newAdmin)))
      ensures r.Ok? ==>
                && (cap.Some? ==> supplyCap == cap.value && old(ledger.supply) <= supplyCap)
                && (compliance.Some? ==> complianceAuthority == compliance.value)
                && (newAdmin.Some? ==> pendingAdmin == newAdmin)
    {
      if caller != admin {
        return Err(Unauthorized);
      }
      if cap.None? && compliance.None? && newAdmin.None? {
        return Err(NoConfigChange);
      }
      if cap.Some? {
        if cap.value == 0 {
          return Err(ZeroSupplyCap);
        }
        if cap.value > MAX_SUPPLY_CAP {
          return Err(SupplyCapTooLarge);
        }
        if !SupplyTracked(ledger.supply) {
          return Err(CounterInvariantViolation);
        }
        if cap.value < ledger.supply {
          return Err(SupplyCapBelowSupply);
        }
        supplyCap := cap.value;
      }
      if compliance.Some? {
        if compliance.value == DEFAULT_KEY {
          return Err(InvalidAuthority);
        }
        complianceAuthority := compliance.value;
      }
      if newAdmin.Some? {
        if newAdmin.value == DEFAULT_KEY || newAdmin.value == admin {
          return Err(InvalidPendingAdmin);
        }
        pendingAdmin := newAdmin;
      }
      return Ok(());
    }

    method AcceptAdmin(caller: Key) returns (r: Result<(), StablecoinError>)
      modifies this
      ensures Handles(old(Value()), r, Value(), Issuance.AcceptAdmin(old(Value()), caller),
                      Checks(old(Value()), OpAcceptAdmin(caller)))
      ensures r.Ok? <==> old(pendingAdmin) == Some(caller)
      ensures r.Ok? ==> admin == caller && pendingAdmin == None
    {
      if pendingAdmin != Some(caller) {
        return Err(NoPendingAdmin);
      }
      admin := caller;
      pendingAdmin := None;
      return Ok(());
    }

    /** One transaction as the runtime executes it: a failed instruction leaves no trace. */
    method Execute(op: CoinOp) returns (r: Result<(), StablecoinError>)
      modifies this, ledger
      ensures Handles(old(Value()), r, Value(), Issuance.CoinStep(old(Value()), op),
                      Checks(old(Value()), op))
      ensures r.Err? ==> Value() == old(Value())
    {
      var before := Value();
      match op {
        case OpMintTo(minter, destination, amount) => r := MintTo(minter, destination, amount);
        case OpBurn(source, amount) => r := Burn(source, amount);
        case OpGrantMinter(caller, authority, allowance) => r := GrantMinter(caller, authority, allowance);
        case OpRevokeMinter(caller, authority) => r := RevokeMinter(caller, authority);
        case OpSetWalletPolicy(caller, account, status) => r := SetWalletPolicy(caller, account, status);
        case OpSetPause(caller, pause) => r := SetPause(caller, pause);
        case OpUpdateConfig(caller, cap, compliance, newAdmin) => r := UpdateConfig(caller, cap, compliance, newAdmin);
        case OpAcceptAdmin(caller) => r := AcceptAdmin(caller);
        case DirectTransfer(from, to, amount) =>
          var ok := ledger.TransferChecked(from, to, amount);
          r := if ok then Ok(()) else Err(TokenRejected);
        case DirectBurn(from, amount) =>
          var ok := ledger.BurnChecked(from, amount);
          r := if ok then Ok(()) else Err(TokenRejected);
        case OpenAccount(account) =>
          var ok := ledger.Open(account, true);
          r := if ok then Ok(()) else Err(TokenRejected);
        case CloseAccount(account) =>
          var ok := ledger.Close(account);
          r := if ok then Ok(()) else Err(TokenRejected);
      }
      if r.Err? {
        Restore(before);
      }
    }
  }
}
