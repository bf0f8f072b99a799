/** One stablecoin: its live token, the program's configuration, minter roles and wallet
    policies, and every instruction as a function on that state. The functions carry only
    the checks that can fail; `Issuer` carries the program's redundant ones as well. */
module Issuance {
  import opened Results
  import opened Numeric
  import opened Balances
  import Token

  datatype PolicyStatus = Allowed | Blocked

  datatype MintConfig = MintConfig(
    admin: Key, pendingAdmin: Option<Key>, complianceAuthority: Key,
    supplyCap: u64, totalMinted: u128, totalBurned: u128, paused: bool)

  datatype MinterRole = MinterRole(allowance: u64, minted: u64)

  datatype Coin = Coin(
    token: Token.Token, config: MintConfig,
    roles: map<Key, MinterRole>, policies: map<Key, PolicyStatus>)

  datatype StablecoinError =
    | AccountConstraint
    | TokenRejected
    | ZeroSupplyCap
    | SupplyCapTooLarge
    | MathOverflow
    | Unauthorized
    | ZeroAmount
    | InvalidAuthority
    | ZeroAllowance
    | AllowanceExceeded
    | SupplyCapExceeded
    | WalletNotAllowed
    | ProtocolPaused
    | CounterInvariantViolation
    | PolicyStateMismatch
    | PauseStateDrift
    | PauseStateUnchanged
    | SupplyCapBelowSupply
    | NoConfigChange
    | InvalidPendingAdmin
    | NoPendingAdmin

  type CoinResult = Result<Coin, StablecoinError>

  predicate IsAllowed(c: Coin, k: Key) {
    k in c.policies && c.policies[k].Allowed?
  }

  // ----- the instructions

  function MintTo(c: Coin, minter: Key, destination: Key, amount: u64): CoinResult {
    if minter !in c.roles || destination !in c.token.balances || destination !in c.policies then Err(AccountConstraint)
    else if amount == 0 then Err(ZeroAmount)
    else if c.config.paused then Err(ProtocolPaused)
    else if c.policies[destination].Blocked? then Err(WalletNotAllowed)
    else
      var role := c.roles[minter];
      if role.minted + amount > U64_MAX then Err(MathOverflow)
      else if role.minted + amount > role.allowance then Err(AllowanceExceeded)
      else if c.token.supply + amount > U64_MAX then Err(MathOverflow)
      else if c.token.supply + amount > c.config.supplyCap then Err(SupplyCapExceeded)
      else if c.config.totalMinted + amount > U128_MAX then Err(MathOverflow)
      else
        var token :- Token.Mint(c.token, destination, amount).OkOr(TokenRejected);
        Ok(c.(token := token,
              config := c.config.(totalMinted := c.config.totalMinted + amount),
              roles := c.roles[minter := role.(minted := role.minted + amount)]))
  }

  function Burn(c: Coin, source: Key, amount: u64): CoinResult {
    if source !in c.token.balances then Err(AccountConstraint)
    else if amount == 0 then Err(ZeroAmount)
    else if c.config.paused then Err(ProtocolPaused)
    else if c.config.totalBurned + amount > U128_MAX then Err(MathOverflow)
    else
      var token :- Token.Burn(c.token, source, amount).OkOr(TokenRejected);
      Ok(c.(token := token, config := c.config.(totalBurned := c.config.totalBurned + amount)))
  }

  function GrantMinter(c: Coin, caller: Key, authority: Key, allowance: u64): CoinResult {
    if caller != c.config.admin then Err(Unauthorized)
    else if authority in c.roles then Err(AccountConstraint)
    else if allowance == 0 then Err(ZeroAllowance)
    else if authority == DEFAULT_KEY then Err(InvalidAuthority)
    else Ok(c.(roles := c.roles[authority := MinterRole(allowance, 0)]))
  }

  function RevokeMinter(c: Coin, caller: Key, authority: Key): CoinResult {
    if caller != c.config.admin then Err(Unauthorized)
    else if authority !in c.roles then Err(AccountConstraint)
    else Ok(c.(roles := c.roles - {authority}))
  }

  /** The account ends up frozen exactly when the new status is `Blocked`. */
  function SetWalletPolicy(c: Coin, caller: Key, account: Key, status: PolicyStatus): CoinResult {
    if caller != c.config.complianceAuthority then Err(Unauthorized)
    else if account !in c.token.balances then Err(AccountConstraint)
    else
      var frozen := if status.Blocked? then c.token.frozen + {account} else c.token.frozen - {account};
      Ok(c.(token := c.token.(frozen := frozen), policies := c.policies[account := status]))
  }

  /** The stored flag and the live one are set together. */
  function SetPause(c: Coin, caller: Key, paused: bool): CoinResult {
    if caller != c.config.admin && caller != c.config.complianceAuthority then Err(Unauthorized)
    else if c.config.paused == paused then Err(PauseStateUnchanged)
    else Ok(c.(token := c.token.(paused := paused), config := c.config.(paused := paused)))
  }

  function UpdateConfig(c: Coin, caller: Key, supplyCap: Option<u64>, compliance: Option<Key>,
                        pendingAdmin: Option<Key>): CoinResult {
    if caller != c.config.admin then Err(Unauthorized)
    else if supplyCap.None? && compliance.None? && pendingAdmin.None? then Err(NoConfigChange)
    else if supplyCap.Some? && supplyCap.value == 0 then Err(ZeroSupplyCap)
    else if supplyCap.Some? && supplyCap.value > MAX_SUPPLY_CAP then Err(SupplyCapTooLarge)
    else if supplyCap.Some? && supplyCap.value < c.token.supply then Err(SupplyCapBelowSupply)
    else if compliance == Some(DEFAULT_KEY) then Err(InvalidAuthority)
    else if pendingAdmin == Some(DEFAULT_KEY) || pendingAdmin == Some(c.config.admin) then Err(InvalidPendingAdmin)
    else
      Ok(c.(config := c.config.(
              supplyCap := if supplyCap.Some? then supplyCap.value else c.config.supplyCap,
              complianceAuthority := if compliance.Some? then compliance.value else c.config.complianceAuthority,
              pendingAdmin := if pendingAdmin.Some? then pendingAdmin else c.config.pendingAdmin)))
  }

  function AcceptAdmin(c: Coin, caller: Key): CoinResult {
    if c.config.pendingAdmin != Some(caller) then Err(NoPendingAdmin)
    else Ok(c.(config := c.config.(admin := caller, pendingAdmin := None)))
  }

  // ----- what owners do to their accounts without the program

  function WithToken(c: Coin, token: Option<Token.Token>): CoinResult {
    match token
    case Some(t) => Ok(c.(token := t))
    case None => Err(TokenRejected)
  }

  /** Everything that can happen to a stablecoin. The first four are token-program
      operations that bypass the stablecoin program; new accounts start frozen. */
  datatype CoinOp =
    | OpenAccount(account: Key)
    | CloseAccount(account: Key)
    | DirectTransfer(from: Key, to: Key, amount: u64)
    | DirectBurn(from: Key, amount: u64)
    | OpMintTo(minter: Key, destination: Key, amount: u64)
    | OpBurn(source: Key, amount: u64)
    | OpGrantMinter(caller: Key, authority: Key, allowance: u64)
    | OpRevokeMinter(caller: Key, authority: Key)
    | OpSetWalletPolicy(caller: Key, account: Key, status: PolicyStatus)
    | OpSetPause(caller: Key, paused: bool)
    | OpUpdateConfig(caller: Key, supplyCap: Option<u64>, compliance: Option<Key>, newAdmin: Option<Key>)
    | OpAcceptAdmin(caller: Key)

  function CoinStep(c: Coin, op: CoinOp): CoinResult {
    match op
    case OpenAccount(k) => WithToken(c, Token.OpenAccount(c.token, k, true))
    case CloseAccount(k) => WithToken(c, Token.CloseAccount(c.token, k))
    case DirectTransfer(from, to, amount) => WithToken(c, Token.Transfer(c.token, from, to, amount))
    case DirectBurn(from, amount) => WithToken(c, Token.Burn(c.token, from, amount))
    case OpMintTo(minter, destination, amount) => MintTo(c, minter, destination, amount)
    case OpBurn(source, amount) => Burn(c, source, amount)
    case OpGrantMinter(caller, authority, allowance) => GrantMinter(c, caller, authority, allowance)
    case OpRevokeMinter(caller, authority) => RevokeMinter(c, caller, authority)
    case OpSetWalletPolicy(caller, account, status) => SetWalletPolicy(c, caller, account, status)
    case OpSetPause(caller, paused) => SetPause(c, caller, paused)
    case OpUpdateConfig(caller, supplyCap, compliance, newAdmin) =>
      UpdateConfig(c, caller, supplyCap, compliance, newAdmin)
    case OpAcceptAdmin(caller) => AcceptAdmin(c, caller)
  }

  // ----- what every step keeps

  /** Live supply within the cap, and within what the counters say is outstanding. */
  ghost predicate SupplyInv(c: Coin) {
    && c.token.supply <= c.config.supplyCap <= MAX_SUPPLY_CAP
    && c.config.totalBurned + c.token.supply <= c.config.totalMinted
  }

  /** The stored flags agree with the live token: the pause exactly, and no account is
      thawed without an `Allowed` policy. */
  ghost predicate MirrorInv(c: Coin) {
    && c.config.paused == c.token.paused
    && (forall k :: k in c.token.balances && k !in c.token.frozen ==> IsAllowed(c, k))
  }

  ghost predicate AllowanceInv(c: Coin) {
    forall m :: m in c.roles ==> c.roles[m].minted <= c.roles[m].allowance
  }

  ghost predicate CoinInv(c: Coin) {
    Token.TokenInv(c.token) && SupplyInv(c) && MirrorInv(c) && AllowanceInv(c)
  }

  /** A stablecoin as `initialize_stablecoin` leaves it; accounts that exist so far are
      empty and frozen. */
  ghost predicate Fresh(c: Coin) {
    && c.token.supply == 0 && !c.token.paused
    && (forall k :: k in c.token.balances ==> c.token.balances[k] == 0)
    && c.token.frozen == c.token.balances.Keys
    && 0 < c.config.supplyCap <= MAX_SUPPLY_CAP
    && c.config.totalMinted == 0 && c.config.totalBurned == 0 && !c.config.paused
    && c.roles == map[] && c.policies == map[]
  }

  lemma FreshHasInv(c: Coin)
    requires Fresh(c)
    ensures CoinInv(c)
  {
    SumAgrees(c.token.balances, map[], c.token.balances.Keys);
    SumOfNothing(c.token.balances.Keys);
  }

  lemma {:induction false} SumOfNothing(s: set<Key>)
    ensures SumOver(map[], s) == 0
    decreases s
  {
    if s != {} {
      var k :| k in s;
      SumSplit(map[], s, k);
      SumOfNothing(s - {k});
    }
  }

  /** How much an operation adds to the balances of the accounts in `s`. */
  function Delta(op: CoinOp, s: set<Key>): int {
    match op
    case DirectTransfer(from, to, amount) => (if to in s then amount else 0) - (if from in s then amount else 0)
    case DirectBurn(from, amount) => if from in s then 0 - amount else 0
    case OpMintTo(_, destination, amount) => if destination in s then amount else 0
    case OpBurn(source, amount) => if source in s then 0 - amount else 0
    case _ => 0
  }

  lemma MintToEffect(c: Coin, minter: Key, destination: Key, amount: u64)
    requires CoinInv(c) && MintTo(c, minter, destination, amount).Ok?
    ensures var c' := MintTo(c, minter, destination, amount).value;
      && CoinInv(c') && c'.token.balances.Keys == c.token.balances.Keys
      && (forall s :: SumOver(c'.token.balances, s)
            == SumOver(c.token.balances, s) + (if destination in s then amount else 0))
  {
    Token.MintEffect(c.token, destination, amount);
  }

  lemma BurnEffect(c: Coin, source: Key, amount: u64)
    requires CoinInv(c) && Burn(c, source, amount).Ok?
    ensures var c' := Burn(c, source, amount).value;
      && CoinInv(c') && c'.token.balances.Keys == c.token.balances.Keys
      && (forall s :: SumOver(c'.token.balances, s)
            == SumOver(c.token.balances, s) - (if source in s then amount else 0))
  {
    Token.BurnEffect(c.token, source, amount);
  }

  /** The instructions that move no balance. */
  lemma AdminEffect(c: Coin, op: CoinOp)
    requires CoinInv(c) && CoinStep(c, op).Ok?
    requires || op.OpGrantMinter? || op.OpRevokeMinter? || op.OpSetWalletPolicy?
             || op.OpSetPause? || op.OpUpdateConfig? || op.OpAcceptAdmin?
    ensures CoinInv(CoinStep(c, op).value)
    ensures CoinStep(c, op).value.token.balances == c.token.balances
    ensures CoinStep(c, op).value.token.supply == c.token.supply
  {}

  /** What owners do directly changes the token alone, mints nothing and thaws nothing. */
  lemma DirectEffect(c: Coin, op: CoinOp)
    requires CoinInv(c) && CoinStep(c, op).Ok?
    requires op.OpenAccount? || op.CloseAccount? || op.DirectTransfer? || op.DirectBurn?
    ensures var c' := CoinStep(c, op).value;
      && c' == c.(token := c'.token) && Token.TokenInv(c'.token)
      && c'.token.supply <= c.token.supply && c'.token.paused == c.token.paused
      && (forall k :: k in c'.token.balances && k !in c'.token.frozen ==> k in c.token.balances && k !in c.token.frozen)
      && (forall s :: SumOver(c'.token.balances, s) == SumOver(c.token.balances, s) + Delta(op, s))
      && (forall k :: k in c.token.balances && op != CloseAccount(k) ==> k in c'.token.balances)
  {
    hide SupplyInv, MirrorInv, AllowanceInv;
    match op
    case OpenAccount(k) => Token.OpenKeepsInv(c.token, k, true);
    case CloseAccount(k) => Token.CloseKeepsInv(c.token, k);
    case DirectTransfer(from, to, amount) => Token.TransferEffect(c.token, from, to, amount);
    case DirectBurn(from, amount) => Token.BurnEffect(c.token, from, amount);
  }

  /** Every step keeps the invariant and moves balances by exactly its `Delta`; the only
      account that can disappear is the one closed. */
  lemma CoinOpEffect(c: Coin, op: CoinOp)
    requires CoinInv(c) && CoinStep(c, op).Ok?
    ensures var c' := CoinStep(c, op).value;
      && CoinInv(c')
      && (forall s :: SumOver(c'.token.balances, s) == SumOver(c.token.balances, s) + Delta(op, s))
      && (forall k :: k in c.token.balances && op != CloseAccount(k) ==> k in c'.token.balances)
  {
    match op
    case OpMintTo(minter, destination, amount) =>
      hide CoinInv, MintTo;
      MintToEffect(c, minter, destination, amount);
    case OpBurn(source, amount) =>
      hide CoinInv, Burn;
      BurnEffect(c, source, amount);
    case OpenAccount(_) => hide CoinStep; DirectEffect(c, op);
    case CloseAccount(_) => hide CoinStep; DirectEffect(c, op);
    case DirectTransfer(_, _, _) => hide CoinStep; DirectEffect(c, op);
    case DirectBurn(_, _) => hide CoinStep; DirectEffect(c, op);
    case _ =>
      hide CoinInv, CoinStep;
      AdminEffect(c, op);
  }

  lemma SumOfOne(m: Amounts, k: Key)
    ensures SumOver(m, {k}) == Get(m, k)
  {
    SumSplit(m, {k}, k);
  }
}
