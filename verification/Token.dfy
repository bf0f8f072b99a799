/** A small trusted model of one Token-2022 mint and its accounts: the operations the
    two programs call, as functions on values, and a mutable ledger proved against them. */
module Token {
  import opened Results
  import opened Numeric
  import opened Balances

  datatype Token = Token(balances: Amounts, supply: u64, frozen: set<Key>, paused: bool)

  /** Frozen and paused tokens do not move. */
  predicate CanMove(t: Token, k: Key) {
    k in t.balances && k !in t.frozen && !t.paused
  }

  function OpenAccount(t: Token, k: Key, frozen: bool): Option<Token> {
    if k in t.balances then None
    else Some(t.(balances := t.balances[k := 0], frozen := if frozen then t.frozen + {k} else t.frozen))
  }

  function CloseAccount(t: Token, k: Key): Option<Token> {
    if k !in t.balances || t.balances[k] != 0 then None
    else Some(t.(balances := t.balances - {k}, frozen := t.frozen - {k}))
  }

  function Moved(m: Amounts, from: Key, to: Key, amount: u64): Amounts
    requires from in m && to in m && amount <= m[from]
    requires from == to || m[to] + amount <= U64_MAX
  {
    var debited := m[from := m[from] - amount];
    debited[to := debited[to] + amount]
  }

  function Transfer(t: Token, from: Key, to: Key, amount: u64): Option<Token> {
    if !CanMove(t, from) || !CanMove(t, to) then None
    else if t.balances[from] < amount then None
    else if from != to && t.balances[to] + amount > U64_MAX then None
    else Some(t.(balances := Moved(t.balances, from, to, amount)))
  }

  function Mint(t: Token, to: Key, amount: u64): Option<Token> {
    if !CanMove(t, to) then None
    else if t.supply + amount > U64_MAX || t.balances[to] + amount > U64_MAX then None
    else Some(t.(balances := t.balances[to := t.balances[to] + amount], supply := t.supply + amount))
  }

  function Burn(t: Token, from: Key, amount: u64): Option<Token> {
    if !CanMove(t, from) then None
    else if t.balances[from] < amount || t.supply < amount then None
    else Some(t.(balances := t.balances[from := t.balances[from] - amount], supply := t.supply - amount))
  }

  function Freeze(t: Token, k: Key): Option<Token> {
    if k !in t.balances || k in t.frozen then None else Some(t.(frozen := t.frozen + {k}))
  }

  function Thaw(t: Token, k: Key): Option<Token> {
    if k !in t.balances || k !in t.frozen then None else Some(t.(frozen := t.frozen - {k}))
  }

  /** The supply is always the sum of the balances. */
  ghost predicate TokenInv(t: Token) {
    Total(t.balances) == t.supply && t.frozen <= t.balances.Keys
  }

  function Balance(t: Token, k: Key): u64 {
    Get(t.balances, k)
  }

  // ----- every operation keeps the sum equal to the supply

  lemma OpenKeepsInv(t: Token, k: Key, frozen: bool)
    requires TokenInv(t) && OpenAccount(t, k, frozen).Some?
    ensures TokenInv(OpenAccount(t, k, frozen).value)
    ensures forall s :: SumOver(OpenAccount(t, k, frozen).value.balances, s) == SumOver(t.balances, s)
  {
    TotalUpdate(t.balances, k, 0);
    forall s
      ensures SumOver(OpenAccount(t, k, frozen).value.balances, s) == SumOver(t.balances, s)
    {
      SumUpdate(t.balances, s, k, 0);
    }
  }

  lemma CloseKeepsInv(t: Token, k: Key)
    requires TokenInv(t) && CloseAccount(t, k).Some?
    ensures TokenInv(CloseAccount(t, k).value)
    ensures forall s :: SumOver(CloseAccount(t, k).value.balances, s) == SumOver(t.balances, s)
  {
    TotalRemove(t.balances, k);
    forall s
      ensures SumOver(CloseAccount(t, k).value.balances, s) == SumOver(t.balances, s)
    {
      SumRemoveEmpty(t.balances, s, k);
    }
  }

  lemma MovedSum(m: Amounts, from: Key, to: Key, amount: u64, s: set<Key>)
    requires from in m && to in m && amount <= m[from]
    requires from == to || m[to] + amount <= U64_MAX
    ensures SumOver(Moved(m, from, to, amount), s)
         == SumOver(m, s) - (if from in s then amount else 0) + (if to in s then amount else 0)
    ensures Total(Moved(m, from, to, amount)) == Total(m)
  {
    hide SumOver, Total;
    if from == to {
      assert Moved(m, from, to, amount) == m;
    } else {
      var less: u64 := m[from] - amount;
      var more: u64 := m[to] + amount;
      SumUpdate(m, s, from, less);
      SumUpdate(m[from := less], s, to, more);
      TotalUpdate(m, from, less);
      TotalUpdate(m[from := less], to, more);
      assert Moved(m, from, to, amount) == m[from := less][to := more];
    }
  }

  lemma TransferEffect(t: Token, from: Key, to: Key, amount: u64)
    requires TokenInv(t) && Transfer(t, from, to, amount).Some?
    ensures var t' := Transfer(t, from, to, amount).value;
      && TokenInv(t')
      && t'.balances.Keys == t.balances.Keys
      && (forall s :: SumOver(t'.balances, s)
            == SumOver(t.balances, s) - (if from in s then amount else 0) + (if to in s then amount else 0))
  {
    MovedSum(t.balances, from, to, amount, {});
    forall s
      ensures SumOver(Transfer(t, from, to, amount).value.balances, s)
           == SumOver(t.balances, s) - (if from in s then amount else 0) + (if to in s then amount else 0)
    {
      MovedSum(t.balances, from, to, amount, s);
    }
  }

  lemma MintEffect(t: Token, to: Key, amount: u64)
    requires TokenInv(t) && Mint(t, to, amount).Some?
    ensures var t' := Mint(t, to, amount).value;
      && TokenInv(t')
      && t'.balances.Keys == t.balances.Keys
      && (forall s :: SumOver(t'.balances, s) == SumOver(t.balances, s) + (if to in s then amount else 0))
  {
    TotalUpdate(t.balances, to, t.balances[to] + amount);
    forall s
      ensures SumOver(Mint(t, to, amount).value.balances, s) == SumOver(t.balances, s) + (if to in s then amount else 0)
    {
      SumUpdate(t.balances, s, to, t.balances[to] + amount);
    }
  }

  lemma BurnEffect(t: Token, from: Key, amount: u64)
    requires TokenInv(t) && Burn(t, from, amount).Some?
    ensures var t' := Burn(t, from, amount).value;
      && TokenInv(t')
      && t'.balances.Keys == t.balances.Keys
      && (forall s :: SumOver(t'.balances, s) == SumOver(t.balances, s) - (if from in s then amount else 0))
  {
    TotalUpdate(t.balances, from, t.balances[from] - amount);
    forall s
      ensures SumOver(Burn(t, from, amount).value.balances, s)
           == SumOver(t.balances, s) - (if from in s then amount else 0)
    {
      SumUpdate(t.balances, s, from, t.balances[from] - amount);
    }
  }

  /** Under the invariant, the receiving side of a transfer or a mint within the supply's
      width cannot overflow, so only the sender's balance and the freeze and pause state
      decide a transfer. */
  lemma FundedTransferSucceeds(t: Token, from: Key, to: Key, amount: u64)
    requires TokenInv(t) && CanMove(t, from) && CanMove(t, to)
    ensures Transfer(t, from, to, amount).Some? <==> amount <= t.balances[from]
  {
    if from != to {
      TwoBalancesWithinTotal(t.balances, from, to);
    }
  }

  lemma MintWithinWidthSucceeds(t: Token, to: Key, amount: u64)
    requires TokenInv(t) && CanMove(t, to)
    ensures Mint(t, to, amount).Some? <==> t.supply + amount <= U64_MAX
  {
    BalanceWithinTotal(t.balances, to);
  }

  lemma FundedBurnSucceeds(t: Token, from: Key, amount: u64)
    requires TokenInv(t) && CanMove(t, from)
    ensures Burn(t, from, amount).Some? <==> amount <= t.balances[from]
  {
    BalanceWithinTotal(t.balances, from);
  }

  /** The mutable mint: each method changes exactly what the function of its name says, or
      reports failure and changes nothing. */
  class Ledger {
    var balances: Amounts
    var supply: u64
    var frozen: set<Key>
    var paused: bool

    constructor (t: Token)
      ensures Value() == t
    {
      balances, supply, frozen, paused := t.balances, t.supply, t.frozen, t.paused;
    }

    function Value(): Token
      reads this
    {
      Token(balances, supply, frozen, paused)
    }

    /** The runtime's rollback of this account group. */
    method Restore(t: Token)
      modifies this
      ensures Value() == t
    {
      balances, supply, frozen, paused := t.balances, t.supply, t.frozen, t.paused;
    }

    method Open(k: Key, startFrozen: bool) returns (ok: bool)
      modifies this
      ensures ok <==> OpenAccount(old(Value()), k, startFrozen).Some?
      ensures Value() == if ok then OpenAccount(old(Value()), k, startFrozen).value else old(Value())
    {
      if k in balances {
        return false;
      }
      balances := balances[k := 0];
      if startFrozen {
        frozen := frozen + {k};
      }
      return true;
    }

    method Close(k: Key) returns (ok: bool)
      modifies this
      ensures ok <==> CloseAccount(old(Value()), k).Some?
      ensures Value() == if ok then CloseAccount(old(Value()), k).value else old(Value())
    {
      if k !in balances || balances[k] != 0 {
        return false;
      }
      balances := balances - {k};
      frozen := frozen - {k};
      return true;
    }

    method TransferChecked(from: Key, to: Key, amount: u64) returns (ok: bool)
      modifies this
      ensures ok <==> Transfer(old(Value()), from, to, amount).Some?
      ensures Value() == if ok then Transfer(old(Value()), from, to, amount).value else old(Value())
    {
      if !CanMove(Value(), from) || !CanMove(Value(), to) || balances[from] < amount {
        return false;
      }
      if from != to && balances[to] + amount > U64_MAX {
        return false;
      }
      balances := balances[from := balances[from] - amount];
      balances := balances[to := balances[to] + amount];
      return true;
    }

    method MintToChecked(to: Key, amount: u64) returns (ok: bool)
      modifies this
      ensures ok <==> Mint(old(Value()), to, amount).Some?
      ensures Value() == if ok then Mint(old(Value()), to, amount).value else old(Value())
    {
      if !CanMove(Value(), to) || supply + amount > U64_MAX || balances[to] + amount > U64_MAX {
        return false;
      }
      balances := balances[to := balances[to] + amount];
      supply := supply + amount;
      return true;
    }

    method BurnChecked(from: Key, amount: u64) returns (ok: bool)
      modifies this
      ensures ok <==> Burn(old(Value()), from, amount).Some?
      ensures Value() == if ok then Burn(old(Value()), from, amount).value else old(Value())
    {
      if !CanMove(Value(), from) || balances[from] < amount || supply < amount {
        return false;
      }
      balances := balances[from := balances[from] - amount];
      supply := supply - amount;
      return true;
    }

    method FreezeAccount(k: Key) returns (ok: bool)
      modifies this
      ensures ok <==> Freeze(old(Value()), k).Some?
      ensures Value() == if ok then Freeze(old(Value()), k).value else old(Value())
    {
      if k !in balances || k in frozen {
        return false;
      }
      frozen := frozen + {k};
      return true;
    }

    method ThawAccount(k: Key) returns (ok: bool)
      modifies this
      ensures ok <==> Thaw(old(Value()), k).Some?
      ensures Value() == if ok then Thaw(old(Value()), k).value else old(Value())
    {
      if k !in balances || k !in frozen {
        return false;
      }
      frozen := frozen - {k};
      return true;
    }

    method SetPaused(live: bool)
      modifies this
      ensures Value() == old(Value()).(paused := live)
    {
      paused := live;
    }
  }
}
