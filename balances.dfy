/** The balances pallet: a ledger from account to balance with a checked
    transfer. Balances are `u128` in every configuration of the runtime. */
module Balances {
  import opened Support

  const MAX_BALANCE: nat := 0xFFFF_FFFF_FFFF_FFFF_FFFF_FFFF_FFFF_FFFF

  type Balance = b: nat | b <= MAX_BALANCE

  const NOT_ENOUGH_FUNDS: string := "Not enough funds."
  const OVERFLOW: string := "Overflow"

  /** `checked_sub` on `u128`: None exactly when the result would be negative. */
  function CheckedSub(a: Balance, b: Balance): (r: Option<Balance>)
    ensures r.Some? <==> b <= a
    ensures r.Some? ==> r.value + b == a
  {
    if b <= a then Some(a - b) else None
  }

  /** `checked_add` on `u128`: None exactly when the sum exceeds the maximum. */
  function CheckedAdd(a: Balance, b: Balance): (r: Option<Balance>)
    ensures r.Some? <==> a + b <= MAX_BALANCE
    ensures r.Some? ==> r.value == a + b
  {
    if a + b <= MAX_BALANCE then Some(a + b) else None
  }

  /** The balance an account has in a ledger map: an absent entry reads as zero. */
  function BalanceOf<AccountId(!new)>(m: map<AccountId, Balance>, who: AccountId): Balance
  {
    if who in m then m[who] else 0
  }

  /** What `transfer` does to the ledger map, as a value: checked subtract on the
      caller first, then checked add on the recipient, then the two inserts in
      that order (so for `caller == to` the second insert wins). */
  function ApplyTransfer<AccountId(!new)>(m: map<AccountId, Balance>, caller: AccountId, to: AccountId, amount: Balance)
    : (t: Transition<map<AccountId, Balance>>)
    ensures t.result == Err(NOT_ENOUGH_FUNDS) <==> BalanceOf(m, caller) < amount
    ensures t.result == Err(OVERFLOW) <==>
              amount <= BalanceOf(m, caller) && BalanceOf(m, to) + amount > MAX_BALANCE
    ensures t.result == Ok <==>
              amount <= BalanceOf(m, caller) && BalanceOf(m, to) + amount <= MAX_BALANCE
    ensures t.result.Err? ==> t.post == m
    ensures t.result.Ok? ==> t.post.Keys == m.Keys + {caller, to}
    ensures t.result.Ok? && caller != to ==>
              BalanceOf(t.post, caller) == BalanceOf(m, caller) - amount &&
              BalanceOf(t.post, to) == BalanceOf(m, to) + amount
    ensures t.result.Ok? && caller == to ==> BalanceOf(t.post, to) == BalanceOf(m, to) + amount
    ensures forall a :: a != caller && a != to ==> BalanceOf(t.post, a) == BalanceOf(m, a)
  {
    var callerBalance := BalanceOf(m, caller);
    var toBalance := BalanceOf(m, to);
    match CheckedSub(callerBalance, amount)
    case None => Transition(Err(NOT_ENOUGH_FUNDS), m)
    case Some(newCaller) =>
      match CheckedAdd(toBalance, amount)
      case None => Transition(Err(OVERFLOW), m)
      case Some(newTo) => Transition(Ok, m[caller := newCaller][to := newTo])
  }

  /** Between two distinct accounts a successful transfer keeps their joint balance. */
  lemma TransferConservesPair<AccountId(!new)>(m: map<AccountId, Balance>, caller: AccountId, to: AccountId, amount: Balance)
    requires caller != to
    ensures var t := ApplyTransfer(m, caller, to, amount);
            BalanceOf(t.post, caller) + BalanceOf(t.post, to) == BalanceOf(m, caller) + BalanceOf(m, to)
  {
  }

  // ---------------------------------------------------------------------------
  // Total supply: the sum of every stored balance.

  /** Sum of the balances of the accounts in `keys`. */
  ghost function SumOver<AccountId(!new)>(m: map<AccountId, Balance>, keys: set<AccountId>): nat
    decreases keys
  {
    if keys == {} then 0
    else
      var k :| k in keys;
      BalanceOf(m, k) + SumOver(m, keys - {k})
  }

  ghost function Total<AccountId(!new)>(m: map<AccountId, Balance>): nat
  {
    SumOver(m, m.Keys)
  }

  /** Any member of `keys` can be taken out first. */
  lemma {:induction false} SumOverPick<AccountId(!new)>(m: map<AccountId, Balance>, keys: set<AccountId>, k: AccountId)
    requires k in keys
    ensures SumOver(m, keys) == BalanceOf(m, k) + SumOver(m, keys - {k})
    decreases keys
  {
    var j :| j in keys && SumOver(m, keys) == BalanceOf(m, j) + SumOver(m, keys - {j});
    if j != k {
      SumOverPick(m, keys - {j}, k);
      SumOverPick(m, keys - {k}, j);
      assert keys - {j} - {k} == keys - {k} - {j};
    }
  }

  /** The sum over `keys` depends only on the balances of those keys. */
  lemma {:induction false} SumOverFrame<AccountId(!new)>(m1: map<AccountId, Balance>, m2: map<AccountId, Balance>, keys: set<AccountId>)
    requires forall k :: k in keys ==> BalanceOf(m1, k) == BalanceOf(m2, k)
    ensures SumOver(m1, keys) == SumOver(m2, keys)
    decreases keys
  {
    if keys != {} {
      var k :| k in keys;
      SumOverPick(m1, keys, k);
      SumOverPick(m2, keys, k);
      SumOverFrame(m1, m2, keys - {k});
    }
  }

  /** Overwriting one entry changes the total by the difference of the two balances. */
  lemma TotalAfterInsert<AccountId(!new)>(m: map<AccountId, Balance>, k: AccountId, v: Balance)
    ensures Total(m[k := v]) + BalanceOf(m, k) == Total(m) + v
  {
    var m' := m[k := v];
    if k in m {
      assert m'.Keys == m.Keys;
      SumOverPick(m', m.Keys, k);
      SumOverPick(m, m.Keys, k);
      SumOverFrame(m', m, m.Keys - {k});
    } else {
      assert m'.Keys - {k} == m.Keys;
      SumOverPick(m', m'.Keys, k);
      SumOverFrame(m', m, m.Keys);
    }
  }

  /** A transfer between two distinct accounts neither creates nor destroys funds. */
  lemma TransferConservesTotal<AccountId(!new)>(m: map<AccountId, Balance>, caller: AccountId, to: AccountId, amount: Balance)
    requires caller != to
    ensures Total(ApplyTransfer(m, caller, to, amount).post) == Total(m)
  {
    var t := ApplyTransfer(m, caller, to, amount);
    if t.result.Ok? {
      var m1 := m[caller := BalanceOf(m, caller) - amount];
      TotalAfterInsert(m, caller, BalanceOf(m, caller) - amount);
      TotalAfterInsert(m1, to, BalanceOf(m, to) + amount);
    }
  }

  /** A successful transfer to oneself raises the total by `amount`: the second
      insert overwrites the debited balance with the credited one. */
  lemma SelfTransferMints<AccountId(!new)>(m: map<AccountId, Balance>, who: AccountId, amount: Balance)
    requires amount <= BalanceOf(m, who) && BalanceOf(m, who) + amount <= MAX_BALANCE
    ensures ApplyTransfer(m, who, who, amount).result == Ok
    ensures Total(ApplyTransfer(m, who, who, amount).post) == Total(m) + amount
  {
    var m1 := m[who := BalanceOf(m, who) - amount];
    TotalAfterInsert(m, who, BalanceOf(m, who) - amount);
    TotalAfterInsert(m1, who, BalanceOf(m, who) + amount);
  }

  // ---------------------------------------------------------------------------
  // The pallet itself.

  class Pallet<AccountId(==, !new)> {
    var balances: map<AccountId, Balance>

    constructor ()
      ensures balances == map[]
      ensures forall who :: Balance(who) == 0
    {
      balances := map[];
    }

    /** Unconditional overwrite of one account's balance. */
    method SetBalance(who: AccountId, amount: Balance)
      modifies this
      ensures balances == old(balances)[who := amount]
      ensures Balance(who) == amount
      ensures forall a :: a != who ==> Balance(a) == old(Balance(a))
    {
      balances := balances[who := amount];
    }

    /** The stored balance, or zero when the account has no entry. */
    function Balance(who: AccountId): (b: Balance)
      reads this
      ensures who in balances ==> b == balances[who]
      ensures who !in balances ==> b == 0
    {
      BalanceOf(balances, who)
    }

    method Transfer(caller: AccountId, to: AccountId, amount: Balance) returns (r: DispatchResult)
      modifies this
      ensures Transition(r, balances) == ApplyTransfer(old(balances), caller, to, amount)
    {
      var callerBalance := Balance(caller);
      var toBalance := Balance(to);

      var newCaller := CheckedSub(callerBalance, amount);
      if newCaller.None? {
        return Err(NOT_ENOUGH_FUNDS);
      }
      var newTo := CheckedAdd(toBalance, amount);
      if newTo.None? {
        return Err(OVERFLOW);
      }

      balances := balances[caller := newCaller.value];
      balances := balances[to := newTo.value];
      r := Ok;
    }
  }
}
