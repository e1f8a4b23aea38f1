/** Who is paid: what each address gains from a settlement, an execution or a refund. */
module DexPayouts {
  import opened Options
  import opened Uint64
  import opened Balances
  import opened LpPoints
  import opened LpWithdrawals
  import opened LpDeposits
  import opened AmmOrders
  import opened DexBatches
  import opened DexChains

  /** What a list of dues owes one address. */
  function DueTo(dues: seq<Due>, a: nat): (due: nat)
  {
    if dues == [] then 0
    else DueTo(dues[..|dues| - 1], a) + if dues[|dues| - 1].address == a then dues[|dues| - 1].amount else 0
  }

  /** Paying a list of dues credits every address with exactly what it is due. */
  lemma {:induction false} CreditAllPays(accounts: Accounts, dues: seq<Due>, a: nat)
    requires CreditAll(accounts, dues).Some?
    ensures Amount(CreditAll(accounts, dues).value, a) == Amount(accounts, a) + DueTo(dues, a)
  {
    if dues != [] {
      CreditAllPays(accounts, dues[..|dues| - 1], a);
    }
  }

  lemma {:induction false} DueToConcat(p: seq<Due>, q: seq<Due>, a: nat)
    ensures DueTo(p + q, a) == DueTo(p, a) + DueTo(q, a)
  {
    if q == [] {
      assert p + q == p;
    } else {
      assert (p + q)[..|p + q| - 1] == p + q[..|q| - 1];
      DueToConcat(p, q[..|q| - 1], a);
    }
  }

  // ---------------------------------------------------------------- per address

  /** What an address put up for orders that failed. */
  function FailedBy(orders: seq<Order>, receipts: seq<u64>, a: nat): (sum: nat)
    requires |orders| == |receipts|
  {
    if orders == [] then 0
    else
      var n := |orders| - 1;
      FailedBy(orders[..n], receipts[..n], a) + if orders[n].address == a && receipts[n] == 0 then orders[n].amount else 0
  }

  /** What an address bought with its orders. */
  function BoughtBy(keyed: seq<Keyed>, receipts: seq<u64>, a: nat): (sum: nat)
    requires |keyed| == |receipts|
  {
    if keyed == [] then 0
    else
      var n := |keyed| - 1;
      BoughtBy(keyed[..n], receipts[..n], a) + if keyed[n].order.address == a then receipts[n] else 0
  }

  /** What an address withdrew, on the batch's origin chain or on the other. */
  function WithdrawnBy(payments: seq<Payment>, a: nat, local: bool): (sum: nat)
  {
    if payments == [] then 0
    else
      var p := payments[|payments| - 1];
      WithdrawnBy(payments[..|payments| - 1], a, local) + if p.address != a then 0 else if local then p.xShare else p.yShare
  }

  /** What an address has in a batch's orders and deposits. */
  function OrderedBy(orders: seq<Order>, a: nat): (sum: nat)
  {
    if orders == [] then 0
    else OrderedBy(orders[..|orders| - 1], a) + if orders[|orders| - 1].address == a then orders[|orders| - 1].amount else 0
  }

  function DepositedBy(ds: seq<Deposit>, a: nat): (sum: nat)
  {
    if ds == [] then 0
    else DepositedBy(ds[..|ds| - 1], a) + if ds[|ds| - 1].address == a then ds[|ds| - 1].amount else 0
  }

  lemma {:induction false} RefundsAreForFailed(orders: seq<Order>, receipts: seq<u64>, a: nat)
    requires |orders| == |receipts|
    ensures DueTo(Refunds(orders, receipts), a) == FailedBy(orders, receipts, a)
  {
    if orders != [] {
      var n := |orders| - 1;
      RefundsAreForFailed(orders[..n], receipts[..n], a);
      assert Refunds(orders, receipts)[..n] == Refunds(orders[..n], receipts[..n]);
    }
  }

  lemma {:induction false} PayoutsAreForBuyers(keyed: seq<Keyed>, receipts: seq<u64>, a: nat)
    requires |keyed| == |receipts|
    ensures DueTo(Payouts(keyed, receipts), a) == BoughtBy(keyed, receipts, a)
  {
    if keyed != [] {
      var n := |keyed| - 1;
      PayoutsAreForBuyers(keyed[..n], receipts[..n], a);
      assert Payouts(keyed, receipts)[..n] == Payouts(keyed[..n], receipts[..n]);
    }
  }

  lemma {:induction false} SharesAreForHolders(payments: seq<Payment>, a: nat, local: bool)
    ensures DueTo(DexChains.Shares(payments, local), a) == WithdrawnBy(payments, a, local)
  {
    if payments != [] {
      var n := |payments| - 1;
      SharesAreForHolders(payments[..n], a, local);
      assert DexChains.Shares(payments, local)[..n] == DexChains.Shares(payments[..n], local);
    }
  }

  lemma {:induction false} GivenAreForSenders(orders: seq<Order>, a: nat)
    ensures DueTo(Given(orders), a) == OrderedBy(orders, a)
  {
    if orders != [] {
      GivenAreForSenders(orders[..|orders| - 1], a);
      assert Given(orders)[..|orders| - 1] == Given(orders[..|orders| - 1]);
    }
  }

  lemma {:induction false} GivenBackAreForSenders(ds: seq<Deposit>, a: nat)
    ensures DueTo(GivenBack(ds), a) == DepositedBy(ds, a)
  {
    if ds != [] {
      GivenBackAreForSenders(ds[..|ds| - 1], a);
      assert GivenBack(ds)[..|ds| - 1] == GivenBack(ds[..|ds| - 1]);
    }
  }

  // ---------------------------------------------------------------- what each step pays

  lemma WithdrawalsPay(c: Chain, shadow: u64, ws: seq<Withdrawal>, local: bool, a: nat)
    requires Withdrawals(c, shadow, ws, local).Some?
    ensures Withdraw(LedgerOf(c, shadow, local), ws).Some?
    ensures var c', payments := Withdrawals(c, shadow, ws, local).value.0, Withdraw(LedgerOf(c, shadow, local), ws).value.1;
            Amount(c'.accounts, a) == Amount(c.accounts, a) + WithdrawnBy(payments, a, local)
  {
    var payments := Withdraw(LedgerOf(c, shadow, local), ws).value.1;
    CreditAllPays(c.accounts, DexChains.Shares(payments, local), a);
    SharesAreForHolders(payments, a, local);
  }

  /** Settling its own batch refunds each seller its failed orders and pays each holder its share, nothing else. */
  lemma SettlementPays(c: Chain, remote: Batch, a: nat)
    requires !IsEmpty(c.locked) && SettleOwn(c, remote).Done?
    ensures Answers(remote, c.locked) && Settle(LedgerOf(c, remote.poolSize, true), c.locked, remote.receipts).Some?
    ensures var c', o := SettleOwn(c, remote).chain, Settle(LedgerOf(c, remote.poolSize, true), c.locked, remote.receipts).value;
            Amount(c'.accounts, a) == Amount(c.accounts, a)
                                      + FailedBy(c.locked.orders, remote.receipts, a) + WithdrawnBy(o.payments, a, true)
  {
    SettleOwnFollowsLedger(c, remote);
    CreditAllPays(c.accounts, Refunds(c.locked.orders, remote.receipts), a);
    RefundsAreForFailed(c.locked.orders, remote.receipts, a);
    var (c1, s1) := OwnOrders(c, remote.poolSize, remote.receipts).value;
    WithdrawalsPay(c1, s1, c.locked.withdrawals, true, a);
  }

  lemma RemoteOrdersPay(c: Chain, shadow: u64, keyed: seq<Keyed>, sorted: seq<Keyed>, a: nat)
    requires RemoteOrders(c, shadow, keyed, sorted).Some?
    ensures var (c', _, receipts) := RemoteOrders(c, shadow, keyed, sorted).value;
            |receipts| == |keyed| && Amount(c'.accounts, a) == Amount(c.accounts, a) + BoughtBy(keyed, receipts, a)
  {
    var receipts := RemoteOrders(c, shadow, keyed, sorted).value.2;
    CreditAllPays(c.accounts, Payouts(keyed, receipts), a);
    PayoutsAreForBuyers(keyed, receipts, a);
  }

  /** The parts of an execution: its receipts come from the orders, its payments from the withdrawals after them. */
  lemma ExecutionParts(c: Chain, shadow: u64, remote: Batch, keyed: seq<Keyed>, sorted: seq<Keyed>)
    returns (c1: Chain, s1: u64, c2: Chain)
    requires Shuffled(remote, keyed, sorted) && ExecuteRemote(c, shadow, remote, keyed, sorted).Some?
    ensures Execute(LedgerOf(c, shadow, false), remote, keyed, sorted).Some?
    ensures RemoteOrders(c, shadow, keyed, sorted).Some? && Withdrawals(c1, s1, remote.withdrawals, false).Some?
    ensures Withdraw(LedgerOf(c1, s1, false), remote.withdrawals).Some?
    ensures var (c', _, receipts) := ExecuteRemote(c, shadow, remote, keyed, sorted).value;
            && RemoteOrders(c, shadow, keyed, sorted).value == (c1, s1, receipts)
            && Withdrawals(c1, s1, remote.withdrawals, false).value.0 == c2 && c'.accounts == c2.accounts
            && Execute(LedgerOf(c, shadow, false), remote, keyed, sorted).value.0.payments
               == Withdraw(LedgerOf(c1, s1, false), remote.withdrawals).value.1
  {
    ExecuteRemoteFollowsLedger(c, shadow, remote, keyed, sorted);
    BatchExecution(shadow, c.pool, sorted, keyed);
    var orders := RemoteOrders(c, shadow, keyed, sorted).value;
    c1, s1 := orders.0, orders.1;
    c2 := Withdrawals(c1, s1, remote.withdrawals, false).value.0;
  }

  /** Executing the other chain's batch pays each buyer its receipts and each holder its share, nothing else. */
  lemma ExecutionPays(c: Chain, shadow: u64, remote: Batch, keyed: seq<Keyed>, sorted: seq<Keyed>, a: nat)
    requires Shuffled(remote, keyed, sorted) && ExecuteRemote(c, shadow, remote, keyed, sorted).Some?
    ensures Execute(LedgerOf(c, shadow, false), remote, keyed, sorted).Some?
    ensures var (c', _, receipts) := ExecuteRemote(c, shadow, remote, keyed, sorted).value;
            var o := Execute(LedgerOf(c, shadow, false), remote, keyed, sorted).value.0;
            && |receipts| == |keyed|
            && Amount(c'.accounts, a) == Amount(c.accounts, a) + BoughtBy(keyed, receipts, a) + WithdrawnBy(o.payments, a, false)
  {
    var c1, s1, c2 := ExecutionParts(c, shadow, remote, keyed, sorted);
    RemoteOrdersPay(c, shadow, keyed, sorted, a);
    WithdrawalsPay(c1, s1, remote.withdrawals, false, a);
  }

  /** The fallback returns to each sender exactly what it has in the locked batch. */
  lemma FallbackPays(c: Chain, points: Table, a: nat)
    requires Fallback(c, points).Some?
    ensures Amount(Fallback(c, points).value.accounts, a)
            == Amount(c.accounts, a) + OrderedBy(c.locked.orders, a) + DepositedBy(c.locked.deposits, a)
    ensures var c' := Fallback(c, points).value;
            && c'.table == points && c'.pool == c.pool && c'.next == c.next && IsEmpty(c'.locked)
            && c'.holding == c.holding - OrdersTotal(c.locked.orders) - DepositsTotal(c.locked.deposits)
  {
    CreditAllPays(c.accounts, OpenDues(c.locked), a);
    DueToConcat(Given(c.locked.orders), GivenBack(c.locked.deposits), a);
    GivenAreForSenders(c.locked.orders, a);
    GivenBackAreForSenders(c.locked.deposits, a);
  }

  /** A new order or deposit costs its sender exactly its amount and nobody else anything. */
  lemma HoldingCostsTheSender(c: Chain, address: nat, amount: u64, spendable: u64, a: nat)
    requires spendable <= Amount(c.accounts, address) && Hold(c, address, amount, spendable).Some?
    ensures Amount(Hold(c, address, amount, spendable).value.accounts, a) + (if a == address then amount else 0) == Amount(c.accounts, a)
    ensures amount <= spendable
  {
  }

  // ---------------------------------------------------------------- late operations

  /**
   * Late operations join the locked batch in the order they came: the two lists together stay the same, as
   * many as fit are moved, and a batch within its limits stays within them.
   */
  lemma IncludeKeepsOrder(c: Chain, height: nat)
    ensures var c' := Include(c, height);
            && c'.locked.orders + c'.next.orders == c.locked.orders + c.next.orders
            && c'.locked.deposits + c'.next.deposits == c.locked.deposits + c.next.deposits
            && c'.locked.withdrawals + c'.next.withdrawals == c.locked.withdrawals + c.next.withdrawals
            && (|c.locked.orders| <= MAX_ORDERS ==> |c'.locked.orders| <= MAX_ORDERS)
            && (|c.locked.deposits| <= MAX_DEPOSITS ==> |c'.locked.deposits| <= MAX_DEPOSITS)
            && (|c.locked.withdrawals| <= MAX_WITHDRAWS ==> |c'.locked.withdrawals| <= MAX_WITHDRAWS)
            && (IsEmpty(c.locked) || c.locked.lockedHeight != height ==> c' == c)
            && c' == c.(locked := c.locked.(orders := c'.locked.orders, deposits := c'.locked.deposits, withdrawals := c'.locked.withdrawals),
                        next := c.next.(orders := c'.next.orders, deposits := c'.next.deposits, withdrawals := c'.next.withdrawals))
            && c.locked.orders <= c'.locked.orders && c.locked.deposits <= c'.locked.deposits
            && c.locked.withdrawals <= c'.locked.withdrawals
            && (!IsEmpty(c.locked) && c.locked.lockedHeight == height ==>
                  && (c'.next.orders == [] || |c'.locked.orders| >= MAX_ORDERS)
                  && (c'.next.deposits == [] || |c'.locked.deposits| >= MAX_DEPOSITS)
                  && (c'.next.withdrawals == [] || |c'.locked.withdrawals| >= MAX_WITHDRAWS))
  {
  }
}
