/**
 * The funds behind the exchange: the holding pool covers every order and deposit that is still open, no
 * token appears or disappears in a step, and so no settlement, payout or refund ever lacks funds.
 */
module DexHolding {
  import opened Options
  import opened Uint64
  import opened Balances
  import opened LpPoints
  import opened LpWithdrawals
  import opened LpDeposits
  import opened AmmOrders
  import opened DexBatches
  import opened DexChains

  /** Every token the exchange touches: accounts, holding pool and reserve. */
  ghost function Tokens(c: Chain): (tokens: nat)
  {
    Total(c.accounts) + c.holding + c.pool
  }

  /** What the holding pool owes for one batch. */
  function Owed(b: Batch): (owed: nat)
  {
    OrdersTotal(b.orders) + DepositsTotal(b.deposits)
  }

  ghost predicate Sound(c: Chain)
  {
    && Tokens(c) < LIMIT
    && c.holding >= Owed(c.locked) + Owed(c.next)
    && WellFormed(c.table)
    && ValidWithdrawals(c.locked.withdrawals) && ValidWithdrawals(c.next.withdrawals)
  }

  // ---------------------------------------------------------------- paying out

  function SumDues(dues: seq<Due>): (sum: nat)
  {
    if dues == [] then 0 else SumDues(dues[..|dues| - 1]) + dues[|dues| - 1].amount
  }

  lemma {:induction false} SumDuesConcat(a: seq<Due>, b: seq<Due>)
    ensures SumDues(a + b) == SumDues(a) + SumDues(b)
  {
    if b == [] {
      assert a + b == a;
    } else {
      assert (a + b)[..|a + b| - 1] == a + b[..|b| - 1];
      SumDuesConcat(a, b[..|b| - 1]);
    }
  }

  /** While all tokens together fit in 64 bits, crediting cannot overflow and adds exactly what is due. */
  lemma {:induction false} CreditAllAdds(accounts: Accounts, dues: seq<Due>)
    requires Total(accounts) + SumDues(dues) < LIMIT
    ensures CreditAll(accounts, dues).Some?
    ensures Total(CreditAll(accounts, dues).value) == Total(accounts) + SumDues(dues)
  {
    if dues != [] {
      var due := dues[|dues| - 1];
      CreditAllAdds(accounts, dues[..|dues| - 1]);
      var before := CreditAll(accounts, dues[..|dues| - 1]).value;
      TotalUpdate(before, due.address, Amount(before, due.address));
      if due.amount > 0 {
        TotalUpdate(before, due.address, Amount(before, due.address) + due.amount);
      }
    }
  }

  lemma {:induction false} RefundsSum(r: Reserves, orders: seq<Order>, receipts: seq<u64>)
    requires |orders| == |receipts| && r.x + OrdersTotal(orders) < LIMIT
    ensures SumDues(Refunds(orders, receipts)) <= OrdersTotal(orders)
    ensures SettleAll(r, orders, receipts).Some? ==>
              SettleAll(r, orders, receipts).value.x + SumDues(Refunds(orders, receipts)) == r.x + OrdersTotal(orders)
  {
    if orders != [] {
      var n := |orders| - 1;
      assert Refunds(orders, receipts)[..n] == Refunds(orders[..n], receipts[..n]);
      RefundsSum(r, orders[..n], receipts[..n]);
    }
  }

  lemma {:induction false} PayoutsSum(keyed: seq<Keyed>, receipts: seq<u64>)
    requires |keyed| == |receipts|
    ensures SumDues(Payouts(keyed, receipts)) == SumReceipts(receipts)
  {
    if keyed != [] {
      var n := |keyed| - 1;
      assert Payouts(keyed, receipts)[..n] == Payouts(keyed[..n], receipts[..n]);
      PayoutsSum(keyed[..n], receipts[..n]);
    }
  }

  lemma {:induction false} SharesSum(payments: seq<Payment>, local: bool)
    ensures SumDues(DexChains.Shares(payments, local)) == if local then SumX(payments) else SumY(payments)
  {
    if payments != [] {
      var n := |payments| - 1;
      assert DexChains.Shares(payments, local)[..n] == DexChains.Shares(payments[..n], local);
      SharesSum(payments[..n], local);
    }
  }

  lemma {:induction false} GivenSum(orders: seq<Order>)
    ensures SumDues(Given(orders)) == OrdersTotal(orders)
  {
    if orders != [] {
      assert Given(orders)[..|orders| - 1] == Given(orders[..|orders| - 1]);
      GivenSum(orders[..|orders| - 1]);
    }
  }

  lemma {:induction false} GivenBackSum(ds: seq<Deposit>)
    ensures SumDues(GivenBack(ds)) == DepositsTotal(ds)
  {
    if ds != [] {
      assert GivenBack(ds)[..|ds| - 1] == GivenBack(ds[..|ds| - 1]);
      GivenBackSum(ds[..|ds| - 1]);
    }
  }

  lemma {:induction false} TotalDepositIs(ds: seq<Deposit>)
    ensures TotalDeposit(ds).Some? ==> TotalDeposit(ds).value == DepositsTotal(ds)
  {
    if ds != [] {
      TotalDepositIs(ds[..|ds| - 1]);
    }
  }

  lemma {:induction false} OrdersTotalConcat(a: seq<Order>, b: seq<Order>)
    ensures OrdersTotal(a + b) == OrdersTotal(a) + OrdersTotal(b)
  {
    if b == [] {
      assert a + b == a;
    } else {
      assert (a + b)[..|a + b| - 1] == a + b[..|b| - 1];
      OrdersTotalConcat(a, b[..|b| - 1]);
    }
  }

  lemma {:induction false} DepositsTotalConcat(a: seq<Deposit>, b: seq<Deposit>)
    ensures DepositsTotal(a + b) == DepositsTotal(a) + DepositsTotal(b)
  {
    if b == [] {
      assert a + b == a;
    } else {
      assert (a + b)[..|a + b| - 1] == a + b[..|b| - 1];
      DepositsTotalConcat(a, b[..|b| - 1]);
    }
  }

  // ---------------------------------------------------------------- the parts of a settlement

  /** Settling the orders never lacks funds: it fails only if the shadow reserve cannot be debited. */
  lemma OwnOrdersMove(c: Chain, shadow: u64, receipts: seq<u64>)
    requires |receipts| == |c.locked.orders|
    requires Tokens(c) < LIMIT && c.holding >= OrdersTotal(c.locked.orders)
    ensures OwnOrders(c, shadow, receipts).Some? <==> SettleAll(Reserves(c.pool, shadow), c.locked.orders, receipts).Some?
    ensures OwnOrders(c, shadow, receipts).Some? ==>
              var c' := OwnOrders(c, shadow, receipts).value.0;
              && Tokens(c') == Tokens(c) && c'.holding == c.holding - OrdersTotal(c.locked.orders)
              && c'.table == c.table && c'.locked == c.locked && c'.next == c.next
  {
    RefundsSum(Reserves(c.pool, shadow), c.locked.orders, receipts);
    CreditAllAdds(c.accounts, Refunds(c.locked.orders, receipts));
  }

  /** The payouts of a remote batch come out of the reserve exactly and always fit. */
  lemma RemoteOrdersMove(c: Chain, shadow: u64, remote: Batch, keyed: seq<Keyed>, sorted: seq<Keyed>)
    requires Tokens(c) < LIMIT && Shuffled(remote, keyed, sorted)
    ensures RemoteOrders(c, shadow, keyed, sorted).Some?
            <==> shadow > 0 && c.pool > 0 && FillAll(Fill(shadow, c.pool, map[]), sorted).Some?
    ensures RemoteOrders(c, shadow, keyed, sorted).Some? ==>
              var c' := RemoteOrders(c, shadow, keyed, sorted).value.0;
              && Tokens(c') == Tokens(c) && c'.holding == c.holding
              && c'.table == c.table && c'.locked == c.locked && c'.next == c.next
  {
    if shadow > 0 && c.pool > 0 && FillAll(Fill(shadow, c.pool, map[]), sorted).Some? {
      BatchExecution(shadow, c.pool, sorted, keyed);
      var receipts := Receipts(keyed, FillAll(Fill(shadow, c.pool, map[]), sorted).value.result);
      PayoutsSum(keyed, receipts);
      CreditAllAdds(c.accounts, Payouts(keyed, receipts));
    }
  }

  lemma WithdrawalsMove(c: Chain, shadow: u64, ws: seq<Withdrawal>, local: bool)
    requires Tokens(c) < LIMIT && WellFormed(c.table) && ValidWithdrawals(ws)
    ensures Withdrawals(c, shadow, ws, local).Some? <==> Withdraw(LedgerOf(c, shadow, local), ws).Some?
    ensures Withdrawals(c, shadow, ws, local).Some? ==>
              var c' := Withdrawals(c, shadow, ws, local).value.0;
              && Tokens(c') == Tokens(c) && c'.holding == c.holding && WellFormed(c'.table)
              && c'.locked == c.locked && c'.next == c.next
  {
    var l := LedgerOf(c, shadow, local);
    if Withdraw(l, ws).Some? {
      WithdrawalsAreSolvent(l, ws);
      SharesSum(Withdraw(l, ws).value.1, local);
      CreditAllAdds(c.accounts, DexChains.Shares(Withdraw(l, ws).value.1, local));
    }
  }

  /** Deposits move from the holding pool into the reserve of the chain they were made on. */
  lemma DepositsMove(c: Chain, shadow: u64, ds: seq<Deposit>, local: bool)
    requires WellFormed(c.table) && (local ==> c.holding >= DepositsTotal(ds))
    ensures Deposits(c, shadow, ds, local).Some? <==> DepositBatch(LedgerOf(c, shadow, local), ds).Some?
    ensures Deposits(c, shadow, ds, local).Some? ==>
              var c' := Deposits(c, shadow, ds, local).value.0;
              && Tokens(c') == Tokens(c) && WellFormed(c'.table)
              && c'.holding >= c.holding - (if local then DepositsTotal(ds) else 0)
              && c'.locked == c.locked && c'.next == c.next
  {
    var l := LedgerOf(c, shadow, local);
    TotalDepositIs(ds);
    if DepositBatch(l, ds).Some? {
      DepositKeepsWellFormed(l, ds);
      if TotalDeposit(ds).value > 0 && l.x > 0 && l.y > 0 {
        DepositFacts(l, ds);
      }
    }
  }

  // ---------------------------------------------------------------- settlement and execution

  /**
   * FUNDED SETTLEMENT: a sound chain settles its own batch exactly when the shared ledger can; no order,
   * withdrawal or deposit ever lacks funds, and no credit overflows.
   */
  lemma SettlementIsFunded(c: Chain, remote: Batch)
    requires Sound(c) && !IsEmpty(c.locked) && Answers(remote, c.locked)
    ensures SettleOwn(c, remote).Done? <==> Settle(LedgerOf(c, remote.poolSize, true), c.locked, remote.receipts).Some?
    ensures SettleOwn(c, remote).Done? ==>
              && Sound(SettleOwn(c, remote).chain) && Tokens(SettleOwn(c, remote).chain) == Tokens(c)
              && IsEmpty(SettleOwn(c, remote).chain.locked)
  {
    OwnOrdersMove(c, remote.poolSize, remote.receipts);
    var orders := OwnOrders(c, remote.poolSize, remote.receipts);
    if orders.Some? {
      var (c1, s1) := orders.value;
      WithdrawalsMove(c1, s1, c.locked.withdrawals, true);
      var withdrawn := Withdrawals(c1, s1, c.locked.withdrawals, true);
      if withdrawn.Some? {
        DepositsMove(withdrawn.value.0, withdrawn.value.1, c.locked.deposits, true);
      }
    }
  }

  /** FUNDED EXECUTION: a sound chain executes the other's batch exactly when the shared ledger can. */
  lemma ExecutionIsFunded(c: Chain, shadow: u64, remote: Batch, keyed: seq<Keyed>, sorted: seq<Keyed>)
    requires Sound(c) && Shuffled(remote, keyed, sorted) && ValidWithdrawals(remote.withdrawals)
    ensures ExecuteRemote(c, shadow, remote, keyed, sorted).Some?
            <==> Execute(LedgerOf(c, shadow, false), remote, keyed, sorted).Some?
    ensures ExecuteRemote(c, shadow, remote, keyed, sorted).Some? ==>
              var c' := ExecuteRemote(c, shadow, remote, keyed, sorted).value.0;
              Sound(c') && Tokens(c') == Tokens(c) && c'.locked == c.locked
  {
    RemoteOrdersMove(c, shadow, remote, keyed, sorted);
    var orders := RemoteOrders(c, shadow, keyed, sorted);
    if orders.Some? {
      var (c1, s1, receipts) := orders.value;
      BatchExecution(shadow, c.pool, sorted, keyed);
      WithdrawalsMove(c1, s1, remote.withdrawals, false);
      var withdrawn := Withdrawals(c1, s1, remote.withdrawals, false);
      if withdrawn.Some? {
        DepositsMove(withdrawn.value.0, withdrawn.value.1, remote.deposits, false);
      }
    }
  }

  lemma OpenDuesSum(b: Batch)
    ensures SumDues(OpenDues(b)) == Owed(b)
  {
    GivenSum(b.orders);
    GivenBackSum(b.deposits);
    SumDuesConcat(Given(b.orders), GivenBack(b.deposits));
  }

  /** FUNDED REFUND: the liveness fallback of a sound chain never fails. */
  lemma FallbackIsFunded(c: Chain, points: Table)
    requires Sound(c) && WellFormed(points)
    ensures Fallback(c, points).Some?
    ensures Sound(Fallback(c, points).value) && Tokens(Fallback(c, points).value) == Tokens(c)
  {
    OpenDuesSum(c.locked);
    CreditAllAdds(c.accounts, OpenDues(c.locked));
  }

  // ---------------------------------------------------------------- whole runs

  /** What can happen to one chain: its own messages and blocks, and any batch whatever of the other chain. */
  datatype Step =
    | Order(order: AmmOrders.Order, spendable: u64)
    | Deposit(deposit: LpDeposits.Deposit, spendable: u64)
    | Withdrawal(withdrawal: LpWithdrawals.Withdrawal)
    | Remote(remote: Batch, keyed: seq<Keyed>, sorted: seq<Keyed>, height: nat)
    | IncludeLate(height: nat)
    | Refund(points: Table)
    | ResetCommittee
    | Elsewhere(accounts: Accounts, pool: u64)

  /** `Elsewhere` is any transaction outside the exchange: it changes accounts and reserve as it likes. */
  ghost predicate Allowed(c: Chain, s: Step)
  {
    match s
    case Order(o, spendable) => spendable <= Amount(c.accounts, o.address)
    case Deposit(d, spendable) => spendable <= Amount(c.accounts, d.address)
    case Withdrawal(w) => w.percent <= 100
    case Remote(remote, keyed, sorted, _) => Shuffled(remote, keyed, sorted) && ValidWithdrawals(remote.withdrawals)
    case IncludeLate(_) => true
    case Refund(points) => WellFormed(points)
    case ResetCommittee => true
    case Elsewhere(accounts, pool) => Total(accounts) + c.holding + pool < LIMIT
  }

  function Or(r: Option<Chain>, c: Chain): (c': Chain)
  {
    if r.None? then c else r.value
  }

  /** A failed step changes nothing. */
  ghost function Take(c: Chain, self: nat, s: Step): (c': Chain)
    requires Allowed(c, s)
  {
    match s
    case Order(o, spendable) => Or(EnqueueOrder(c, self, o, spendable), c)
    case Deposit(d, spendable) => Or(EnqueueDeposit(c, self, d, spendable), c)
    case Withdrawal(w) => Or(EnqueueWithdrawal(c, self, w), c)
    case Remote(remote, keyed, sorted, height) => Or(HandleRemote(c, remote, keyed, sorted, height), c)
    case IncludeLate(height) => Include(c, height)
    case Refund(points) => Or(Fallback(c, points), c)
    case ResetCommittee => Reset(c)
    case Elsewhere(accounts, pool) => c.(accounts := accounts, pool := pool)
  }

  lemma HoldKeeps(c: Chain, address: nat, amount: u64, spendable: u64)
    requires Tokens(c) < LIMIT && spendable <= Amount(c.accounts, address) && Hold(c, address, amount, spendable).Some?
    ensures var c' := Hold(c, address, amount, spendable).value;
            Tokens(c') == Tokens(c) && c'.holding == c.holding + amount
  {
    TotalUpdate(c.accounts, address, Amount(c.accounts, address) - amount);
    TotalUpdate(c.accounts, address, Amount(c.accounts, address));
  }

  lemma MessagesKeepSound(c: Chain, self: nat, s: Step)
    requires Sound(c) && Allowed(c, s) && (s.Order? || s.Deposit? || s.Withdrawal?)
    ensures Sound(Take(c, self, s)) && Tokens(Take(c, self, s)) == Tokens(c)
  {
    match s
    case Order(o, spendable) =>
      if EnqueueOrder(c, self, o, spendable).Some? {
        HoldKeeps(c, o.address, o.amount, spendable);
        assert (c.next.orders + [o])[..|c.next.orders|] == c.next.orders;
      }
    case Deposit(d, spendable) =>
      if EnqueueDeposit(c, self, d, spendable).Some? {
        HoldKeeps(c, d.address, d.amount, spendable);
        assert (c.next.deposits + [d])[..|c.next.deposits|] == c.next.deposits;
      }
    case Withdrawal(_) =>
  }

  lemma RotateKeepsSound(c: Chain, hash: ReceiptHash, poolSize: u64, receipts: seq<u64>, height: nat)
    requires Sound(c)
    ensures Sound(Rotate(c, hash, poolSize, receipts, height))
    ensures Tokens(Rotate(c, hash, poolSize, receipts, height)) == Tokens(c)
  {
  }

  lemma RemoteKeepsSound(c: Chain, remote: Batch, keyed: seq<Keyed>, sorted: seq<Keyed>, height: nat)
    requires Sound(c) && Shuffled(remote, keyed, sorted) && ValidWithdrawals(remote.withdrawals)
    ensures var c' := Or(HandleRemote(c, remote, keyed, sorted, height), c);
            Sound(c') && Tokens(c') == Tokens(c)
  {
    if IsEmpty(remote) {
      RotateKeepsSound(c, Hash(remote), c.pool, [], height);
    } else {
      if !IsEmpty(c.locked) && Answers(remote, c.locked) {
        SettlementIsFunded(c, remote);
      }
      if SettleOwn(c, remote).Done? {
        var done := SettleOwn(c, remote);
        ExecutionIsFunded(done.chain, done.shadow, remote, keyed, sorted);
        var executed := ExecuteRemote(done.chain, done.shadow, remote, keyed, sorted);
        if executed.Some? {
          RotateKeepsSound(executed.value.0, Hash(remote), done.chain.pool, executed.value.2, height);
        }
      }
    }
  }

  /** The batch answers the locked one: it names its hash and brings one receipt per order. */
  ghost predicate IsAnswer(locked: Batch, remote: Batch)
  {
    remote.receiptHash == Hash(locked) && |locked.orders| == |remote.receipts|
  }

  /** Where the shared ledger stands once the chain has settled its own batch; None if that fails. */
  ghost function MidPoint(c: Chain, remote: Batch): (mid: Option<Ledger>)
    requires IsEmpty(c.locked) || IsAnswer(c.locked, remote)
  {
    var l := Ledger(c.pool, remote.poolSize, c.table);
    if IsEmpty(c.locked) then Some(l)
    else
      var settled := Settle(l, c.locked, remote.receipts);
      if settled.None? then None else Some(settled.value.ledger)
  }

  /** What the chain has become after executing `remote` from the mid-point. */
  ghost predicate MovedOn(c: Chain, c': Chain, mid: Ledger, remote: Batch, o: Outcome, receipts: seq<u64>, height: nat)
  {
    && c'.pool == o.ledger.y && c'.table == o.ledger.table
    && (c'.locked.receiptHash, c'.locked.poolSize, c'.locked.lockedHeight) == (HashOf(remote), mid.x, height)
    && (receipts != [] || c.next.receipts == [] ==> c'.locked.receipts == receipts)
    && (c'.locked.orders, c'.locked.deposits, c'.locked.withdrawals) == (c.next.orders, c.next.deposits, c.next.withdrawals)
    && IsEmpty(c'.next)
  }

  lemma MidPointIs(c: Chain, remote: Batch)
    requires Sound(c) && (IsEmpty(c.locked) || IsAnswer(c.locked, remote))
    ensures SettleOwn(c, remote).Done? <==> MidPoint(c, remote).Some?
    ensures !SettleOwn(c, remote).Waiting?
    ensures SettleOwn(c, remote).Done? ==>
              var done, mid := SettleOwn(c, remote), MidPoint(c, remote).value;
              && LedgerOf(done.chain, done.shadow, false) == Ledger(mid.y, mid.x, mid.table)
              && Sound(done.chain) && IsEmpty(done.chain.locked) && done.chain.next == c.next
  {
    if !IsEmpty(c.locked) {
      SettlementIsFunded(c, remote);
      if SettleOwn(c, remote).Done? {
        SettleOwnFollowsLedger(c, remote);
      }
    }
  }

  /**
   * LIFECYCLE: a batch that does not answer a locked one is left waiting. Otherwise a sound chain handles it
   * exactly if the shared ledger can settle the chain's own batch and then execute the other's, and ends with
   * the ledger's reserve and points, its collected operations locked under the batch's hash, with the
   * receipts and the reserve at the mid-point.
   */
  lemma Lifecycle(c: Chain, remote: Batch, keyed: seq<Keyed>, sorted: seq<Keyed>, height: nat)
    requires Sound(c) && !IsEmpty(remote) && Shuffled(remote, keyed, sorted) && ValidWithdrawals(remote.withdrawals)
    ensures !IsEmpty(c.locked) && !IsAnswer(c.locked, remote) ==> HandleRemote(c, remote, keyed, sorted, height) == Some(c)
    ensures IsEmpty(c.locked) || IsAnswer(c.locked, remote) ==>
              match MidPoint(c, remote) {
                case None => HandleRemote(c, remote, keyed, sorted, height).None?
                case Some(mid) =>
                  match Execute(Ledger(mid.y, mid.x, mid.table), remote, keyed, sorted)
                  case None => HandleRemote(c, remote, keyed, sorted, height).None?
                  case Some((o, receipts)) =>
                    && HandleRemote(c, remote, keyed, sorted, height).Some?
                    && MovedOn(c, HandleRemote(c, remote, keyed, sorted, height).value, mid, remote, o, receipts, height)
              }
  {
    if IsEmpty(c.locked) || IsAnswer(c.locked, remote) {
      MidPointIs(c, remote);
      if SettleOwn(c, remote).Done? {
        var done := SettleOwn(c, remote);
        ExecutionIsFunded(done.chain, done.shadow, remote, keyed, sorted);
        if ExecuteRemote(done.chain, done.shadow, remote, keyed, sorted).Some? {
          ExecuteRemoteFollowsLedger(done.chain, done.shadow, remote, keyed, sorted);
          var executed := ExecuteRemote(done.chain, done.shadow, remote, keyed, sorted).value;
          RotationMeans(executed.0, Hash(remote), done.chain.pool, executed.2, height);
        }
      }
    }
  }

  lemma IncludeKeepsSound(c: Chain, height: nat)
    requires Sound(c)
    ensures Sound(Include(c, height)) && Tokens(Include(c, height)) == Tokens(c)
    ensures Owed(Include(c, height).locked) + Owed(Include(c, height).next) == Owed(c.locked) + Owed(c.next)
  {
    var o := CanMove(|c.locked.orders|, |c.next.orders|, MAX_ORDERS);
    var d := CanMove(|c.locked.deposits|, |c.next.deposits|, MAX_DEPOSITS);
    assert c.next.orders == c.next.orders[..o] + c.next.orders[o..];
    assert c.next.deposits == c.next.deposits[..d] + c.next.deposits[d..];
    OrdersTotalConcat(c.locked.orders, c.next.orders[..o]);
    OrdersTotalConcat(c.next.orders[..o], c.next.orders[o..]);
    DepositsTotalConcat(c.locked.deposits, c.next.deposits[..d]);
    DepositsTotalConcat(c.next.deposits[..d], c.next.deposits[d..]);
  }

  /** Every step keeps the chain sound, and every step of the exchange itself keeps its tokens. */
  lemma StepKeepsSound(c: Chain, self: nat, s: Step)
    requires Sound(c) && Allowed(c, s)
    ensures Sound(Take(c, self, s))
    ensures !s.Elsewhere? ==> Tokens(Take(c, self, s)) == Tokens(c)
  {
    match s {
      case Order(_, _) => MessagesKeepSound(c, self, s);
      case Deposit(_, _) => MessagesKeepSound(c, self, s);
      case Withdrawal(_) => MessagesKeepSound(c, self, s);
      case Remote(remote, keyed, sorted, height) => RemoteKeepsSound(c, remote, keyed, sorted, height);
      case IncludeLate(height) => IncludeKeepsSound(c, height);
      case Refund(points) => FallbackIsFunded(c, points);
      case ResetCommittee =>
      case Elsewhere(_, _) =>
    }
  }

  /** One chain state follows from another by an allowed step. */
  ghost predicate Takes(c: Chain, c': Chain, self: nat, s: Step)
  {
    Allowed(c, s) && c' == Take(c, self, s)
  }

  lemma TakenKeepsSound(c: Chain, c': Chain, self: nat, s: Step)
    requires Sound(c) && Takes(c, c', self, s)
    ensures Sound(c') && (!s.Elsewhere? ==> Tokens(c') == Tokens(c))
  {
    StepKeepsSound(c, self, s);
  }

  /** A run: each state follows from the one before by an allowed step. */
  ghost predicate IsRun(states: seq<Chain>, self: nat, steps: seq<Step>)
  {
    && |states| == |steps| + 1
    && forall i :: 0 <= i < |steps| ==> Takes(states[i], states[i + 1], self, steps[i])
  }

  /** HOLDING COVERAGE: in every state of every run the holding pool covers all open orders and deposits. */
  lemma {:induction false} HoldingAlwaysCovers(states: seq<Chain>, self: nat, steps: seq<Step>, i: nat)
    requires IsRun(states, self, steps) && Sound(states[0]) && i < |states|
    ensures Sound(states[i])
    ensures (forall j :: 0 <= j < |steps| ==> !steps[j].Elsewhere?) ==> Tokens(states[i]) == Tokens(states[0])
  {
    if i > 0 {
      HoldingAlwaysCovers(states, self, steps, i - 1);
      TakenKeepsSound(states[i - 1], states[i], self, steps[i - 1]);
    }
  }
}
