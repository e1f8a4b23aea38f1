/** One chain's side of the exchange: its accounts, holding pool, liquidity pool and batches. */
module DexChains {
  import opened Options
  import opened Uint64
  import opened Balances
  import opened LpPoints
  import opened LpWithdrawals
  import opened LpDeposits
  import opened AmmOrders
  import opened DexBatches

  const MAX_ORDERS: nat := 10_000
  const MAX_DEPOSITS: nat := 5_000
  const MAX_WITHDRAWS: nat := 5_000

  type Accounts = map<nat, u64>

  /** A payout: who gets how much. */
  datatype Due = Due(address: nat, amount: u64)

  datatype Chain = Chain(
    accounts: Accounts,
    holding: u64,   // funds of orders and deposits not settled yet
    pool: u64,      // this chain's reserve
    table: Table,   // liquidity points
    locked: Batch,  // the batch the counter chain is processing
    next: Batch)    // the batch that collects new operations

  function Credit(accounts: Accounts, due: Due): (r: Option<Accounts>)
  {
    Credited(accounts, due.address, due.amount)
  }

  function CreditAll(accounts: Accounts, dues: seq<Due>): (r: Option<Accounts>)
  {
    if dues == [] then Some(accounts)
    else
      var before := CreditAll(accounts, dues[..|dues| - 1]);
      if before.None? then None else Credit(before.value, dues[|dues| - 1])
  }

  function OrdersTotal(orders: seq<Order>): (total: nat)
  {
    if orders == [] then 0 else OrdersTotal(orders[..|orders| - 1]) + orders[|orders| - 1].amount
  }

  function DepositsTotal(ds: seq<Deposit>): (total: nat)
  {
    if ds == [] then 0 else DepositsTotal(ds[..|ds| - 1]) + ds[|ds| - 1].amount
  }

  /** Failed orders are refunded to their sellers. */
  function Refunds(orders: seq<Order>, receipts: seq<u64>): (dues: seq<Due>)
    requires |orders| == |receipts|
    ensures |dues| == |orders|
  {
    seq(|orders|, i requires 0 <= i < |orders| =>
      Due(orders[i].address, if receipts[i] == 0 then orders[i].amount else 0))
  }

  function Payouts(keyed: seq<Keyed>, receipts: seq<u64>): (dues: seq<Due>)
    requires |keyed| == |receipts|
    ensures |dues| == |keyed|
  {
    seq(|keyed|, i requires 0 <= i < |keyed| => Due(keyed[i].order.address, receipts[i]))
  }

  /** Each chain pays withdrawals from the reserve it holds. */
  function Shares(payments: seq<Payment>, local: bool): (dues: seq<Due>)
    ensures |dues| == |payments|
  {
    seq(|payments|, i requires 0 <= i < |payments| =>
      Due(payments[i].address, if local then payments[i].xShare else payments[i].yShare))
  }

  /** The shared ledger seen from this chain: x is the reserve of the batch's origin. */
  function LedgerOf(c: Chain, shadow: u64, local: bool): (l: Ledger)
  {
    if local then Ledger(c.pool, shadow, c.table) else Ledger(shadow, c.pool, c.table)
  }

  function Own(l: Ledger, local: bool): (amount: u64) { if local then l.x else l.y }
  function Other(l: Ledger, local: bool): (amount: u64) { if local then l.y else l.x }

  // ---------------------------------------------------------------- one batch, step by step

  function OwnOrders(c: Chain, shadow: u64, receipts: seq<u64>): (r: Option<(Chain, u64)>)
    requires |receipts| == |c.locked.orders|
  {
    var orders := c.locked.orders;
    var settled := SettleAll(Reserves(c.pool, shadow), orders, receipts);
    var credited := CreditAll(c.accounts, Refunds(orders, receipts));
    if settled.None? || credited.None? || c.holding < OrdersTotal(orders) then None
    else Some((c.(accounts := credited.value, holding := c.holding - OrdersTotal(orders), pool := settled.value.x),
               settled.value.y))
  }

  function RemoteOrders(c: Chain, shadow: u64, keyed: seq<Keyed>, sorted: seq<Keyed>): (r: Option<(Chain, u64, seq<u64>)>)
  {
    if shadow == 0 || c.pool == 0 then None
    else
      var filled := FillAll(Fill(shadow, c.pool, map[]), sorted);
      if filled.None? then None
      else
        var receipts := Receipts(keyed, filled.value.result);
        var credited := CreditAll(c.accounts, Payouts(keyed, receipts));
        if credited.None? || c.pool < SumReceipts(receipts) then None
        else Some((c.(accounts := credited.value, pool := c.pool - SumReceipts(receipts)), filled.value.x, receipts))
  }

  function Withdrawals(c: Chain, shadow: u64, ws: seq<Withdrawal>, local: bool): (r: Option<(Chain, u64)>)
  {
    var withdrawn := Withdraw(LedgerOf(c, shadow, local), ws);
    if withdrawn.None? then None
    else
      var (l, payments) := withdrawn.value;
      var credited := CreditAll(c.accounts, Shares(payments, local));
      if credited.None? then None
      else Some((c.(accounts := credited.value, pool := Own(l, local), table := l.table), Other(l, local)))
  }

  function Deposits(c: Chain, shadow: u64, ds: seq<Deposit>, local: bool): (r: Option<(Chain, u64)>)
  {
    var l := LedgerOf(c, shadow, local);
    var deposited := DepositBatch(l, ds);
    var taken := if local then Moved(l, ds) else 0;
    if deposited.None? || c.holding < taken then None
    else
      Some((c.(holding := c.holding - taken, pool := Own(deposited.value, local), table := deposited.value.table),
            Other(deposited.value, local)))
  }

  /** HandleReceiptsForOurLockedBatch: done, still waiting for the counter chain, or an error. */
  datatype Settled = Waiting | Failed | Done(chain: Chain, shadow: u64)

  predicate Answers(remote: Batch, local: Batch)
  {
    remote.receiptHash == Hash(local) && |local.orders| == |remote.receipts|
  }

  function SettleOwn(c: Chain, remote: Batch): (r: Settled)
  {
    if IsEmpty(c.locked) then Done(c, remote.poolSize)
    else if !Answers(remote, c.locked) then Waiting
    else
      var orders := OwnOrders(c, remote.poolSize, remote.receipts);
      if orders.None? then Failed
      else
        var withdrawn := Withdrawals(orders.value.0, orders.value.1, c.locked.withdrawals, true);
        if withdrawn.None? then Failed
        else
          var deposited := Deposits(withdrawn.value.0, withdrawn.value.1, c.locked.deposits, true);
          if deposited.None? then Failed
          else Done(deposited.value.0.(locked := EmptyBatch(c.locked.committee, deposited.value.0.pool)), deposited.value.1)
  }

  /** HandleRemoteChainLockedBatch: the chain afterwards and the receipts. */
  function ExecuteRemote(c: Chain, shadow: u64, remote: Batch, keyed: seq<Keyed>, sorted: seq<Keyed>)
    : (r: Option<(Chain, u64, seq<u64>)>)
  {
    var orders := RemoteOrders(c, shadow, keyed, sorted);
    if orders.None? then None
    else
      var withdrawn := Withdrawals(orders.value.0, orders.value.1, remote.withdrawals, false);
      if withdrawn.None? then None
      else
        var deposited := Deposits(withdrawn.value.0, withdrawn.value.1, remote.deposits, false);
        if deposited.None? then None
        else Some((deposited.value.0, deposited.value.1, orders.value.2))
  }

  /** RotateDexBatches: the next batch becomes the locked one, unless one is still locked. */
  function Rotate(c: Chain, hash: ReceiptHash, poolSize: u64, receipts: seq<u64>, height: nat): (r: Chain)
  {
    if !IsEmpty(c.locked) then c
    else c.(locked := c.next.(poolSize := poolSize, receiptHash := hash, lockedHeight := height,
                              receipts := if receipts != [] then receipts else c.next.receipts),
            next := EmptyBatch(c.next.committee, c.pool))
  }

  /** HandleRemoteDexBatch: None is an error, after which the enclosing transaction drops all changes. */
  function HandleRemote(c: Chain, remote: Batch, keyed: seq<Keyed>, sorted: seq<Keyed>, height: nat): (r: Option<Chain>)
  {
    if IsEmpty(remote) then Some(Rotate(c, Hash(remote), c.pool, [], height))
    else
      match SettleOwn(c, remote)
      case Waiting => Some(c)
      case Failed => None
      case Done(mid, shadow) =>
        var executed := ExecuteRemote(mid, shadow, remote, keyed, sorted);
        if executed.None? then None
        else Some(Rotate(executed.value.0, Hash(remote), mid.pool, executed.value.2, height))
  }

  /** As many as fit: how many of the waiting operations may still join a locked batch. */
  function CanMove(lockedLen: nat, nextLen: nat, max: nat): (n: nat)
    ensures n <= nextLen && (n > 0 ==> lockedLen + n <= max)
  {
    if nextLen == 0 || lockedLen >= max then 0
    else if nextLen < max - lockedLen then nextLen else max - lockedLen
  }

  /** IncludeSameBlockDex: operations of the block in which a batch was locked may still join it. */
  function Include(c: Chain, height: nat): (r: Chain)
  {
    if IsEmpty(c.locked) || c.locked.lockedHeight != height then c
    else
      var o := CanMove(|c.locked.orders|, |c.next.orders|, MAX_ORDERS);
      var d := CanMove(|c.locked.deposits|, |c.next.deposits|, MAX_DEPOSITS);
      var w := CanMove(|c.locked.withdrawals|, |c.next.withdrawals|, MAX_WITHDRAWS);
      c.(locked := c.locked.(orders := c.locked.orders + c.next.orders[..o],
                             deposits := c.locked.deposits + c.next.deposits[..d],
                             withdrawals := c.locked.withdrawals + c.next.withdrawals[..w]),
         next := c.next.(orders := c.next.orders[o..], deposits := c.next.deposits[d..],
                         withdrawals := c.next.withdrawals[w..]))
  }

  // ---------------------------------------------------------------- messages, fallback and reset

  /** The pool size the next batch shows: the pool's own until a first operation is stored with it. */
  function NextPoolSize(c: Chain): (size: u64)
  {
    if IsEmpty(c.next) then c.pool else c.next.poolSize
  }

  /** AccountSub, of which only `spendable` is authorized, followed by PoolAdd on the holding pool. */
  function Hold(c: Chain, address: nat, amount: u64, spendable: u64): (r: Option<Chain>)
    requires spendable <= Amount(c.accounts, address)
  {
    var debited := Debited(c.accounts, address, amount, spendable);
    if debited.None? then None else Some(c.(accounts := debited.value, holding := (c.holding + amount) % LIMIT))
  }

  /** HandleMessageDexLimitOrder; `self` is this chain's own id. */
  function EnqueueOrder(c: Chain, self: nat, o: Order, spendable: u64): (r: Option<Chain>)
    requires spendable <= Amount(c.accounts, o.address)
  {
    if NextPoolSize(c) == 0 || self == c.next.committee || |c.next.orders| >= MAX_ORDERS then None
    else
      var held := Hold(c, o.address, o.amount, spendable);
      if held.None? then None
      else Some(held.value.(next := c.next.(poolSize := NextPoolSize(c), orders := c.next.orders + [o])))
  }

  /** HandleMessageDexLiquidityDeposit */
  function EnqueueDeposit(c: Chain, self: nat, d: Deposit, spendable: u64): (r: Option<Chain>)
    requires spendable <= Amount(c.accounts, d.address)
  {
    if c.pool == 0 || self == c.next.committee || |c.table.holders| >= MAX_PROVIDERS || |c.next.deposits| >= MAX_DEPOSITS then None
    else
      var held := Hold(c, d.address, d.amount, spendable);
      if held.None? then None
      else Some(held.value.(next := c.next.(poolSize := NextPoolSize(c), deposits := c.next.deposits + [d])))
  }

  /** HandleMessageDexLiquidityWithdraw */
  function EnqueueWithdrawal(c: Chain, self: nat, w: Withdrawal): (r: Option<Chain>)
  {
    if NextPoolSize(c) == 0 || self == c.next.committee || |c.next.withdrawals| >= MAX_WITHDRAWS || !IsHolder(c.table, w.address)
    then None
    else Some(c.(next := c.next.(poolSize := NextPoolSize(c), withdrawals := c.next.withdrawals + [w])))
  }

  function Given(orders: seq<Order>): (dues: seq<Due>)
    ensures |dues| == |orders|
  {
    seq(|orders|, i requires 0 <= i < |orders| => Due(orders[i].address, orders[i].amount))
  }

  function GivenBack(ds: seq<Deposit>): (dues: seq<Due>)
    ensures |dues| == |ds|
  {
    seq(|ds|, i requires 0 <= i < |ds| => Due(ds[i].address, ds[i].amount))
  }

  /** Everything a batch still holds of its senders' funds. */
  function OpenDues(b: Batch): (dues: seq<Due>)
  {
    Given(b.orders) + GivenBack(b.deposits)
  }

  /** HandleLivenessFallback: refund the locked orders and deposits, adopt the root's points, drop the batch. */
  function Fallback(c: Chain, points: Table): (r: Option<Chain>)
  {
    var owed := OrdersTotal(c.locked.orders) + DepositsTotal(c.locked.deposits);
    var refunded := CreditAll(c.accounts, OpenDues(c.locked));
    if c.holding < owed || refunded.None? then None
    else Some(c.(accounts := refunded.value, holding := c.holding - owed, table := points, locked := EmptyBatch(c.locked.committee, c.pool)))
  }

  /** A committee reset deletes the locked batch; the funds of its operations stay in the holding pool. */
  function Reset(c: Chain): (r: Chain)
  {
    c.(locked := EmptyBatch(c.locked.committee, c.pool))
  }

  // ---------------------------------------------------------------- the chain's steps follow the shared ledger

  /** Settling its own batch moves the chain exactly as the shared ledger says. */
  lemma SettleOwnFollowsLedger(c: Chain, remote: Batch)
    requires !IsEmpty(c.locked) && SettleOwn(c, remote).Done?
    ensures Answers(remote, c.locked)
    ensures var l, done := LedgerOf(c, remote.poolSize, true), SettleOwn(c, remote);
            && Settle(l, c.locked, remote.receipts).Some?
            && var o := Settle(l, c.locked, remote.receipts).value;
               && LedgerOf(done.chain, done.shadow, true) == o.ledger
               && done.chain.holding == c.holding - OrdersTotal(c.locked.orders) - o.moved
               && done.chain.next == c.next && IsEmpty(done.chain.locked)
               && done.chain.locked.committee == c.locked.committee
  {
  }

  /** Executing the counter chain's batch moves the chain exactly as the shared ledger says. */
  lemma ExecuteRemoteFollowsLedger(c: Chain, shadow: u64, remote: Batch, keyed: seq<Keyed>, sorted: seq<Keyed>)
    requires Shuffled(remote, keyed, sorted) && ExecuteRemote(c, shadow, remote, keyed, sorted).Some?
    ensures var l, (c', shadow', receipts) := LedgerOf(c, shadow, false), ExecuteRemote(c, shadow, remote, keyed, sorted).value;
            && Execute(l, remote, keyed, sorted).Some?
            && var (o, receipts') := Execute(l, remote, keyed, sorted).value;
               && receipts == receipts' && LedgerOf(c', shadow', false) == o.ledger
               && c'.holding == c.holding && c'.next == c.next && c'.locked == c.locked
  {
    BatchExecution(shadow, c.pool, sorted, keyed);
  }

  /** While a batch is locked nothing rotates; otherwise the collected operations are locked with exactly these marks. */
  lemma RotationMeans(c: Chain, hash: ReceiptHash, poolSize: u64, receipts: seq<u64>, height: nat)
    ensures var c' := Rotate(c, hash, poolSize, receipts, height);
            && (c'.accounts, c'.holding, c'.pool, c'.table) == (c.accounts, c.holding, c.pool, c.table)
            && (!IsEmpty(c.locked) ==> c' == c)
            && (IsEmpty(c.locked) ==>
                  && (c'.locked.orders, c'.locked.deposits, c'.locked.withdrawals)
                     == (c.next.orders, c.next.deposits, c.next.withdrawals)
                  && (c'.locked.receiptHash, c'.locked.poolSize, c'.locked.lockedHeight, c'.locked.committee)
                     == (hash, poolSize, height, c.next.committee)
                  && (c.next.receipts == [] || receipts != [] ==> c'.locked.receipts == receipts)
                  && IsEmpty(c'.next) && c'.next.committee == c.next.committee && c'.next.poolSize == c.pool)
  {
  }

  /** A new operation is taken if there is a pool, the batch is another chain's, it has room, and the funds are there. */
  lemma OrderIsAccepted(c: Chain, self: nat, o: Order, spendable: u64)
    requires spendable <= Amount(c.accounts, o.address) && c.holding + o.amount < LIMIT
    ensures var shown := if IsEmpty(c.next) then c.pool else c.next.poolSize;
            && (EnqueueOrder(c, self, o, spendable).Some? <==>
                  shown > 0 && self != c.next.committee && |c.next.orders| < MAX_ORDERS && o.amount <= spendable)
            && (EnqueueOrder(c, self, o, spendable).Some? ==>
                  var c' := EnqueueOrder(c, self, o, spendable).value;
                  && c'.next == c.next.(poolSize := shown, orders := c.next.orders + [o])
                  && c'.holding == c.holding + o.amount
                  && (c'.pool, c'.table, c'.locked) == (c.pool, c.table, c.locked))
  {
  }

  lemma DepositIsAccepted(c: Chain, self: nat, d: Deposit, spendable: u64)
    requires spendable <= Amount(c.accounts, d.address) && c.holding + d.amount < LIMIT
    ensures EnqueueDeposit(c, self, d, spendable).Some? <==>
              && c.pool > 0 && self != c.next.committee && |c.table.holders| < MAX_PROVIDERS
              && |c.next.deposits| < MAX_DEPOSITS && d.amount <= spendable
    ensures EnqueueDeposit(c, self, d, spendable).Some? ==>
              var c', shown := EnqueueDeposit(c, self, d, spendable).value, if IsEmpty(c.next) then c.pool else c.next.poolSize;
              && c'.next == c.next.(poolSize := shown, deposits := c.next.deposits + [d])
              && c'.holding == c.holding + d.amount
              && (c'.pool, c'.table, c'.locked) == (c.pool, c.table, c.locked)
  {
  }

  lemma WithdrawalIsAccepted(c: Chain, self: nat, w: Withdrawal)
    ensures var shown := if IsEmpty(c.next) then c.pool else c.next.poolSize;
            EnqueueWithdrawal(c, self, w)
            == if shown > 0 && self != c.next.committee && |c.next.withdrawals| < MAX_WITHDRAWS
                  && (exists h <- c.table.holders :: h.address == w.address)
               then Some(c.(next := c.next.(poolSize := shown, withdrawals := c.next.withdrawals + [w])))
               else None
  {
    NoHolder(c.table, w.address);
  }
}
