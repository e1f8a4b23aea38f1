/**
 * The exchange as the state machine runs it: loops over a batch that update the stored accounts and pools one
 * entry at a time, proved equal to the functions of DexChains. A loop that meets an error changes nothing
 * more; what it changed before is dropped with the enclosing transaction.
 */
module DexNode {
  import opened Options
  import opened Uint64
  import opened Balances
  import opened LpPoints
  import opened LpWithdrawals
  import opened LpDeposits
  import opened AmmOrders
  import opened DexBatches
  import opened DexChains
  import opened DexHolding
  import DexPayouts

  class DexChain {
    var accounts: Accounts
    var holding: u64
    var pool: u64
    var table: Table
    var locked: Batch
    var next: Batch

    function State(): (c: Chain)
      reads this
    {
      Chain(accounts, holding, pool, table, locked, next)
    }

    constructor (c: Chain)
      ensures State() == c
    {
      accounts, holding, pool, table, locked, next := c.accounts, c.holding, c.pool, c.table, c.locked, c.next;
    }

    method AccountAdd(address: nat, amount: u64) returns (ok: bool)
      modifies this`accounts
      ensures ok <==> DexChains.Credit(old(accounts), Due(address, amount)).Some?
      ensures accounts == if ok then DexChains.Credit(old(accounts), Due(address, amount)).value else old(accounts)
    {
      if amount == 0 {
        return true;
      }
      var balance := Amount(accounts, address);
      if balance > LIMIT - 1 - amount {
        return false;
      }
      accounts := accounts[address := balance + amount];
      return true;
    }

    /** One order's receipt: `x` is the own reserve, `y` the shadow of the other. */
    method HandleOrderReceipt(o: Order, dY: u64, x0: u64, y0: u64) returns (ok: bool, x: u64, y: u64)
      requires x0 == pool
      modifies this`accounts, this`holding, this`pool
      ensures ok <==> SettledOrder(old(accounts), old(holding), Reserves(x0, y0), o, dY).Some?
      ensures ok ==> && SettledOrder(old(accounts), old(holding), Reserves(x0, y0), o, dY) == Some((accounts, holding, Reserves(x, y)))
                     && pool == x
    {
      ok, x, y := true, x0, y0;
      if holding < o.amount {
        return false, x, y;
      }
      holding := holding - o.amount;
      if dY == 0 {
        ok := AccountAdd(o.address, o.amount);
      } else if y <= dY {
        ok := false;
      } else {
        x, y := (x + o.amount) % LIMIT, y - dY;
        pool := (pool + o.amount) % LIMIT;
      }
    }

    /** Receipts for the orders of the own locked batch. */
    method HandleOrderReceipts(receipts: seq<u64>, y0: u64) returns (ok: bool, x: u64, y: u64)
      requires |receipts| == |locked.orders|
      modifies this`accounts, this`holding, this`pool
      ensures ok <==> OwnOrders(old(State()), y0, receipts).Some?
      ensures ok ==> (State(), y) == OwnOrders(old(State()), y0, receipts).value && x == pool
    {
      var orders := locked.orders;
      ok, x, y := true, pool, y0;
      for i := 0 to |orders|
        invariant ok <==> SettledOrders(old(accounts), old(holding), Reserves(old(pool), y0), orders[..i], receipts[..i]).Some?
        invariant ok ==> && SettledOrders(old(accounts), old(holding), Reserves(old(pool), y0), orders[..i], receipts[..i])
                            == Some((accounts, holding, Reserves(x, y)))
                         && pool == x
      {
        SettledOrdersStep(old(accounts), old(holding), Reserves(old(pool), y0), orders, receipts, i);
        if ok {
          ok, x, y := HandleOrderReceipt(orders[i], receipts[i], x, y);
        }
      }
      assert orders[..|orders|] == orders && receipts[..|orders|] == receipts;
    }

    /** Pays every receipt that is not zero out of the reserve. */
    method PayReceipts(keyed: seq<Keyed>, result: map<nat, u64>) returns (ok: bool, receipts: seq<u64>)
      modifies this`accounts, this`pool
      ensures receipts == Receipts(keyed, result)
      ensures ok <==> CreditAll(old(accounts), Payouts(keyed, receipts)).Some? && SumReceipts(receipts) <= old(pool)
      ensures ok ==> CreditAll(old(accounts), Payouts(keyed, receipts)) == Some(accounts)
                     && pool == old(pool) - SumReceipts(receipts)
    {
      ok, receipts := true, [];
      for i := 0 to |keyed|
        invariant receipts == Receipts(keyed[..i], result)
        invariant ok <==> CreditAll(old(accounts), Payouts(keyed[..i], receipts)).Some? && SumReceipts(receipts) <= old(pool)
        invariant ok ==> && CreditAll(old(accounts), Payouts(keyed[..i], receipts)) == Some(accounts)
                         && pool == old(pool) - SumReceipts(receipts)
      {
        var out := Out(result, keyed[i]);
        PayoutStep(keyed, receipts, i, out);
        receipts := receipts + [out];
        assert receipts == Receipts(keyed[..i + 1], result);
        if ok && out != 0 {
          if pool < out {
            ok := false;
          } else {
            pool := pool - out;
            ok := AccountAdd(keyed[i].order.address, out);
          }
        }
      }
      assert keyed[..|keyed|] == keyed;
    }

    /** Executes the orders of the counter chain's batch: in hash order, then paid out in their own order. */
    method HandleDexBatchOrders(keyed: seq<Keyed>, sorted: seq<Keyed>, x0: u64)
      returns (ok: bool, x: u64, y: u64, receipts: seq<u64>)
      requires multiset(sorted) == multiset(keyed) && DistinctKeys(sorted)
      modifies this`accounts, this`pool
      ensures ok <==> RemoteOrders(old(State()), x0, keyed, sorted).Some?
      ensures ok ==> (State(), x, receipts) == RemoteOrders(old(State()), x0, keyed, sorted).value && y == pool
    {
      if x0 == 0 || pool == 0 {
        return false, x0, pool, [];
      }
      var result;
      receipts := [];
      ok, x, y, result := FillOrders(sorted, x0, pool);
      if ok {
        BatchExecution(x0, pool, sorted, keyed);
        ok, receipts := PayReceipts(keyed, result);
      }
    }

    /** One withdrawal: burn the holder's points and credit its share. */
    method PayWithdrawal(p: Progress, w: Withdrawal, totals: Totals, local: bool) returns (ok: bool, p': Progress)
      modifies this`accounts
      ensures ok <==> PayAndCredit(p, old(accounts), w, totals, local).Some?
      ensures ok ==> PayAndCredit(p, old(accounts), w, totals, local) == Some((p', accounts))
    {
      var at := FindHolder(p.table.holders, w.address);
      if at == |p.table.holders| {
        return true, p;
      }
      var points := MulDiv(p.table.holders[at].points, w.percent, 100);
      var yShare := MulDiv(totals.y, points, totals.points);
      var xShare := MulDiv(totals.x, points, totals.points);
      var removed := RemovePoints(p.table, w.address, points);
      if removed.None? {
        return false, p;
      }
      p' := Progress(removed.value, (p.paidX + xShare) % LIMIT, (p.paidY + yShare) % LIMIT,
                     p.payments + [Payment(w.address, xShare, yShare)]);
      ok := AccountAdd(w.address, if local then xShare else yShare);
    }

    /** The second pass of a batch of withdrawals. */
    method PayWithdrawals(ws: seq<Withdrawal>, totals: Totals, local: bool) returns (ok: bool, p: Progress)
      modifies this`accounts
      ensures ok <==> PaidOut(old(accounts), table, ws, totals, local).Some?
      ensures ok ==> PaidOut(old(accounts), table, ws, totals, local) == Some((p, accounts))
    {
      ok, p := true, Progress(table, 0, 0, []);
      for i := 0 to |ws|
        invariant ok <==> PaidOut(old(accounts), table, ws[..i], totals, local).Some?
        invariant ok ==> PaidOut(old(accounts), table, ws[..i], totals, local) == Some((p, accounts))
      {
        PaidOutStep(old(accounts), table, ws, i, totals, local);
        if ok {
          ok, p := PayWithdrawal(p, ws[i], totals, local);
        }
      }
      assert ws[..|ws|] == ws;
    }

    /** Burns points and pays this chain's shares: `local` when the batch is this chain's own. */
    method HandleBatchWithdraw(ws: seq<Withdrawal>, shadow: u64, local: bool) returns (ok: bool, shadow': u64)
      modifies this`accounts, this`pool, this`table
      ensures ok <==> Withdrawals(old(State()), shadow, ws, local).Some?
      ensures ok ==> (State(), shadow') == Withdrawals(old(State()), shadow, ws, local).value
    {
      var x, y := if local then pool else shadow, if local then shadow else pool;
      shadow' := shadow;
      if |ws| == 0 {
        return true, shadow;
      }
      var total := FirstPassLoop(table, ws);
      if total.None? {
        return false, shadow;
      }
      if total.value == 0 || table.total == 0 {
        return true, shadow;
      }
      var totals := Totals(total.value, MulDiv(x, total.value, table.total), MulDiv(y, total.value, table.total));
      var p;
      ok, p := PayWithdrawals(ws, totals, local);
      if ok {
        x, y := WrapSub(x, p.paidX), WrapSub(y, p.paidY);
        pool, table := if local then x else y, p.table;
        shadow' := if local then y else x;
      }
    }

    /** One deposit: its share of the points, and its funds where it was made. */
    method MintDeposit(m: Minting, d: Deposit, totalDL: u64, total: u64, local: bool) returns (ok: bool, m': Minting)
      modifies this`holding
      ensures ok <==> MintOne(m, d, totalDL, total).Some? && (local ==> d.amount <= old(holding))
      ensures ok ==> && MintOne(m, d, totalDL, total) == Some(m')
                     && holding == old(holding) - if local then d.amount else 0
    {
      m' := m;
      var share := MulDiv(totalDL, d.amount, total);
      var at := FindHolder(m.table.holders, d.address);
      if share > 0 && at == |m.table.holders| && |m.table.holders| >= MAX_PROVIDERS {
        return false, m;
      }
      var p;
      ok, p := LpPoints.Credit(m.table, d.address, share);
      if !ok || (local && holding < d.amount) || m.x > LIMIT - 1 - d.amount {
        return false, m;
      }
      holding := if local then holding - d.amount else holding;
      m' := Minting(p, m.x + d.amount, m.distributed + share);
    }

    /** Gives every deposit its share of the minted points. */
    method MintDeposits(ds: seq<Deposit>, start: Minting, totalDL: u64, total: u64, local: bool)
      returns (ok: bool, m: Minting)
      requires start.distributed == 0
      modifies this`holding
      ensures ok <==> MintAll(start, ds, totalDL, total).Some? && (local ==> DepositsTotal(ds) <= old(holding))
      ensures ok ==> && MintAll(start, ds, totalDL, total) == Some(m)
                     && m.distributed == LpDeposits.Shares(ds, totalDL, total)
                     && holding == old(holding) - if local then DepositsTotal(ds) else 0
    {
      ok, m := true, start;
      for i := 0 to |ds|
        invariant ok <==> MintAll(start, ds[..i], totalDL, total).Some? && (local ==> DepositsTotal(ds[..i]) <= old(holding))
        invariant ok ==> && MintAll(start, ds[..i], totalDL, total) == Some(m)
                         && m.distributed == LpDeposits.Shares(ds[..i], totalDL, total)
                         && holding == old(holding) - if local then DepositsTotal(ds[..i]) else 0
      {
        assert ds[..i + 1][..i] == ds[..i];
        if ok {
          ok, m := MintDeposit(m, ds[i], totalDL, total, local);
        }
      }
      assert ds[..|ds|] == ds;
    }

    /** Hands out the minted points, then sinks the rounding dust to the dead account. */
    method HandOut(l: Ledger, ds: seq<Deposit>, seeded: Table, totalDL: u64, total: u64, local: bool)
      returns (ok: bool, l': Ledger)
      requires total > 0 && TotalDeposit(ds) == Some(total)
      modifies this`holding
      ensures ok <==> DepositInto(l, seeded, ds, totalDL, total).Some? && (local ==> total <= old(holding))
      ensures ok ==> && DepositInto(l, seeded, ds, totalDL, total) == Some(l')
                     && holding == old(holding) - if local then total else 0
    {
      TotalDepositIs(ds);
      l' := l;
      var m;
      ok, m := MintDeposits(ds, Minting(seeded, l.x, 0), totalDL, total, local);
      if ok {
        SharesFit(ds, totalDL, total);
        var p;
        ok, p := LpPoints.Credit(m.table, DEAD, totalDL - m.distributed);
        l' := Ledger(m.x, l.y, p);
      }
    }

    /** The points of the deposits on a pool with both reserves, after seeding a pool that has none. */
    method Mint(l: Ledger, ds: seq<Deposit>, total: u64, local: bool) returns (ok: bool, l': Ledger)
      requires l.x > 0 && l.y > 0 && total > 0 && TotalDeposit(ds) == Some(total)
      modifies this`holding
      ensures ok <==> DepositBatch(l, ds).Some? && (local ==> total <= old(holding))
      ensures ok ==> DepositBatch(l, ds) == Some(l') && holding == old(holding) - if local then total else 0
    {
      var p := l.table;
      if p.total == 0 {
        ok, p := LpPoints.Credit(p, DEAD, SqrtProduct(l.x, l.y));
        if !ok {
          return false, l;
        }
      }
      assert Seeded(l) == Some(p);
      var oldK := SqrtProduct(l.x, l.y);
      if oldK == 0 || l.x > LIMIT - 1 - total {
        return false, l;
      }
      var newK := SqrtProduct(l.x + total, l.y);
      if newK < oldK {
        return false, l;
      }
      ok, l' := HandOut(l, ds, p, MulDiv(p.total, newK - oldK, oldK), total, local);
    }

    /** Mints points for the batch's deposits; the funds move only on the chain they were deposited on. */
    method HandleBatchDeposit(ds: seq<Deposit>, shadow: u64, local: bool) returns (ok: bool, shadow': u64)
      modifies this`holding, this`pool, this`table
      ensures ok <==> Deposits(old(State()), shadow, ds, local).Some?
      ensures ok ==> (State(), shadow') == Deposits(old(State()), shadow, ds, local).value
    {
      var l := LedgerOf(State(), shadow, local);
      if |ds| == 0 {
        return true, shadow;
      }
      var total := TotalDepositLoop(ds);
      if total.None? {
        return false, shadow;
      }
      if total.value == 0 || l.x == 0 || l.y == 0 {
        return true, shadow;
      }
      ok, l := Mint(l, ds, total.value, local);
      if ok {
        pool, table := Own(l, local), l.table;
      }
      shadow' := Other(l, local);
    }

    /** Step 1: the receipts for the own locked batch. */
    method HandleReceiptsForOurLockedBatch(remote: Batch) returns (settled: Settled)
      modifies this
      ensures settled == SettleOwn(old(State()), remote)
      ensures settled.Done? ==> State() == settled.chain
      ensures settled.Waiting? ==> State() == old(State())
    {
      if IsEmpty(locked) {
        return Done(State(), remote.poolSize);
      }
      if remote.receiptHash != Hash(locked) || |locked.orders| != |remote.receipts| {
        return Waiting;
      }
      var ok, x, y := HandleOrderReceipts(remote.receipts, remote.poolSize);
      if !ok {
        return Failed;
      }
      ok, y := HandleBatchWithdraw(locked.withdrawals, y, true);
      if !ok {
        return Failed;
      }
      ok, y := HandleBatchDeposit(locked.deposits, y, true);
      if !ok {
        return Failed;
      }
      locked := EmptyBatch(locked.committee, pool);
      return Done(State(), y);
    }

    /** Step 2: the counter chain's locked batch, producing receipts. */
    method HandleRemoteChainLockedBatch(remote: Batch, shadow: u64, keyed: seq<Keyed>, sorted: seq<Keyed>)
      returns (ok: bool, shadow': u64, receipts: seq<u64>)
      requires Shuffled(remote, keyed, sorted)
      modifies this
      ensures ok <==> ExecuteRemote(old(State()), shadow, remote, keyed, sorted).Some?
      ensures ok ==> (State(), shadow', receipts) == ExecuteRemote(old(State()), shadow, remote, keyed, sorted).value
    {
      var y;
      ok, shadow', y, receipts := HandleDexBatchOrders(keyed, sorted, shadow);
      if ok {
        ok, shadow' := HandleBatchWithdraw(remote.withdrawals, shadow', false);
      }
      if ok {
        ok, shadow' := HandleBatchDeposit(remote.deposits, shadow', false);
      }
    }

    /** Step 3: the next batch becomes the locked one; a locked batch stays, and no operation is lost or reordered. */
    method RotateDexBatches(hash: ReceiptHash, poolSize: u64, receipts: seq<u64>, height: nat)
      modifies this`locked, this`next
      ensures State() == Rotate(old(State()), hash, poolSize, receipts, height)
      ensures locked.orders + next.orders == old(locked.orders + next.orders)
      ensures locked.deposits + next.deposits == old(locked.deposits + next.deposits)
      ensures locked.withdrawals + next.withdrawals == old(locked.withdrawals + next.withdrawals)
      ensures !IsEmpty(old(locked)) ==> locked == old(locked) && next == old(next)
    {
      if !IsEmpty(locked) {
        return;
      }
      var batch := next.(poolSize := poolSize, receiptHash := hash, lockedHeight := height);
      if |receipts| != 0 {
        batch := batch.(receipts := receipts);
      }
      next := EmptyBatch(next.committee, pool);
      locked := batch;
    }

    /** The whole lifecycle step on a batch of the counter chain. */
    method HandleRemoteDexBatch(remote: Batch, keyed: seq<Keyed>, sorted: seq<Keyed>, height: nat) returns (ok: bool)
      requires Shuffled(remote, keyed, sorted)
      modifies this
      ensures ok <==> HandleRemote(old(State()), remote, keyed, sorted, height).Some?
      ensures ok ==> State() == HandleRemote(old(State()), remote, keyed, sorted, height).value
    {
      var receipts: seq<u64>, midPoint := [], pool;
      if !IsEmpty(remote) {
        var settled := HandleReceiptsForOurLockedBatch(remote);
        if !settled.Done? {
          return settled.Waiting?;
        }
        midPoint := pool;
        var shadow;
        ok, shadow, receipts := HandleRemoteChainLockedBatch(remote, settled.shadow, keyed, sorted);
        if !ok {
          return;
        }
      }
      RotateDexBatches(Hash(remote), midPoint, receipts, height);
      return true;
    }

    /** Funds of a new operation move from the account, of which `spendable` is authorized, to the holding pool. */
    method HoldFunds(address: nat, amount: u64, spendable: u64) returns (ok: bool)
      requires spendable <= Amount(accounts, address)
      modifies this`accounts, this`holding
      ensures ok <==> Hold(old(State()), address, amount, spendable).Some?
      ensures ok ==> State() == Hold(old(State()), address, amount, spendable).value
    {
      if spendable < amount {
        return false;
      }
      if amount != 0 {
        accounts := accounts[address := Amount(accounts, address) - amount];
      }
      holding := (holding + amount) % LIMIT;
      return true;
    }

    method HandleMessageDexLimitOrder(self: nat, o: Order, spendable: u64) returns (ok: bool)
      requires spendable <= Amount(accounts, o.address)
      modifies this`accounts, this`holding, this`next
      ensures ok <==> EnqueueOrder(old(State()), self, o, spendable).Some?
      ensures ok ==> State() == EnqueueOrder(old(State()), self, o, spendable).value
      ensures ok && Sound(old(State())) ==>
                && Sound(State()) && Tokens(State()) == Tokens(old(State())) && holding == old(holding) + o.amount
                && forall a :: Amount(accounts, a) + (if a == o.address then o.amount else 0) == Amount(old(accounts), a)
    {
      ghost var before := State();
      if Sound(before) && EnqueueOrder(before, self, o, spendable).Some? {
        HoldKeeps(before, o.address, o.amount, spendable);
        MessagesKeepSound(before, self, DexHolding.Order(o, spendable));
      }
      var batch := next.(poolSize := NextPoolSize(State()));
      if batch.poolSize == 0 || self == batch.committee || |batch.orders| >= MAX_ORDERS {
        return false;
      }
      ok := HoldFunds(o.address, o.amount, spendable);
      if ok {
        next := batch.(orders := batch.orders + [o]);
      }
    }

    method HandleMessageDexLiquidityDeposit(self: nat, d: Deposit, spendable: u64) returns (ok: bool)
      requires spendable <= Amount(accounts, d.address)
      modifies this`accounts, this`holding, this`next
      ensures ok <==> EnqueueDeposit(old(State()), self, d, spendable).Some?
      ensures ok ==> State() == EnqueueDeposit(old(State()), self, d, spendable).value
      ensures ok && Sound(old(State())) ==>
                && Sound(State()) && Tokens(State()) == Tokens(old(State())) && holding == old(holding) + d.amount
                && forall a :: Amount(accounts, a) + (if a == d.address then d.amount else 0) == Amount(old(accounts), a)
    {
      ghost var before := State();
      if Sound(before) && EnqueueDeposit(before, self, d, spendable).Some? {
        HoldKeeps(before, d.address, d.amount, spendable);
        MessagesKeepSound(before, self, DexHolding.Deposit(d, spendable));
      }
      var batch := next.(poolSize := NextPoolSize(State()));
      if pool == 0 || self == batch.committee || |table.holders| >= MAX_PROVIDERS || |batch.deposits| >= MAX_DEPOSITS {
        return false;
      }
      ok := HoldFunds(d.address, d.amount, spendable);
      if ok {
        next := batch.(deposits := batch.deposits + [d]);
      }
    }

    method HandleMessageDexLiquidityWithdraw(self: nat, w: Withdrawal) returns (ok: bool)
      modifies this`next
      ensures ok <==> EnqueueWithdrawal(old(State()), self, w).Some?
      ensures ok ==> State() == EnqueueWithdrawal(old(State()), self, w).value
      ensures ok && w.percent <= 100 && Sound(old(State())) ==> Sound(State())
      ensures ok ==> IsHolder(table, w.address) && |next.withdrawals| <= MAX_WITHDRAWS
    {
      var batch := next.(poolSize := NextPoolSize(State()));
      if batch.poolSize == 0 || self == batch.committee || |batch.withdrawals| >= MAX_WITHDRAWS {
        return false;
      }
      var at := FindHolder(table.holders, w.address);
      if at == |table.holders| {
        return false;
      }
      next := batch.(withdrawals := batch.withdrawals + [w]);
      return true;
    }

    /** Gives every due back out of the holding pool. */
    method RefundAll(dues: seq<Due>) returns (ok: bool)
      modifies this`accounts, this`holding
      ensures ok <==> SumDues(dues) <= old(holding) && CreditAll(old(accounts), dues).Some?
      ensures ok ==> CreditAll(old(accounts), dues) == Some(accounts) && holding == old(holding) - SumDues(dues)
    {
      ok := true;
      for i := 0 to |dues|
        invariant ok <==> SumDues(dues[..i]) <= old(holding) && CreditAll(old(accounts), dues[..i]).Some?
        invariant ok ==> CreditAll(old(accounts), dues[..i]) == Some(accounts) && holding == old(holding) - SumDues(dues[..i])
      {
        assert dues[..i + 1][..i] == dues[..i];
        if ok && holding < dues[i].amount {
          ok := false;
        } else if ok {
          holding := holding - dues[i].amount;
          ok := AccountAdd(dues[i].address, dues[i].amount);
        }
      }
      assert dues[..|dues|] == dues;
    }

    /** Refunds the locked batch, adopts the root chain's points, and drops the batch. */
    method HandleLivenessFallback(points: Table) returns (ok: bool)
      modifies this
      ensures ok <==> Fallback(old(State()), points).Some?
      ensures ok ==> State() == Fallback(old(State()), points).value
    {
      CreditAllConcat(accounts, Given(locked.orders), GivenBack(locked.deposits));
      GivenSum(locked.orders);
      GivenBackSum(locked.deposits);
      ok := RefundAll(Given(locked.orders));
      if ok {
        ok := RefundAll(GivenBack(locked.deposits));
      }
      if ok {
        table, locked := points, EmptyBatch(locked.committee, pool);
      }
    }

    /** Operations of the block that locked a batch may still join it. */
    method IncludeSameBlockDex(height: nat)
      modifies this`locked, this`next
      ensures State() == Include(old(State()), height)
      ensures locked.orders + next.orders == old(locked.orders + next.orders)
      ensures locked.deposits + next.deposits == old(locked.deposits + next.deposits)
      ensures locked.withdrawals + next.withdrawals == old(locked.withdrawals + next.withdrawals)
    {
      DexPayouts.IncludeKeepsOrder(State(), height);
      if IsEmpty(locked) || locked.lockedHeight != height {
        return;
      }
      var o := CanMove(|locked.orders|, |next.orders|, MAX_ORDERS);
      if o != 0 {
        locked := locked.(orders := locked.orders + next.orders[..o]);
        next := next.(orders := next.orders[o..]);
      }
      var d := CanMove(|locked.deposits|, |next.deposits|, MAX_DEPOSITS);
      if d != 0 {
        locked := locked.(deposits := locked.deposits + next.deposits[..d]);
        next := next.(deposits := next.deposits[d..]);
      }
      var w := CanMove(|locked.withdrawals|, |next.withdrawals|, MAX_WITHDRAWS);
      if w != 0 {
        locked := locked.(withdrawals := locked.withdrawals + next.withdrawals[..w]);
        next := next.(withdrawals := next.withdrawals[w..]);
      }
    }
  }

  /** Runs the orders against the two reserves, in the given order. */
  method FillOrders(sorted: seq<Keyed>, x0: u64, y0: u64) returns (ok: bool, x: u64, y: u64, result: map<nat, u64>)
    requires x0 > 0
    ensures ok <==> FillAll(Fill(x0, y0, map[]), sorted).Some?
    ensures ok ==> FillAll(Fill(x0, y0, map[]), sorted) == Some(Fill(x, y, result))
  {
    ok, x, y, result := true, x0, y0, map[];
    for i := 0 to |sorted|
      invariant x > 0
      invariant ok <==> FillAll(Fill(x0, y0, map[]), sorted[..i]).Some?
      invariant ok ==> FillAll(Fill(x0, y0, map[]), sorted[..i]) == Some(Fill(x, y, result))
    {
      assert sorted[..i + 1][..i] == sorted[..i];
      if ok {
        var o := sorted[i].order;
        ComputeDYFacts(x, y, o.amount);
        var dY: u64 := ComputeDY(x, y, o.amount);
        if dY < o.requested {
          dY := 0;
        }
        result := result[sorted[i].key := dY];
        if dY != 0 && x > LIMIT - 1 - o.amount {
          ok := false;
        } else if dY != 0 {
          x, y := x + o.amount, y - dY;
        }
      }
    }
    assert sorted[..|sorted|] == sorted;
  }

  // ---------------------------------------------------------------- one turn of each loop

  lemma {:induction false} CreditAllConcat(accounts: Accounts, a: seq<Due>, b: seq<Due>)
    ensures CreditAll(accounts, a + b)
            == if CreditAll(accounts, a).None? then None else CreditAll(CreditAll(accounts, a).value, b)
  {
    if b == [] {
      assert a + b == a;
    } else {
      assert (a + b)[..|a + b| - 1] == a + b[..|b| - 1];
      CreditAllConcat(accounts, a, b[..|b| - 1]);
    }
  }

  function SettledOrder(accounts: Accounts, holding: u64, r: Reserves, o: Order, dY: u64): (s: Option<(Accounts, u64, Reserves)>)
  {
    var settled := SettleOne(r, o, dY);
    var credited := DexChains.Credit(accounts, Due(o.address, if dY == 0 then o.amount else 0));
    if holding < o.amount || settled.None? || credited.None? then None
    else Some((credited.value, holding - o.amount, settled.value))
  }

  function SettledOrders(accounts: Accounts, holding: u64, r: Reserves, orders: seq<Order>, receipts: seq<u64>)
    : (s: Option<(Accounts, u64, Reserves)>)
    requires |orders| == |receipts|
  {
    var settled := SettleAll(r, orders, receipts);
    var credited := CreditAll(accounts, Refunds(orders, receipts));
    if settled.None? || credited.None? || holding < OrdersTotal(orders) then None
    else Some((credited.value, holding - OrdersTotal(orders), settled.value))
  }

  lemma SettledOrdersStep(accounts: Accounts, holding: u64, r: Reserves, orders: seq<Order>, receipts: seq<u64>, i: nat)
    requires |orders| == |receipts| && i < |orders|
    ensures var before := SettledOrders(accounts, holding, r, orders[..i], receipts[..i]);
            SettledOrders(accounts, holding, r, orders[..i + 1], receipts[..i + 1])
            == if before.None? then None
               else SettledOrder(before.value.0, before.value.1, before.value.2, orders[i], receipts[i])
  {
    assert orders[..i + 1][..i] == orders[..i] && receipts[..i + 1][..i] == receipts[..i];
    var dues := Refunds(orders[..i + 1], receipts[..i + 1]);
    assert dues[..i] == Refunds(orders[..i], receipts[..i]);
    assert dues[i] == Due(orders[i].address, if receipts[i] == 0 then orders[i].amount else 0);
  }

  lemma PayoutStep(keyed: seq<Keyed>, receipts: seq<u64>, i: nat, out: u64)
    requires i < |keyed| && |receipts| == i
    ensures (receipts + [out])[..i] == receipts && keyed[..i + 1][..i] == keyed[..i]
    ensures var dues := Payouts(keyed[..i + 1], receipts + [out]);
            dues[..i] == Payouts(keyed[..i], receipts) && dues[i] == Due(keyed[i].order.address, out)
  {
  }

  function DueOf(p: Payment, local: bool): (due: Due)
  {
    Due(p.address, if local then p.xShare else p.yShare)
  }

  /** The withdrawals all succeeded, and every holder could be paid. */
  function PaidOut(accounts: Accounts, t: Table, ws: seq<Withdrawal>, totals: Totals, local: bool): (r: Option<(Progress, Accounts)>)
  {
    var p := PayAll(t, ws, totals);
    if p.None? then None
    else
      var credited := CreditAll(accounts, DexChains.Shares(p.value.payments, local));
      if credited.None? then None else Some((p.value, credited.value))
  }

  function PayAndCredit(p: Progress, accounts: Accounts, w: Withdrawal, totals: Totals, local: bool): (r: Option<(Progress, Accounts)>)
  {
    var paid := PayOne(p, w, totals);
    if paid.None? then None
    else if !IsHolder(p.table, w.address) then Some((p, accounts))
    else
      var payments := paid.value.payments;
      var credited := DexChains.Credit(accounts, DueOf(payments[|payments| - 1], local));
      if credited.None? then None else Some((paid.value, credited.value))
  }

  lemma SharesExtend(accounts: Accounts, payments: seq<Payment>, p: Payment, local: bool)
    ensures var before := CreditAll(accounts, DexChains.Shares(payments, local));
            CreditAll(accounts, DexChains.Shares(payments + [p], local))
            == if before.None? then None else DexChains.Credit(before.value, DueOf(p, local))
  {
    var dues := DexChains.Shares(payments + [p], local);
    assert dues[..|payments|] == DexChains.Shares(payments, local);
    assert dues[|payments|] == DueOf(p, local);
  }

  lemma PaidOutStep(accounts: Accounts, t: Table, ws: seq<Withdrawal>, i: nat, totals: Totals, local: bool)
    requires i < |ws|
    ensures var before := PaidOut(accounts, t, ws[..i], totals, local);
            PaidOut(accounts, t, ws[..i + 1], totals, local)
            == if before.None? then None else PayAndCredit(before.value.0, before.value.1, ws[i], totals, local)
  {
    assert ws[..i + 1][..i] == ws[..i];
    var before := PayAll(t, ws[..i], totals);
    if before.Some? && IsHolder(before.value.table, ws[i].address) {
      var after := PayOne(before.value, ws[i], totals);
      if after.Some? {
        SharesExtend(accounts, before.value.payments, after.value.payments[|before.value.payments|], local);
      }
    }
  }

  method TotalDepositLoop(ds: seq<Deposit>) returns (total: Option<u64>)
    ensures total == TotalDeposit(ds)
  {
    total := Some(0);
    for i := 0 to |ds|
      invariant total == TotalDeposit(ds[..i])
    {
      assert ds[..i + 1][..i] == ds[..i];
      if total.Some? {
        total := Add(total.value, ds[i].amount);
      }
    }
    assert ds[..|ds|] == ds;
  }
}
