/** Cross-chain batches, and what one batch does to the two reserves and the shared point table. */
module DexBatches {
  import opened Options
  import opened Uint64
  import opened LpPoints
  import opened LpWithdrawals
  import opened LpDeposits
  import opened AmmOrders

  /**
   * A batch names the counter chain's batch it answers by that batch's hash. Hashes are injective, so a
   * hash is represented by the batch it was taken of.
   */
  datatype ReceiptHash = NoHash | EmptyHash | HashOf(batch: Batch)

  datatype Batch = Batch(
    committee: nat,
    receiptHash: ReceiptHash,
    orders: seq<Order>,
    deposits: seq<Deposit>,
    withdrawals: seq<Withdrawal>,
    poolSize: u64,
    receipts: seq<u64>,
    lockedHeight: nat)

  function EmptyBatch(committee: nat, poolSize: u64): (b: Batch)
  {
    Batch(committee, NoHash, [], [], [], poolSize, [], 0)
  }

  predicate IsEmpty(b: Batch)
  {
    b.receiptHash == NoHash && b.receipts == [] && b.orders == [] && b.withdrawals == [] && b.deposits == []
  }

  function Hash(b: Batch): (h: ReceiptHash)
  {
    if IsEmpty(b) then HashOf(b.(receiptHash := EmptyHash)) else HashOf(b)
  }

  /** The result of a batch: the new ledger, the withdrawals paid, and the deposits moved. */
  datatype Outcome = Outcome(ledger: Ledger, payments: seq<Payment>, moved: u64)

  /** The deposits that join the reserve; none do while a reserve is empty. */
  function Moved(l: Ledger, ds: seq<Deposit>): (moved: u64)
  {
    var total := TotalDeposit(ds);
    if total.None? || l.x == 0 || l.y == 0 then 0 else total.value
  }

  /** The part both chains run alike, once the orders are dealt with. */
  function Liquidity(l: Ledger, b: Batch): (r: Option<Outcome>)
  {
    var withdrawn := Withdraw(l, b.withdrawals);
    if withdrawn.None? then None
    else
      var (l1, payments) := withdrawn.value;
      var deposited := DepositBatch(l1, b.deposits);
      if deposited.None? then None
      else Some(Outcome(deposited.value, payments, Moved(l1, b.deposits)))
  }

  /** The counter chain executes the batch: `sorted` are its orders in hash order, `keyed` as they came. */
  function Execute(l: Ledger, b: Batch, keyed: seq<Keyed>, sorted: seq<Keyed>): (r: Option<(Outcome, seq<u64>)>)
  {
    if l.x == 0 || l.y == 0 then None
    else
      var filled := FillAll(Fill(l.x, l.y, map[]), sorted);
      if filled.None? then None
      else
        var f := filled.value;
        var done := Liquidity(Ledger(f.x, f.y, l.table), b);
        if done.None? then None else Some((done.value, Receipts(keyed, f.result)))
  }

  /** The origin chain settles its own batch from the receipts. */
  function Settle(l: Ledger, b: Batch, receipts: seq<u64>): (r: Option<Outcome>)
    requires |receipts| == |b.orders|
  {
    var settled := SettleAll(Reserves(l.x, l.y), b.orders, receipts);
    if settled.None? then None
    else Liquidity(Ledger(settled.value.x, settled.value.y, l.table), b)
  }

  /** A batch is recognised by its hash: only the placeholder of an empty batch can stand for another. */
  lemma HashIsInjective(a: Batch, b: Batch)
    requires a.receiptHash != EmptyHash && b.receiptHash != EmptyHash
    ensures Hash(a) == Hash(b) <==> a == b
  {
    assert a.(receiptHash := EmptyHash) == b.(receiptHash := EmptyHash) && a.receiptHash == b.receiptHash ==> a == b;
  }

  /** Withdrawals come first and are paid from the reserves as they stand; deposits join what is left. */
  lemma LiquidityInOrder(l: Ledger, b: Batch)
    ensures Liquidity(l, b).Some? <==>
              exists l1, payments, l2 :: Withdraw(l, b.withdrawals) == Some((l1, payments)) && DepositBatch(l1, b.deposits) == Some(l2)
    ensures forall o, l1, payments, l2 ::
              Liquidity(l, b) == Some(o) && Withdraw(l, b.withdrawals) == Some((l1, payments)) && DepositBatch(l1, b.deposits) == Some(l2) ==>
                o.ledger == l2 && o.payments == payments
  {
  }

  /** The counter chain fills the orders first and then runs the rest of the batch on the reserves they leave. */
  lemma ExecutionInOrder(l: Ledger, b: Batch, keyed: seq<Keyed>, sorted: seq<Keyed>)
    requires l.x > 0
    ensures Execute(l, b, keyed, sorted).Some? <==>
              && l.y > 0 && FillAll(Fill(l.x, l.y, map[]), sorted).Some?
              && var f := FillAll(Fill(l.x, l.y, map[]), sorted).value; Liquidity(Ledger(f.x, f.y, l.table), b).Some?
    ensures Execute(l, b, keyed, sorted).Some? ==>
              var f := FillAll(Fill(l.x, l.y, map[]), sorted).value;
              var (o, receipts) := Execute(l, b, keyed, sorted).value;
              && Liquidity(Ledger(f.x, f.y, l.table), b) == Some(o)
              && |receipts| == |keyed| && forall i :: 0 <= i < |keyed| ==> receipts[i] == Out(f.result, keyed[i])
  {
  }

  /** `keyed` are the batch's orders with their keys, and `sorted` the same in another order. */
  predicate Shuffled(b: Batch, keyed: seq<Keyed>, sorted: seq<Keyed>)
  {
    Plain(keyed) == b.orders && multiset(sorted) == multiset(keyed) && DistinctKeys(sorted)
  }

  /**
   * MIRRORED EXECUTION: from the same reserves and point table, settling a batch with the receipts of its
   * execution succeeds and ends in the same reserves, the same table, and the same payments.
   */
  lemma MirroredExecution(l: Ledger, b: Batch, keyed: seq<Keyed>, sorted: seq<Keyed>)
    requires Shuffled(b, keyed, sorted) && Execute(l, b, keyed, sorted).Some?
    ensures var (outcome, receipts) := Execute(l, b, keyed, sorted).value;
            |receipts| == |b.orders| && Settle(l, b, receipts) == Some(outcome)
  {
    OrdersMirror(l.x, l.y, sorted, keyed);
  }

  /** A batch with valid withdrawals keeps the table well formed and both reserves positive. */
  lemma LiquidityFacts(l: Ledger, b: Batch)
    requires WellFormed(l.table) && ValidWithdrawals(b.withdrawals) && Liquidity(l, b).Some?
    ensures var o := Liquidity(l, b).value;
            && WellFormed(o.ledger.table)
            && (l.x > 0 && l.y > 0 ==> o.ledger.x > 0 && o.ledger.y > 0)
            && (l.table.total > 0 ==> o.ledger.table.total > 0)
            && SumX(o.payments) <= l.x && SumY(o.payments) <= l.y
            && o.ledger.x == l.x - SumX(o.payments) + o.moved && o.ledger.y == l.y - SumY(o.payments)
  {
    WithdrawalsAreSolvent(l, b.withdrawals);
    var l1 := Withdraw(l, b.withdrawals).value.0;
    DepositKeepsWellFormed(l1, b.deposits);
    if TotalDeposit(b.deposits).value > 0 && l1.x > 0 && l1.y > 0 {
      DepositFacts(l1, b.deposits);
    }
  }

  /**
   * The paying chain's pool covers everything a batch takes from it: what leaves the reserve is exactly
   * the receipts and the payments.
   */
  lemma ExecutionIsCovered(l: Ledger, b: Batch, keyed: seq<Keyed>, sorted: seq<Keyed>)
    requires WellFormed(l.table) && ValidWithdrawals(b.withdrawals)
    requires Shuffled(b, keyed, sorted) && Execute(l, b, keyed, sorted).Some?
    ensures var (o, receipts) := Execute(l, b, keyed, sorted).value;
            && SumReceipts(receipts) + SumY(o.payments) + o.ledger.y == l.y
            && o.ledger.y > 0 && o.ledger.x > 0 && WellFormed(o.ledger.table)
  {
    BatchExecution(l.x, l.y, sorted, keyed);
    var f := FillAll(Fill(l.x, l.y, map[]), sorted).value;
    LiquidityFacts(Ledger(f.x, f.y, l.table), b);
  }
}
