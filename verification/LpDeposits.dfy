/** Liquidity deposits: minting points for a one-sided deposit on the batch's origin chain. */
module LpDeposits {
  import opened Options
  import opened Uint64
  import opened LpPoints
  import opened LpWithdrawals

  // the account no one controls: holds the initial points and the rounding dust
  const DEAD: nat := 0xdead

  datatype Deposit = Deposit(address: nat, amount: u64)

  datatype Minting = Minting(table: Table, x: u64, distributed: nat)

  function TotalDeposit(ds: seq<Deposit>): (total: Option<u64>)
  {
    if ds == [] then Some(0)
    else
      var before := TotalDeposit(ds[..|ds| - 1]);
      if before.None? then None else Add(before.value, ds[|ds| - 1].amount)
  }

  function Share(totalDL: u64, d: Deposit, total: u64): (share: u64)
  {
    MulDiv(totalDL, d.amount, total)
  }

  /** One deposit: its share of the minted points, and its amount on the origin reserve. */
  function MintOne(m: Minting, d: Deposit, totalDL: u64, total: u64): (r: Option<Minting>)
  {
    var share := Share(totalDL, d, total);
    if share > 0 && !IsHolder(m.table, d.address) && |m.table.holders| >= MAX_PROVIDERS then None
    else
      var credited := AddPoints(m.table, d.address, share);
      if credited.None? then None
      else
        var x := Add(m.x, d.amount);
        if x.None? then None else Some(Minting(credited.value, x.value, m.distributed + share))
  }

  function MintAll(m: Minting, ds: seq<Deposit>, totalDL: u64, total: u64): (r: Option<Minting>)
  {
    if ds == [] then Some(m)
    else
      var before := MintAll(m, ds[..|ds| - 1], totalDL, total);
      if before.None? then None else MintOne(before.value, ds[|ds| - 1], totalDL, total)
  }

  /** The table the deposit starts from: a pool without points first gives sqrt(x*y) to the dead account. */
  function Seeded(l: Ledger): (r: Option<Table>)
  {
    if l.table.total == 0 then AddPoints(l.table, DEAD, SqrtProduct(l.x, l.y)) else Some(l.table)
  }

  /** The points minted for the whole batch, as if it were one deposit. */
  function PointsMinted(l: Ledger, points: u64, total: u64): (totalDL: Option<u64>)
  {
    var oldK := SqrtProduct(l.x, l.y);
    if oldK == 0 || l.x + total >= LIMIT then None
    else
      var newK := SqrtProduct(l.x + total, l.y);
      if newK < oldK then None else Some(MulDiv(points, newK - oldK, oldK))
  }

  function DepositInto(l: Ledger, seeded: Table, ds: seq<Deposit>, totalDL: u64, total: u64): (r: Option<Ledger>)
  {
    var minted := MintAll(Minting(seeded, l.x, 0), ds, totalDL, total);
    if minted.None? then None
    else
      var m := minted.value;
      var swept := AddPoints(m.table, DEAD, if m.distributed <= totalDL then totalDL - m.distributed else 0);
      if swept.None? then None else Some(Ledger(m.x, l.y, swept.value))
  }

  /** HandleBatchDeposit on the shared ledger. */
  function DepositBatch(l: Ledger, ds: seq<Deposit>): (r: Option<Ledger>)
  {
    var total := TotalDeposit(ds);
    if total.None? then None
    else if total.value == 0 || l.x == 0 || l.y == 0 then Some(l)
    else
      var seeded := Seeded(l);
      if seeded.None? then None
      else
        var totalDL := PointsMinted(l, seeded.value.total, total.value);
        if totalDL.None? then None
        else DepositInto(l, seeded.value, ds, totalDL.value, total.value)
  }

  // ---------------------------------------------------------------- properties

  /** The points the deposits of `a` are due. */
  function SharesOf(ds: seq<Deposit>, a: nat, totalDL: u64, total: u64): (shares: nat)
  {
    if ds == [] then 0
    else
      var d := ds[|ds| - 1];
      SharesOf(ds[..|ds| - 1], a, totalDL, total) + if d.address == a then Share(totalDL, d, total) else 0
  }

  function Shares(ds: seq<Deposit>, totalDL: u64, total: u64): (shares: nat)
  {
    if ds == [] then 0 else Shares(ds[..|ds| - 1], totalDL, total) + Share(totalDL, ds[|ds| - 1], total)
  }

  lemma {:induction false} SharesWithinMint(ds: seq<Deposit>, totalDL: u64, total: u64)
    requires total > 0 && TotalDeposit(ds).Some?
    ensures Shares(ds, totalDL, total) * total <= totalDL * TotalDeposit(ds).value
  {
    if ds != [] {
      var d := ds[|ds| - 1];
      SharesWithinMint(ds[..|ds| - 1], totalDL, total);
      MulDivBound(totalDL, d.amount, total);
      BoundsAdd(Shares(ds[..|ds| - 1], totalDL, total), Share(totalDL, d, total), total,
                totalDL, TotalDeposit(ds[..|ds| - 1]).value, d.amount);
    }
  }

  lemma {:induction false} MintAllFacts(m: Minting, ds: seq<Deposit>, totalDL: u64, total: u64)
    requires WellFormed(m.table) && m.distributed == 0
    requires TotalDeposit(ds).Some? && MintAll(m, ds, totalDL, total).Some?
    ensures var end := MintAll(m, ds, totalDL, total).value;
            && WellFormed(end.table)
            && end.distributed == Shares(ds, totalDL, total)
            && end.table.total == m.table.total + end.distributed
            && end.x == m.x + TotalDeposit(ds).value
            && forall a :: PointsOf(end.table, a) == PointsOf(m.table, a) + SharesOf(ds, a, totalDL, total)
  {
    if ds != [] {
      var init, d := ds[..|ds| - 1], ds[|ds| - 1];
      MintAllFacts(m, init, totalDL, total);
      AddPointsFacts(MintAll(m, init, totalDL, total).value.table, d.address, Share(totalDL, d, total));
    }
  }

  lemma SeededFacts(l: Ledger)
    requires WellFormed(l.table) && Seeded(l).Some?
    ensures WellFormed(Seeded(l).value) && Seeded(l).value.total >= l.table.total
    ensures l.x > 0 && l.y > 0 ==> Seeded(l).value.total > 0
  {
    if l.table.total == 0 {
      AddPointsFacts(l.table, DEAD, SqrtProduct(l.x, l.y));
      if l.x > 0 && l.y > 0 {
        SqrtProductPositive(l.x, l.y);
      }
    }
  }

  lemma SharesFit(ds: seq<Deposit>, totalDL: u64, total: u64)
    requires total > 0 && TotalDeposit(ds) == Some(total)
    ensures Shares(ds, totalDL, total) <= totalDL
  {
    SharesWithinMint(ds, totalDL, total);
    MulCancel(Shares(ds, totalDL, total), totalDL, total);
  }

  /** How the points of a deposit batch are handed out. */
  ghost predicate HandedOut(before: Table, after: Table, ds: seq<Deposit>, totalDL: u64, total: u64)
  {
    && Shares(ds, totalDL, total) <= totalDL
    && after.total == before.total + totalDL
    && forall a :: PointsOf(after, a) == PointsOf(before, a) + SharesOf(ds, a, totalDL, total)
         + if a == DEAD then totalDL - Shares(ds, totalDL, total) else 0
  }

  /** The last step of a deposit batch: the dust goes to the dead account. */
  lemma SweepFacts(seeded: Table, m: Minting, swept: Table, ds: seq<Deposit>, totalDL: u64, total: u64)
    requires WellFormed(m.table) && m.distributed == Shares(ds, totalDL, total) <= totalDL
    requires m.table.total == seeded.total + m.distributed
    requires forall a :: PointsOf(m.table, a) == PointsOf(seeded, a) + SharesOf(ds, a, totalDL, total)
    requires AddPoints(m.table, DEAD, totalDL - m.distributed) == Some(swept)
    ensures WellFormed(swept) && HandedOut(seeded, swept, ds, totalDL, total)
  {
    AddPointsFacts(m.table, DEAD, totalDL - m.distributed);
  }

  lemma DepositIntoFacts(l: Ledger, seeded: Table, ds: seq<Deposit>, totalDL: u64, total: u64)
    requires WellFormed(seeded) && total > 0 && TotalDeposit(ds) == Some(total)
    requires DepositInto(l, seeded, ds, totalDL, total).Some?
    ensures var l' := DepositInto(l, seeded, ds, totalDL, total).value;
            && WellFormed(l'.table) && l'.x == l.x + total && l'.y == l.y
            && HandedOut(seeded, l'.table, ds, totalDL, total)
  {
    SharesFit(ds, totalDL, total);
    MintAllFacts(Minting(seeded, l.x, 0), ds, totalDL, total);
    var m := MintAll(Minting(seeded, l.x, 0), ds, totalDL, total).value;
    SweepFacts(seeded, m, DepositInto(l, seeded, ds, totalDL, total).value.table, ds, totalDL, total);
  }

  lemma DepositFacts(l: Ledger, ds: seq<Deposit>)
    requires WellFormed(l.table) && DepositBatch(l, ds).Some?
    requires TotalDeposit(ds).value > 0 && l.x > 0 && l.y > 0
    ensures var l', total, seeded := DepositBatch(l, ds).value, TotalDeposit(ds).value, Seeded(l).value;
            && PointsMinted(l, seeded.total, total).Some?
            && WellFormed(seeded) && WellFormed(l'.table)
            && l'.x == l.x + total && l'.y == l.y
            && HandedOut(seeded, l'.table, ds, PointsMinted(l, seeded.total, total).value, total)
  {
    var total, seeded := TotalDeposit(ds).value, Seeded(l).value;
    SeededFacts(l);
    DepositIntoFacts(l, seeded, ds, PointsMinted(l, seeded.total, total).value, total);
  }

  /** The deposits of a batch add up to their running total, or do not fit in 64 bits. */
  lemma {:induction false} TotalIsTheSum(ds: seq<Deposit>, running: seq<nat>)
    requires |running| == |ds| + 1 && running[0] == 0
    requires forall i :: 0 <= i < |ds| ==> running[i + 1] == running[i] + ds[i].amount
    ensures TotalDeposit(ds) == if running[|ds|] < LIMIT then Some(running[|ds|]) else None
    ensures running[|ds|] >= LIMIT ==> forall l :: DepositBatch(l, ds).None?
  {
    if ds != [] {
      TotalIsTheSum(ds[..|ds| - 1], running[..|ds|]);
    }
  }

  /** The points of a list that go to `a`. */
  function PointsFor(ds: seq<Deposit>, points: seq<nat>, a: nat): (sum: nat)
    requires |points| == |ds|
  {
    if ds == [] then 0
    else
      var n := |ds| - 1;
      PointsFor(ds[..n], points[..n], a) + if ds[n].address == a then points[n] else 0
  }

  /** Each deposit's points are its amount's part of the minted points, rounded down. */
  ghost predicate ProRata(ds: seq<Deposit>, points: seq<nat>, minted: u64, total: u64)
  {
    |points| == |ds| && forall i :: 0 <= i < |ds| ==> IsShare(points[i], minted, ds[i].amount, total)
  }

  lemma {:induction false} SharesAreProRata(ds: seq<Deposit>, minted: u64, total: u64) returns (points: seq<nat>)
    requires total > 0 && TotalDeposit(ds).Some? && TotalDeposit(ds).value <= total
    ensures ProRata(ds, points, minted, total)
    ensures SumOf(points) == Shares(ds, minted, total)
    ensures forall a :: PointsFor(ds, points, a) == SharesOf(ds, a, minted, total)
    ensures minted * TotalDeposit(ds).value <= (SumOf(points) + |ds|) * total
    ensures ds != [] ==> minted * TotalDeposit(ds).value < (SumOf(points) + |ds|) * total
  {
    points := [];
    if ds != [] {
      var init, d := ds[..|ds| - 1], ds[|ds| - 1];
      var before := SharesAreProRata(init, minted, total);
      points := before + [Share(minted, d, total)];
      assert points[..|before|] == before;
      MulDivIsShare(minted, d.amount, total);
      AddLess(minted, TotalDeposit(init).value, d.amount, SumOf(before) + |init|, Share(minted, d, total) + 1, total);
    }
  }

  lemma AddLess(m: nat, a: nat, b: nat, p: nat, q: nat, t: nat)
    requires m * a <= p * t && m * b < q * t
    ensures m * (a + b) < (p + q) * t
  {
    assert m * (a + b) == m * a + m * b;
    assert (p + q) * t == p * t + q * t;
  }

  /** A pool without points starts with the root of its product at the dead address, any other as it is. */
  ghost predicate Starts(l: Ledger, start: Table)
  {
    && (l.table.total > 0 ==> start == l.table)
    && (l.table.total == 0 ==>
          && start.total * start.total <= l.x * l.y < (start.total + 1) * (start.total + 1)
          && forall a :: PointsOf(start, a) == if a == DEAD then start.total else 0)
  }

  lemma SeededStarts(l: Ledger)
    requires WellFormed(l.table)
    ensures Seeded(l).Some? ==> Starts(l, Seeded(l).value)
    ensures |l.table.holders| < MAX_PROVIDERS ==> Seeded(l).Some? && |Seeded(l).value.holders| <= |l.table.holders| + 1
  {
    if l.table.total == 0 {
      var root := SqrtProduct(l.x, l.y);
      AddPointsSucceeds(l.table, DEAD, root);
      if Seeded(l).Some? {
        AddPointsFacts(l.table, DEAD, root);
        forall a ensures PointsOf(l.table, a) == 0 {
          EntryAtMostTotal(l.table, a);
        }
      }
    }
  }

  /**
   * POINTS ARE MINTED EXACTLY: every depositor gets its amount's part of the minted points, rounded down;
   * the dead address gets the rounding dust, less than one point per deposit, and a new pool's first points;
   * nothing else changes hands, and the deposit reserve grows by the sum of the deposits.
   */
  lemma DepositMintsExactly(l: Ledger, ds: seq<Deposit>) returns (start: Table, minted: u64, points: seq<nat>)
    requires WellFormed(l.table) && DepositBatch(l, ds).Some?
    requires TotalDeposit(ds).value > 0 && l.x > 0 && l.y > 0
    ensures var l', total := DepositBatch(l, ds).value, TotalDeposit(ds).value;
            && Starts(l, start) && PointsMinted(l, start.total, total) == Some(minted)
            && WellFormed(l'.table) && l'.x == l.x + total && l'.y == l.y && l'.table.total == start.total + minted
            && ProRata(ds, points, minted, total)
            && SumOf(points) <= minted < SumOf(points) + |ds|
            && forall a :: PointsOf(l'.table, a) == PointsOf(start, a) + PointsFor(ds, points, a)
                             + if a == DEAD then minted - SumOf(points) else 0
  {
    var total := TotalDeposit(ds).value;
    start := Seeded(l).value;
    minted := PointsMinted(l, start.total, total).value;
    DepositFacts(l, ds);
    SeededStarts(l);
    points := SharesAreProRata(ds, minted, total);
    MulCancelStrict(minted, SumOf(points) + |ds|, total);
  }

  /** While the table has room, a deposit batch fails only where a sum no longer fits in 64 bits. */
  lemma DepositFailsOnlyOnOverflow(l: Ledger, ds: seq<Deposit>, start: Table)
    requires WellFormed(l.table) && |l.table.holders| + |ds| + 2 <= MAX_PROVIDERS
    requires TotalDeposit(ds).Some? && TotalDeposit(ds).value > 0 && l.x > 0 && l.y > 0
    requires Seeded(l) == Some(start)
    ensures var total := TotalDeposit(ds).value;
            DepositBatch(l, ds).Some? <==>
              l.x + total < LIMIT && PointsMinted(l, start.total, total).Some?
              && start.total + PointsMinted(l, start.total, total).value < LIMIT
  {
    SeededStarts(l);
    SeededFacts(l);
    if DepositBatch(l, ds).Some? {
      DepositFacts(l, ds);
    }
    match PointsMinted(l, start.total, TotalDeposit(ds).value)
    case Some(minted) =>
      if start.total + minted < LIMIT && l.x + TotalDeposit(ds).value < LIMIT {
        DepositIntoSucceeds(l, start, ds, minted);
      }
    case None =>
  }

  lemma DepositIntoSucceeds(l: Ledger, start: Table, ds: seq<Deposit>, minted: u64)
    requires WellFormed(start) && |start.holders| + |ds| < MAX_PROVIDERS
    requires TotalDeposit(ds).Some? && TotalDeposit(ds).value > 0
    requires start.total + minted < LIMIT && l.x + TotalDeposit(ds).value < LIMIT
    ensures DepositInto(l, start, ds, minted, TotalDeposit(ds).value).Some?
  {
    var total, m := TotalDeposit(ds).value, Minting(start, l.x, 0);
    SharesFit(ds, minted, total);
    MintAllSucceeds(m, ds, minted, total);
    MintAllFacts(m, ds, minted, total);
    SweepSucceeds(start, MintAll(m, ds, minted, total).value, minted);
  }

  lemma SweepSucceeds(start: Table, end: Minting, minted: u64)
    requires WellFormed(end.table) && |end.table.holders| < MAX_PROVIDERS && start.total + minted < LIMIT
    requires end.distributed <= minted && end.table.total == start.total + end.distributed
    ensures AddPoints(end.table, DEAD, minted - end.distributed).Some?
  {
    AddPointsSucceeds(end.table, DEAD, minted - end.distributed);
  }

  lemma {:induction false} MintAllSucceeds(m: Minting, ds: seq<Deposit>, totalDL: u64, total: u64)
    requires WellFormed(m.table) && m.distributed == 0 && TotalDeposit(ds).Some?
    requires |m.table.holders| + |ds| < MAX_PROVIDERS
    requires m.table.total + Shares(ds, totalDL, total) < LIMIT && m.x + TotalDeposit(ds).value < LIMIT
    ensures MintAll(m, ds, totalDL, total).Some?
    ensures |MintAll(m, ds, totalDL, total).value.table.holders| <= |m.table.holders| + |ds|
  {
    if ds != [] {
      var init, d := ds[..|ds| - 1], ds[|ds| - 1];
      MintAllSucceeds(m, init, totalDL, total);
      MintAllFacts(m, init, totalDL, total);
      AddPointsSucceeds(MintAll(m, init, totalDL, total).value.table, d.address, Share(totalDL, d, total));
    }
  }

  /** NO DILUTION: the points grow no faster than the geometric mean of the reserves. */
  lemma DepositDoesNotDilute(l: Ledger, ds: seq<Deposit>)
    requires WellFormed(l.table) && DepositBatch(l, ds).Some?
    requires TotalDeposit(ds).value > 0 && l.x > 0 && l.y > 0
    ensures var l', points := DepositBatch(l, ds).value, Seeded(l).value.total;
            && l'.table.total * SqrtProduct(l.x, l.y) <= points * SqrtProduct(l'.x, l'.y)
            && SqrtProduct(l.x, l.y) > 0 && points > 0
  {
    DepositFacts(l, ds);
    var total, points := TotalDeposit(ds).value, Seeded(l).value.total;
    var oldK, newK := SqrtProduct(l.x, l.y), SqrtProduct(l.x + total, l.y);
    var totalDL := PointsMinted(l, points, total).value;
    MulDivBound(points, newK - oldK, oldK);
    BoundsAdd(points, totalDL, oldK, points, oldK, newK - oldK);
    SeededFacts(l);
    SqrtProductPositive(l.x, l.y);
  }

  /** The minted points are the most that do not dilute, as long as they fit in 64 bits. */
  lemma MintIsTheMost(l: Ledger, points: u64, total: u64, m: nat)
    requires l.x > 0 && l.y > 0 && l.x + total < LIMIT
    requires GrowthFits(points, SqrtProduct(l.x, l.y), SqrtProduct(l.x + total, l.y))
    ensures PointsMinted(l, points, total).Some?
    ensures m <= PointsMinted(l, points, total).value
            <==> (points + m) * SqrtProduct(l.x, l.y) <= points * SqrtProduct(l.x + total, l.y)
  {
    MintFailsOnlyOnOverflow(l, points, total);
    GrowthShare(points, SqrtProduct(l.x, l.y), SqrtProduct(l.x + total, l.y), m);
  }

  /** The points for growing from k to k', before any truncation, fit in 64 bits. */
  predicate GrowthFits(points: u64, k: nat, k': nat)
  {
    0 < k <= k' && Floor(points * (k' - k), k) < LIMIT
  }

  lemma GrowthShare(points: u64, k: nat, k': nat, m: nat)
    requires GrowthFits(points, k, k')
    ensures m <= MulDiv(points, k' - k, k) <==> (points + m) * k <= points * k'
  {
    QuotientIsLargest(points * (k' - k), k, m);
    Distributes(points, m, k, k' - k);
  }

  lemma Distributes(points: nat, m: nat, k: nat, more: nat)
    ensures (points + m) * k == points * k + m * k
    ensures points * (k + more) == points * k + points * more
  {
  }

  /** Minting fails only for an empty reserve or an overflowing one: the roots never fall. */
  lemma MintFailsOnlyOnOverflow(l: Ledger, points: u64, total: u64)
    ensures PointsMinted(l, points, total).None? <==> l.x == 0 || l.y == 0 || l.x + total >= LIMIT
  {
    if l.x > 0 && l.y > 0 {
      SqrtProductPositive(l.x, l.y);
      if l.x + total < LIMIT {
        SqrtProductGrows(l.x, l.y, l.x + total);
      }
    } else {
      RootOfZero(l.x, l.y);
    }
  }

  lemma RootOfZero(x: u64, y: u64)
    requires x == 0 || y == 0
    ensures SqrtProduct(x, y) == 0
  {
    assert x * y == 0;
    NoSquareIsZero(SqrtProduct(x, y));
  }

  lemma NoSquareIsZero(r: nat)
    ensures r > 0 ==> r * r > 0
  {
  }

  /** Without deposits, or with an empty reserve, nothing changes; the table stays well formed either way. */
  lemma DepositKeepsWellFormed(l: Ledger, ds: seq<Deposit>)
    requires WellFormed(l.table) && DepositBatch(l, ds).Some?
    ensures var l' := DepositBatch(l, ds).value;
            && WellFormed(l'.table) && l'.x >= l.x && l'.y == l.y && l'.table.total >= l.table.total
            && (TotalDeposit(ds).value == 0 || l.x == 0 || l.y == 0 ==> l' == l)
  {
    if TotalDeposit(ds).value > 0 && l.x > 0 && l.y > 0 {
      DepositFacts(l, ds);
      SeededFacts(l);
    }
  }
}
