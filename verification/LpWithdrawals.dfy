/** Liquidity withdrawals: burning points and paying the matching part of both reserves. */
module LpWithdrawals {
  import opened Options
  import opened Uint64
  import opened LpPoints

  datatype Withdrawal = Withdrawal(address: nat, percent: nat)

  /** What a withdrawal pays: its share of each reserve. Each chain pays out the share it holds. */
  datatype Payment = Payment(address: nat, xShare: u64, yShare: u64)

  /** The reserves of the batch's origin (x) and of its counter chain (y), and the point table. */
  datatype Ledger = Ledger(x: u64, y: u64, table: Table)

  datatype Totals = Totals(points: u64, x: u64, y: u64)

  datatype Progress = Progress(table: Table, paidX: u64, paidY: u64, payments: seq<Payment>)

  /** Percentages are at most 100: a batch with any other is refused before it gets here. */
  predicate ValidWithdrawals(ws: seq<Withdrawal>)
  {
    forall w <- ws :: w.percent <= 100
  }

  function PointsToRemove(t: Table, w: Withdrawal): (points: u64)
  {
    MulDiv(PointsOf(t, w.address), w.percent, 100)
  }

  /** First pass: the points all withdrawals ask for, each measured against the untouched table. */
  function FirstPass(t: Table, ws: seq<Withdrawal>): (total: Option<u64>)
  {
    if ws == [] then Some(0)
    else
      var before := FirstPass(t, ws[..|ws| - 1]);
      if before.None? then None else Add(before.value, PointsToRemove(t, ws[|ws| - 1]))
  }

  /** Second pass, one withdrawal: a share of both totals against the points still held. */
  function PayOne(p: Progress, w: Withdrawal, totals: Totals): (r: Option<Progress>)
  {
    if !IsHolder(p.table, w.address) then Some(p)
    else
      var points := PointsToRemove(p.table, w);
      var yShare := MulDiv(totals.y, points, totals.points);
      var xShare := MulDiv(totals.x, points, totals.points);
      var removed := RemovePoints(p.table, w.address, points);
      if removed.None? then None
      else Some(Progress(removed.value, (p.paidX + xShare) % LIMIT, (p.paidY + yShare) % LIMIT,
                         p.payments + [Payment(w.address, xShare, yShare)]))
  }

  function PayAll(t: Table, ws: seq<Withdrawal>, totals: Totals): (r: Option<Progress>)
  {
    if ws == [] then Some(Progress(t, 0, 0, []))
    else
      var before := PayAll(t, ws[..|ws| - 1], totals);
      if before.None? then None else PayOne(before.value, ws[|ws| - 1], totals)
  }

  function TotalsFor(l: Ledger, points: u64): (totals: Totals)
  {
    Totals(points, MulDiv(l.x, points, l.table.total), MulDiv(l.y, points, l.table.total))
  }

  /** HandleBatchWithdraw on the shared ledger: the new ledger and the payments, or an error. */
  function Withdraw(l: Ledger, ws: seq<Withdrawal>): (r: Option<(Ledger, seq<Payment>)>)
  {
    var total := FirstPass(l.table, ws);
    if total.None? then None
    else if total.value == 0 || l.table.total == 0 then Some((l, []))
    else
      var end := PayAll(l.table, ws, TotalsFor(l, total.value));
      if end.None? then None
      else Some((Ledger(WrapSub(l.x, end.value.paidX), WrapSub(l.y, end.value.paidY), end.value.table), end.value.payments))
  }

  // ---------------------------------------------------------------- imperative form

  method FirstPassLoop(t: Table, ws: seq<Withdrawal>) returns (total: Option<u64>)
    ensures total == FirstPass(t, ws)
  {
    var sum: u64 := 0;
    for i := 0 to |ws|
      invariant FirstPass(t, ws[..i]) == Some(sum)
    {
      FirstPassStep(t, ws, i);
      var at := FindHolder(t.holders, ws[i].address);
      if at < |t.holders| {
        var points := PointsToRemove(t, ws[i]);
        if sum > LIMIT - 1 - points {
          OverflowIsFinal(t, ws, i + 1);
          return None;
        }
        sum := sum + points;
      }
    }
    assert ws[..|ws|] == ws;
    return Some(sum);
  }

  lemma FirstPassStep(t: Table, ws: seq<Withdrawal>, i: nat)
    requires i < |ws|
    ensures FirstPass(t, ws[..i + 1])
            == (if FirstPass(t, ws[..i]).None? then None else Add(FirstPass(t, ws[..i]).value, PointsToRemove(t, ws[i])))
    ensures !IsHolder(t, ws[i].address) ==> PointsToRemove(t, ws[i]) == 0
  {
    assert ws[..i + 1][..i] == ws[..i];
  }

  lemma {:induction false} OverflowIsFinal(t: Table, ws: seq<Withdrawal>, i: nat)
    requires i <= |ws| && FirstPass(t, ws[..i]).None?
    ensures FirstPass(t, ws).None?
  {
    if i == |ws| {
      assert ws[..i] == ws;
    } else {
      assert ws[..|ws| - 1][..i] == ws[..i];
      OverflowIsFinal(t, ws[..|ws| - 1], i);
    }
  }

  // ---------------------------------------------------------------- solvency

  function SumX(payments: seq<Payment>): (sum: nat)
  {
    if payments == [] then 0 else SumX(payments[..|payments| - 1]) + payments[|payments| - 1].xShare
  }

  function SumY(payments: seq<Payment>): (sum: nat)
  {
    if payments == [] then 0 else SumY(payments[..|payments| - 1]) + payments[|payments| - 1].yShare
  }

  /** The table lost at most the counted points, and nobody gained any. */
  ghost predicate Shrank(t: Table, t': Table, counted: nat)
  {
    && WellFormed(t') && t'.total <= t.total <= t'.total + counted
    && (forall a :: PointsOf(t', a) <= PointsOf(t, a))
  }

  predicate InProportion(paid: nat, all: nat, total: nat, removed: nat)
  {
    paid * all <= total * removed
  }

  /** Both totals have been paid at most in proportion to the removed points. */
  ghost predicate PaidFor(p: Progress, totals: Totals, removed: nat)
  {
    && p.paidX == SumX(p.payments) && p.paidY == SumY(p.payments)
    && InProportion(p.paidX, totals.points, totals.x, removed)
    && InProportion(p.paidY, totals.points, totals.y, removed)
  }

  /** What the second pass keeps: it removes no more than the first pass counted, and pays pro rata. */
  ghost predicate PaidProRata(t: Table, p: Progress, totals: Totals, counted: nat)
  {
    Shrank(t, p.table, counted) && PaidFor(p, totals, t.total - p.table.total)
  }

  /** Adding a rounded-down share keeps the pro-rata bound, and never overflows. */
  lemma ShareStep(paid: u64, total: u64, removed: nat, points: nat, all: u64)
    requires all > 0 && removed + points <= all
    requires InProportion(paid, all, total, removed)
    ensures var share := MulDiv(total, points, all);
            InProportion(paid + share, all, total, removed + points) && paid + share < LIMIT
  {
    var share := MulDiv(total, points, all);
    MulDivBound(total, points, all);
    calc {
      (paid + share) * all;
      paid * all + share * all;
    <= total * removed + total * points;
    == total * (removed + points);
    }
    MulMonotone(removed + points, all, total);
    MulCancel(paid + share, total, all);
  }

  lemma PointsToRemoveShrinks(t: Table, t': Table, w: Withdrawal)
    requires w.percent <= 100 && PointsOf(t', w.address) <= PointsOf(t, w.address)
    ensures PointsToRemove(t', w) <= PointsToRemove(t, w)
    ensures PointsToRemove(t', w) <= PointsOf(t', w.address)
  {
    var before, now := PointsOf(t, w.address), PointsOf(t', w.address);
    MulDivExact(before, w.percent, 100);
    MulDivExact(now, w.percent, 100);
    MulMonotone(now, before, w.percent);
    DivFacts(before * w.percent, 100);
    DivFacts(now * w.percent, 100);
  }

  /** One payment of both shares of `points` points. */
  lemma PaymentStep(p: Progress, t': Table, address: nat, totals: Totals, removed: nat, points: nat)
    requires totals.points > 0 && removed + points <= totals.points && PaidFor(p, totals, removed)
    ensures var x, y := MulDiv(totals.x, points, totals.points), MulDiv(totals.y, points, totals.points);
            PaidFor(Progress(t', (p.paidX + x) % LIMIT, (p.paidY + y) % LIMIT, p.payments + [Payment(address, x, y)]),
                    totals, removed + points)
  {
    var x, y := MulDiv(totals.x, points, totals.points), MulDiv(totals.y, points, totals.points);
    ShareStep(p.paidX, totals.x, removed, points, totals.points);
    ShareStep(p.paidY, totals.y, removed, points, totals.points);
    PaymentRecorded(p, t', Payment(address, x, y), totals, removed + points);
  }

  lemma PaymentRecorded(p: Progress, t': Table, q: Payment, totals: Totals, removed: nat)
    requires p.paidX == SumX(p.payments) && p.paidY == SumY(p.payments)
    requires p.paidX + q.xShare < LIMIT && InProportion(p.paidX + q.xShare, totals.points, totals.x, removed)
    requires p.paidY + q.yShare < LIMIT && InProportion(p.paidY + q.yShare, totals.points, totals.y, removed)
    ensures PaidFor(Progress(t', (p.paidX + q.xShare) % LIMIT, (p.paidY + q.yShare) % LIMIT, p.payments + [q]), totals, removed)
  {
    OnePaymentMore(p.payments, q);
  }

  lemma OnePaymentMore(payments: seq<Payment>, p: Payment)
    ensures SumX(payments + [p]) == SumX(payments) + p.xShare && SumY(payments + [p]) == SumY(payments) + p.yShare
  {
    assert (payments + [p])[..|payments|] == payments;
  }

  lemma PayOneKeepsProRata(t: Table, p: Progress, w: Withdrawal, totals: Totals, counted: nat)
    requires w.percent <= 100 && totals.points > 0
    requires PaidProRata(t, p, totals, counted) && counted + PointsToRemove(t, w) <= totals.points
    requires PayOne(p, w, totals).Some?
    ensures PaidProRata(t, PayOne(p, w, totals).value, totals, counted + PointsToRemove(t, w))
  {
    if IsHolder(p.table, w.address) {
      var points := PointsToRemove(p.table, w);
      PointsToRemoveShrinks(t, p.table, w);
      PaymentStep(p, PayOne(p, w, totals).value.table, w.address, totals, t.total - p.table.total, points);
      RemovePointsFacts(p.table, w.address, points);
      var t' := PayOne(p, w, totals).value.table;
      forall a ensures PointsOf(t', a) <= PointsOf(t, a) {
        assert PointsOf(t', a) <= PointsOf(p.table, a);
      }
    }
  }

  lemma {:induction false} PayAllKeepsProRata(t: Table, ws: seq<Withdrawal>, totals: Totals)
    requires WellFormed(t) && ValidWithdrawals(ws) && totals.points > 0
    requires FirstPass(t, ws).Some? && FirstPass(t, ws).value <= totals.points
    requires PayAll(t, ws, totals).Some?
    ensures PaidProRata(t, PayAll(t, ws, totals).value, totals, FirstPass(t, ws).value)
  {
    if ws != [] {
      var init := ws[..|ws| - 1];
      PayAllKeepsProRata(t, init, totals);
      PayOneKeepsProRata(t, PayAll(t, init, totals).value, ws[|ws| - 1], totals, FirstPass(t, init).value);
    }
  }

  /** A rounded-down share: less than one token below the exact one. */
  predicate IsShare(share: nat, total: nat, points: nat, all: nat)
  {
    share * all <= total * points < (share + 1) * all
  }

  lemma MulDivIsShare(total: u64, points: nat, all: nat)
    requires all > 0 && points <= all
    ensures IsShare(MulDiv(total, points, all), total, points, all)
  {
    MulDivExact(total, points, all);
    DivFacts(total * points, all);
  }

  /** The asked points' part of a reserve is exact if and only if it fits in 64 bits. */
  lemma TotalIsShare(reserve: u64, asked: nat, all: nat)
    requires all > 0
    ensures IsShare(MulDiv(reserve, asked, all), reserve, asked, all) <==> Floor(reserve * asked, all) < LIMIT
  {
    var q := Floor(reserve * asked, all);
    DivFacts(reserve * asked, all);
    if q >= LIMIT {
      MulMonotone(q % LIMIT + 1, q, all);
    }
  }

  /**
   * Each withdrawal is paid its share of both totals for the points it burns, and burns its percentage of
   * the points it still holds; both totals are the asked points' share of the reserves, as far as those fit
   * in 64 bits, which they do unless more points are asked for than there are.
   */
  lemma WithdrawalGetsItsShare(l: Ledger, p: Progress, w: Withdrawal, asked: u64)
    requires w.percent <= 100 && asked > 0 && l.table.total > 0 && IsHolder(p.table, w.address)
    requires PointsToRemove(p.table, w) <= asked && PayOne(p, w, TotalsFor(l, asked)).Some?
    ensures var totals, p', points := TotalsFor(l, asked), PayOne(p, w, TotalsFor(l, asked)).value, PointsToRemove(p.table, w);
            && IsShare(points, PointsOf(p.table, w.address), w.percent, 100)
            && (IsShare(totals.x, l.x, asked, l.table.total) <==> Floor(l.x * asked, l.table.total) < LIMIT)
            && (IsShare(totals.y, l.y, asked, l.table.total) <==> Floor(l.y * asked, l.table.total) < LIMIT)
            && (asked <= l.table.total ==>
                  IsShare(totals.x, l.x, asked, l.table.total) && IsShare(totals.y, l.y, asked, l.table.total))
            && |p'.payments| == |p.payments| + 1 && p'.payments[..|p.payments|] == p.payments
            && var paid := p'.payments[|p.payments|];
               && paid.address == w.address
               && IsShare(paid.xShare, totals.x, points, asked) && IsShare(paid.yShare, totals.y, points, asked)
  {
    MulDivIsShare(PointsOf(p.table, w.address), w.percent, 100);
    TotalIsShare(l.x, asked, l.table.total);
    TotalIsShare(l.y, asked, l.table.total);
    if asked <= l.table.total {
      MulDivIsShare(l.x, asked, l.table.total);
      MulDivIsShare(l.y, asked, l.table.total);
    }
    var totals := TotalsFor(l, asked);
    MulDivIsShare(totals.x, PointsToRemove(p.table, w), asked);
    MulDivIsShare(totals.y, PointsToRemove(p.table, w), asked);
  }

  /**
   * One withdrawal of the second pass: a holder burns its percentage of the points it still holds and is
   * paid their share of both totals; anyone else is passed over.
   */
  ghost predicate Withdrawn(t: Table, t': Table, w: Withdrawal, totals: Totals, points: nat, before: seq<Payment>, after: seq<Payment>)
  {
    if forall h <- t.holders :: h.address != w.address then t' == t && after == before
    else
      && IsShare(points, PointsOf(t, w.address), w.percent, 100)
      && t'.total == t.total - points
      && (forall a :: PointsOf(t', a) == PointsOf(t, a) - if a == w.address then points else 0)
      && |after| == |before| + 1 && after[..|before|] == before
      && after[|before|].address == w.address
      && IsShare(after[|before|].xShare, totals.x, points, totals.points)
      && IsShare(after[|before|].yShare, totals.y, points, totals.points)
  }

  /** The table and the payments before each withdrawal and at the end, and the points each one burns. */
  ghost predicate WithdrawnInTurn(tables: seq<Table>, lists: seq<seq<Payment>>, points: seq<nat>, ws: seq<Withdrawal>, totals: Totals)
  {
    && |tables| == |lists| == |ws| + 1 && |points| == |ws|
    && forall i :: 0 <= i < |ws| ==>
         Withdrawn(tables[i], tables[i + 1], ws[i], totals, points[i], lists[i], lists[i + 1])
  }

  lemma NoHolder(t: Table, a: nat)
    ensures IsHolder(t, a) <==> exists h <- t.holders :: h.address == a
  {
    if IsHolder(t, a) {
      assert t.holders[Find(t.holders, a)] in t.holders;
    }
  }

  lemma OneWithdrawn(t: Table, p: Progress, w: Withdrawal, totals: Totals, counted: nat) returns (points: nat)
    requires w.percent <= 100 && totals.points > 0
    requires PaidProRata(t, p, totals, counted) && counted + PointsToRemove(t, w) <= totals.points
    requires PayOne(p, w, totals).Some?
    ensures var q := PayOne(p, w, totals).value; Withdrawn(p.table, q.table, w, totals, points, p.payments, q.payments)
  {
    points := PointsToRemove(p.table, w);
    NoHolder(p.table, w.address);
    PointsToRemoveShrinks(t, p.table, w);
    if IsHolder(p.table, w.address) {
      MulDivIsShare(PointsOf(p.table, w.address), w.percent, 100);
      MulDivIsShare(totals.x, points, totals.points);
      MulDivIsShare(totals.y, points, totals.points);
      RemovePointsFacts(p.table, w.address, points);
    }
  }

  lemma {:induction false} AllWithdrawn(t: Table, ws: seq<Withdrawal>, totals: Totals)
    returns (tables: seq<Table>, lists: seq<seq<Payment>>, points: seq<nat>)
    requires WellFormed(t) && ValidWithdrawals(ws) && totals.points > 0
    requires FirstPass(t, ws).Some? && FirstPass(t, ws).value <= totals.points
    requires PayAll(t, ws, totals).Some?
    ensures WithdrawnInTurn(tables, lists, points, ws, totals) && tables[0] == t && lists[0] == []
    ensures var end := PayAll(t, ws, totals).value; end.table == tables[|ws|] && end.payments == lists[|ws|]
  {
    tables, lists, points := [t], [[]], [];
    if ws != [] {
      var n := |ws| - 1;
      tables, lists, points := AllWithdrawn(t, ws[..n], totals);
      PayAllKeepsProRata(t, ws[..n], totals);
      var p := PayAll(t, ws[..n], totals).value;
      var burned := OneWithdrawn(t, p, ws[n], totals, FirstPass(t, ws[..n]).value);
      var q := PayOne(p, ws[n], totals).value;
      ExtendsInTurn(tables, lists, points, ws, totals, q.table, q.payments, burned);
      tables, lists, points := tables + [q.table], lists + [q.payments], points + [burned];
    }
  }

  lemma ExtendsInTurn(tables: seq<Table>, lists: seq<seq<Payment>>, points: seq<nat>, ws: seq<Withdrawal>, totals: Totals,
                      table: Table, payments: seq<Payment>, burned: nat)
    requires ws != [] && WithdrawnInTurn(tables, lists, points, ws[..|ws| - 1], totals)
    requires Withdrawn(tables[|ws| - 1], table, ws[|ws| - 1], totals, burned, lists[|ws| - 1], payments)
    ensures WithdrawnInTurn(tables + [table], lists + [payments], points + [burned], ws, totals)
  {
    forall i | 0 <= i < |ws|
      ensures Withdrawn((tables + [table])[i], (tables + [table])[i + 1], ws[i], totals, (points + [burned])[i],
                        (lists + [payments])[i], (lists + [payments])[i + 1]) {
      if i < |ws| - 1 {
        assert ws[..|ws| - 1][i] == ws[i];
      }
    }
  }

  /** The first pass adds up each address's percentage of the points it holds at the start, rounded down. */
  lemma {:induction false} FirstPassIsTheSum(t: Table, ws: seq<Withdrawal>, asked: seq<nat>)
    requires ValidWithdrawals(ws) && |asked| == |ws|
    requires forall i :: 0 <= i < |ws| ==> IsShare(asked[i], PointsOf(t, ws[i].address), ws[i].percent, 100)
    ensures FirstPass(t, ws) == if SumOf(asked) < LIMIT then Some(SumOf(asked)) else None
    ensures SumOf(asked) >= LIMIT ==> forall l: Ledger :: l.table == t ==> Withdraw(l, ws).None?
  {
    if ws != [] {
      var n := |ws| - 1;
      FirstPassIsTheSum(t, ws[..n], asked[..n]);
      MulDivIsShare(PointsOf(t, ws[n].address), ws[n].percent, 100);
      ShareIsUnique(asked[n], PointsToRemove(t, ws[n]), PointsOf(t, ws[n].address), ws[n].percent, 100);
    }
  }

  lemma ShareIsUnique(p: nat, q: nat, total: u64, points: nat, all: nat)
    requires all > 0 && IsShare(p, total, points, all) && IsShare(q, total, points, all)
    ensures p == q
  {
    MulCancelStrict(p, q + 1, all);
    MulCancelStrict(q, p + 1, all);
  }

  /**
   * WITHDRAWALS: unless nothing is asked for, the withdrawals are carried out one after the other, each
   * against the table its predecessors leave and the totals of the start; the sums paid leave the reserves.
   */
  lemma WithdrawalsRun(l: Ledger, ws: seq<Withdrawal>, asked: u64)
    returns (tables: seq<Table>, lists: seq<seq<Payment>>, points: seq<nat>)
    requires WellFormed(l.table) && ValidWithdrawals(ws) && Withdraw(l, ws).Some?
    requires FirstPass(l.table, ws) == Some(asked)
    ensures asked == 0 || l.table.total == 0 ==> Withdraw(l, ws) == Some((l, []))
    ensures asked > 0 && l.table.total > 0 ==>
              && WithdrawnInTurn(tables, lists, points, ws, TotalsFor(l, asked)) && tables[0] == l.table && lists[0] == []
              && SumX(lists[|ws|]) <= l.x && SumY(lists[|ws|]) <= l.y
              && Withdraw(l, ws)
                 == Some((Ledger(l.x - SumX(lists[|ws|]), l.y - SumY(lists[|ws|]), tables[|ws|]), lists[|ws|]))
  {
    tables, lists, points := [], [], [];
    if asked > 0 && l.table.total > 0 {
      tables, lists, points := AllWithdrawn(l.table, ws, TotalsFor(l, asked));
      PaymentsCovered(l, ws, asked);
    }
  }

  /** Withdrawals that ask for fewer points than there are never fail. */
  lemma WithdrawalsSucceed(l: Ledger, ws: seq<Withdrawal>)
    requires WellFormed(l.table) && ValidWithdrawals(ws)
    requires FirstPass(l.table, ws).Some? && FirstPass(l.table, ws).value < l.table.total
    ensures Withdraw(l, ws).Some?
  {
    if FirstPass(l.table, ws).value > 0 {
      PayAllSucceeds(l.table, ws, TotalsFor(l, FirstPass(l.table, ws).value));
    }
  }

  lemma {:induction false} PayAllSucceeds(t: Table, ws: seq<Withdrawal>, totals: Totals)
    requires WellFormed(t) && ValidWithdrawals(ws) && totals.points > 0
    requires FirstPass(t, ws).Some? && FirstPass(t, ws).value <= totals.points < t.total
    ensures PayAll(t, ws, totals).Some?
  {
    if ws != [] {
      var init, w := ws[..|ws| - 1], ws[|ws| - 1];
      PayAllSucceeds(t, init, totals);
      PayAllKeepsProRata(t, init, totals);
      var p := PayAll(t, init, totals).value;
      PointsToRemoveShrinks(t, p.table, w);
      NoHolder(p.table, w.address);
      RemovePointsSucceeds(p.table, w.address, PointsToRemove(p.table, w));
    }
  }

  /** A holder of three points out of four that withdraws everything, twice in one batch. */
  function Eager(): (t: Table)
  {
    Table([Holder(1, 3), Holder(2, 1)], 4)
  }

  /** The asked part of a large reserve is cut to 64 bits: here six points out of four ask for a part that does not fit. */
  lemma AskedPartCanBeCut()
    ensures var l := Ledger(0xC000_0000_0000_0000, 1000, Eager());
            && WellFormed(l.table)
            && FirstPass(l.table, [Withdrawal(1, 100), Withdrawal(1, 100)]) == Some(6)
            && TotalsFor(l, 6).x == 0x2000_0000_0000_0000 && !IsShare(TotalsFor(l, 6).x, l.x, 6, l.table.total)
  {
    var t, w := Eager(), Withdrawal(1, 100);
    assert Find(t.holders, 1) == 0;
    assert Sum(t.holders) == 4 by {
      assert t.holders[..1] == [Holder(1, 3)] && [Holder(1, 3)][..0] == [];
    }
    assert MulDiv(3, 100, 100) == 3 && PointsToRemove(t, w) == 3;
    assert [w, w][..1] == [w] && [w][..0] == [];
    assert FirstPass(t, [w]) == Some(3);
    assert MulDiv(0xC000_0000_0000_0000, 6, 4) == 0x2000_0000_0000_0000;
  }

  /** A payment out of a reserve that leaves at least as much per remaining point. */
  ghost predicate Covers(before: u64, paid: nat, points: nat, left: nat)
  {
    paid <= before && (before - paid) * points >= before * left && (before > 0 && left > 0 ==> paid < before)
  }

  /** paid <= reserve * removed / all, from the two roundings that led there. */
  lemma PaidWithinReserve(reserve: u64, paid: nat, removed: nat, asked: u64, all: u64)
    requires asked > 0 && all > 0 && removed <= all
    requires paid * asked <= MulDiv(reserve, asked, all) * removed
    ensures Covers(reserve, paid, all, all - removed)
  {
    var total := MulDiv(reserve, asked, all);
    MulDivBound(reserve, asked, all);
    calc {
      (paid * all) * asked;
      (paid * asked) * all;
    <= { MulMonotone(paid * asked, total * removed, all); }
      (total * removed) * all;
      (total * all) * removed;
    <= { MulMonotone(total * all, reserve * asked, removed); }
      (reserve * asked) * removed;
      (reserve * removed) * asked;
    }
    MulCancel(paid * all, reserve * removed, asked);
    LeavesItsPart(reserve, paid, removed, all);
  }

  lemma LeavesItsPart(reserve: u64, paid: nat, removed: nat, all: nat)
    requires all > 0 && removed <= all && paid * all <= reserve * removed
    ensures Covers(reserve, paid, all, all - removed)
  {
    MulMonotone(removed, all, reserve);
    MulCancel(paid, reserve, all);
    assert (reserve - paid) * all == reserve * all - paid * all;
    assert reserve * (all - removed) == reserve * all - reserve * removed;
    if reserve > 0 && all > removed {
      MulMonotone(1, reserve, all - removed);
      MulCancelStrict(paid, reserve, all);
    }
  }

  lemma PaymentsCovered(l: Ledger, ws: seq<Withdrawal>, total: u64)
    requires WellFormed(l.table) && ValidWithdrawals(ws) && l.table.total > 0
    requires total > 0 && FirstPass(l.table, ws) == Some(total)
    requires PayAll(l.table, ws, TotalsFor(l, total)).Some?
    ensures var end := PayAll(l.table, ws, TotalsFor(l, total)).value;
            && WellFormed(end.table) && 0 < end.table.total <= l.table.total
            && end.paidX == SumX(end.payments) && end.paidY == SumY(end.payments)
            && Covers(l.x, end.paidX, l.table.total, end.table.total)
            && Covers(l.y, end.paidY, l.table.total, end.table.total)
  {
    var totals := TotalsFor(l, total);
    PayAllKeepsProRata(l.table, ws, totals);
    PointsRemain(l.table, ws, totals);
    var end := PayAll(l.table, ws, totals).value;
    PaidForCovers(l, total, end, l.table.total - end.table.total);
  }

  lemma PaidForCovers(l: Ledger, total: u64, end: Progress, removed: nat)
    requires total > 0 && l.table.total > 0 && removed <= l.table.total
    requires PaidFor(end, TotalsFor(l, total), removed)
    ensures Covers(l.x, end.paidX, l.table.total, l.table.total - removed)
    ensures Covers(l.y, end.paidY, l.table.total, l.table.total - removed)
  {
    PaidWithinReserve(l.x, end.paidX, removed, total, l.table.total);
    PaidWithinReserve(l.y, end.paidY, removed, total, l.table.total);
  }

  /** Points always remain: emptying the table is an error. */
  lemma {:induction false} PointsRemain(t: Table, ws: seq<Withdrawal>, totals: Totals)
    requires t.total > 0 && PayAll(t, ws, totals).Some?
    ensures PayAll(t, ws, totals).value.table.total > 0
  {
    if ws != [] {
      PointsRemain(t, ws[..|ws| - 1], totals);
    }
  }

  /**
   * SOLVENCY: whatever the batch, even with one holder withdrawing repeatedly, the payments come out of
   * the reserves exactly, and neither reserve per remaining point falls.
   */
  lemma WithdrawalsAreSolvent(l: Ledger, ws: seq<Withdrawal>)
    requires WellFormed(l.table) && ValidWithdrawals(ws) && Withdraw(l, ws).Some?
    ensures var (l', payments) := Withdraw(l, ws).value;
            && WellFormed(l'.table) && l'.table.total <= l.table.total
            && Covers(l.x, SumX(payments), l.table.total, l'.table.total) && l'.x == l.x - SumX(payments)
            && Covers(l.y, SumY(payments), l.table.total, l'.table.total) && l'.y == l.y - SumY(payments)
            && (l.table.total > 0 ==> l'.table.total > 0)
            && (l.x > 0 ==> l'.x > 0) && (l.y > 0 ==> l'.y > 0)
  {
    var total := FirstPass(l.table, ws).value;
    if total != 0 && l.table.total != 0 {
      PaymentsCovered(l, ws, total);
    } else {
      assert Covers(l.x, 0, l.table.total, l.table.total) && Covers(l.y, 0, l.table.total, l.table.total);
    }
  }
}
