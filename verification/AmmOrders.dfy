/** A batch of limit orders against a constant-product pool, and its replay on the origin chain. */
module AmmOrders {
  import opened Options
  import opened Uint64

  datatype Order = Order(address: nat, amount: u64, requested: u64)

  /** An order with the hash key that decides its place; keys within a batch are distinct. */
  datatype Keyed = Keyed(order: Order, key: nat)

  /** The reserves (x of the origin chain, y of the chain that pays) and the outcome per key. */
  datatype Fill = Fill(x: u64, y: u64, result: map<nat, u64>)

  /** SafeComputeDY: the constant-product output for dX, with a 1% fee. */
  function ComputeDY(x: u64, y: u64, dX: u64): (dY: nat)
    requires x > 0
  {
    Floor(dX * 990 * y, x * 1000 + dX * 990)
  }

  /** The output leaves something in the pool and never lowers the product of the reserves. */
  lemma ComputeDYFacts(x: u64, y: u64, dX: u64)
    requires x > 0
    ensures var dY := ComputeDY(x, y, dX);
            dY <= y && (y > 0 ==> dY < y) && (x + dX) * (y - dY) >= x * y
  {
    var fee, den := dX * 990, x * 1000 + dX * 990;
    var dY := ComputeDY(x, y, dX);
    DivFacts(fee * y, den);
    assert dY * den <= fee * y;
    if y > 0 {
      assert fee * y < den * y by {
        assert den * y == x * 1000 * y + fee * y;
        MulMonotone(1, x * 1000, y);
      }
      MulCancelStrict(dY, y, den);
    } else {
      MulCancel(dY, 0, den);
    }
    ProductHolds(x, y, dX, dY);
  }

  lemma ProductHolds(x: nat, y: nat, dX: nat, dY: nat)
    requires dY <= y && dY * (x * 1000 + dX * 990) <= dX * 990 * y
    ensures (x + dX) * (y - dY) >= x * y
  {
    var give, take := (x + dX) * dY, dX * y;
    assert 990 * give <= 990 * take by {
      calc {
        990 * give;
        dY * (x * 990 + dX * 990);
      <= { MulMonotone(x * 990 + dX * 990, x * 1000 + dX * 990, dY); }
        dY * (x * 1000 + dX * 990);
      <= dX * 990 * y;
      == 990 * take;
      }
    }
    assert (x + dX) * (y - dY) == (x + dX) * y - give;
    assert (x + dX) * y == x * y + take;
  }

  /** Taking d out for dX keeps the product of the reserves, with the 1% fee counted on dX. */
  predicate KeepsProduct(x: u64, y: u64, dX: u64, d: nat)
  {
    d <= y && (x * 1000 + dX * 990) * (y - d) >= x * 1000 * y
  }

  /** The output is the largest amount that keeps the product after the fee. */
  lemma ComputeDYIsLargest(x: u64, y: u64, dX: u64, d: nat)
    requires x > 0 && d <= y
    ensures d <= ComputeDY(x, y, dX) <==> KeepsProduct(x, y, dX, d)
  {
    var fee, base := dX * 990, x * 1000;
    QuotientIsLargest(fee * y, base + fee, d);
    TakenFrom(base, fee, y, d);
  }

  lemma TakenFrom(base: nat, fee: nat, y: nat, d: nat)
    requires d <= y
    ensures (base + fee) * (y - d) == base * y + fee * y - d * (base + fee)
  {
  }

  /**
   * An order is filled with the most the pool can give at that moment, and refused only if everything
   * from its request upwards would cost the pool.
   */
  lemma OrderGetsTheMost(f: Fill, o: Keyed, d: nat)
    requires f.x > 0 && FillOne(f, o).Some? && KeepsProduct(f.x, f.y, o.order.amount, d)
    ensures var out := FillOne(f, o).value.result[o.key];
            && (out != 0 ==> d <= out && out >= o.order.requested && KeepsProduct(f.x, f.y, o.order.amount, out))
            && (out == 0 ==> d == 0 || d < o.order.requested)
  {
    ComputeDYFacts(f.x, f.y, o.order.amount);
    ComputeDYIsLargest(f.x, f.y, o.order.amount, d);
    ComputeDYIsLargest(f.x, f.y, o.order.amount, ComputeDY(f.x, f.y, o.order.amount));
  }

  function FillOne(f: Fill, o: Keyed): (r: Option<Fill>)
    requires f.x > 0
    ensures r.Some? ==> r.value.x > 0
  {
    var dY := ComputeDY(f.x, f.y, o.order.amount);
    ComputeDYFacts(f.x, f.y, o.order.amount);
    var out := if dY < o.order.requested then 0 else dY;
    if out == 0 then Some(f.(result := f.result[o.key := 0]))
    else
      var xAfter := Add(f.x, o.order.amount);
      if xAfter.None? then None else Some(Fill(xAfter.value, f.y - out, f.result[o.key := out]))
  }

  function FillAll(f: Fill, sorted: seq<Keyed>): (r: Option<Fill>)
    requires f.x > 0
    ensures r.Some? ==> r.value.x > 0
  {
    if sorted == [] then Some(f)
    else
      var before := FillAll(f, sorted[..|sorted| - 1]);
      if before.None? then None else FillOne(before.value, sorted[|sorted| - 1])
  }

  function Receipts(orders: seq<Keyed>, result: map<nat, u64>): (receipts: seq<u64>)
    ensures |receipts| == |orders|
  {
    seq(|orders|, i requires 0 <= i < |orders| => Out(result, orders[i]))
  }

  function Out(result: map<nat, u64>, o: Keyed): (dY: u64)
  {
    if o.key in result then result[o.key] else 0
  }

  /** An order aborts its batch exactly if it would be filled but its amount does not fit in the reserve. */
  lemma FillFailsOnlyOnOverflow(f: Fill, o: Keyed)
    requires f.x > 0
    ensures FillOne(f, o).None? <==>
              && f.x + o.order.amount >= LIMIT
              && exists d: nat :: d > 0 && d >= o.order.requested && KeepsProduct(f.x, f.y, o.order.amount, d)
  {
    var dY := ComputeDY(f.x, f.y, o.order.amount);
    ComputeDYFacts(f.x, f.y, o.order.amount);
    ComputeDYIsLargest(f.x, f.y, o.order.amount, dY);
    forall d: nat | KeepsProduct(f.x, f.y, o.order.amount, d) ensures d <= dY {
      ComputeDYIsLargest(f.x, f.y, o.order.amount, d);
    }
  }

  /** What one order does: nothing but its entry in the result, or both reserves by exactly its amount and output. */
  lemma FillMoves(f: Fill, o: Keyed)
    requires f.x > 0 && FillOne(f, o).Some?
    ensures var g := FillOne(f, o).value; var out := Out(g.result, o);
            && g.result == f.result[o.key := out] && out <= f.y
            && g.y == f.y - out && g.x == f.x + if out == 0 then 0 else o.order.amount
  {
    ComputeDYFacts(f.x, f.y, o.order.amount);
  }

  function Amounts(orders: seq<Keyed>): (sum: nat)
  {
    if orders == [] then 0 else Amounts(orders[..|orders| - 1]) + orders[|orders| - 1].order.amount
  }

  /** While all amounts fit in the reserve, a batch of orders never fails. */
  lemma {:induction false} FillAllSucceeds(f: Fill, sorted: seq<Keyed>)
    requires f.x > 0 && f.x + Amounts(sorted) < LIMIT
    ensures FillAll(f, sorted).Some? && FillAll(f, sorted).value.x <= f.x + Amounts(sorted)
  {
    if sorted != [] {
      var init, o := sorted[..|sorted| - 1], sorted[|sorted| - 1];
      FillAllSucceeds(f, init);
      FillFailsOnlyOnOverflow(FillAll(f, init).value, o);
      FillMoves(FillAll(f, init).value, o);
    }
  }

  /**
   * ONE AFTER THE OTHER: the orders meet the reserves that their predecessors in the list leave, and each
   * receipt is what its order got then.
   */
  lemma {:induction false} FillsInTurn(f: Fill, sorted: seq<Keyed>) returns (fills: seq<Fill>)
    requires f.x > 0 && FillAll(f, sorted).Some?
    ensures |fills| == |sorted| + 1 && fills[0] == f && FillAll(f, sorted) == Some(fills[|sorted|])
    ensures forall i :: 0 <= i < |sorted| ==> fills[i].x > 0 && FillOne(fills[i], sorted[i]) == Some(fills[i + 1])
  {
    fills := [f];
    if sorted != [] {
      fills := FillsInTurn(f, sorted[..|sorted| - 1]);
      fills := fills + [FillAll(f, sorted).value];
    }
  }

  // ---------------------------------------------------------------- sums over orders

  function SumBy(s: seq<Keyed>, f: Keyed -> nat): (sum: nat)
  {
    if s == [] then 0 else SumBy(s[..|s| - 1], f) + f(s[|s| - 1])
  }

  function PaidBy(result: map<nat, u64>): (f: Keyed -> nat)
  {
    o => Out(result, o)
  }

  function BoughtBy(result: map<nat, u64>): (f: Keyed -> nat)
  {
    o => if Out(result, o) != 0 then o.order.amount else 0
  }

  lemma {:induction false} SumByConcat(a: seq<Keyed>, b: seq<Keyed>, f: Keyed -> nat)
    ensures SumBy(a + b, f) == SumBy(a, f) + SumBy(b, f)
  {
    if b == [] {
      assert a + b == a;
    } else {
      assert (a + b)[..|a + b| - 1] == a + b[..|b| - 1];
      SumByConcat(a, b[..|b| - 1], f);
    }
  }

  lemma TakeOut(b: seq<Keyed>, o: Keyed, f: Keyed -> nat) returns (rest: seq<Keyed>)
    requires o in b
    ensures multiset(b) == multiset(rest) + multiset{o}
    ensures SumBy(b, f) == SumBy(rest, f) + f(o)
  {
    var i :| 0 <= i < |b| && b[i] == o;
    rest := b[..i] + b[i + 1..];
    assert b == b[..i] + ([o] + b[i + 1..]);
    SumByConcat(b[..i], b[i + 1..], f);
    SumByConcat([o], b[i + 1..], f);
    SumByConcat(b[..i], [o] + b[i + 1..], f);
    assert [o][..0] == [];
  }

  /** A sum does not depend on the order of its terms. */
  lemma {:induction false} SumByPermutation(a: seq<Keyed>, b: seq<Keyed>, f: Keyed -> nat)
    requires multiset(a) == multiset(b)
    ensures SumBy(a, f) == SumBy(b, f)
    decreases |a|
  {
    if a == [] {
      assert |multiset(b)| == 0;
    } else {
      var init, o := a[..|a| - 1], a[|a| - 1];
      assert a == init + [o];
      assert o in multiset(b);
      var rest := TakeOut(b, o, f);
      assert multiset(init) == multiset(a) - multiset{o};
      SumByPermutation(init, rest, f);
    }
  }

  lemma {:induction false} SumBySame(s: seq<Keyed>, f: Keyed -> nat, g: Keyed -> nat)
    requires forall o <- s :: f(o) == g(o)
    ensures SumBy(s, f) == SumBy(s, g)
  {
    if s != [] {
      SumBySame(s[..|s| - 1], f, g);
    }
  }

  // ---------------------------------------------------------------- execution

  predicate DistinctKeys(s: seq<Keyed>)
  {
    forall i, j :: 0 <= i < j < |s| ==> s[i].key != s[j].key
  }

  /** What executing the orders of `done` has done to the pool. */
  ghost predicate Executed(start: Fill, f: Fill, done: seq<Keyed>)
  {
    && f.x > 0 && f.y > 0
    && f.x * f.y >= start.x * start.y
    && (forall o <- done :: o.key in f.result)
    && (forall o <- done :: f.result[o.key] != 0 ==> f.result[o.key] >= o.order.requested)
    && f.x == start.x + SumBy(done, BoughtBy(f.result))
    && f.y + SumBy(done, PaidBy(f.result)) == start.y
  }

  lemma FillOneSums(f: Fill, done: seq<Keyed>, o: Keyed)
    requires f.x > 0 && FillOne(f, o).Some?
    requires forall p <- done :: p.key != o.key
    ensures var f' := FillOne(f, o).value;
            && SumBy(done + [o], BoughtBy(f'.result)) == SumBy(done, BoughtBy(f.result)) + f'.x - f.x
            && SumBy(done + [o], PaidBy(f'.result)) == SumBy(done, PaidBy(f.result)) + f.y - f'.y
  {
    var f' := FillOne(f, o).value;
    ComputeDYFacts(f.x, f.y, o.order.amount);
    SumBySame(done, BoughtBy(f.result), BoughtBy(f'.result));
    SumBySame(done, PaidBy(f.result), PaidBy(f'.result));
    assert (done + [o])[..|done|] == done;
  }

  lemma FillOneKeepsExecuted(start: Fill, f: Fill, done: seq<Keyed>, o: Keyed)
    requires Executed(start, f, done) && DistinctKeys(done + [o]) && FillOne(f, o).Some?
    ensures Executed(start, FillOne(f, o).value, done + [o])
  {
    var f' := FillOne(f, o).value;
    ComputeDYFacts(f.x, f.y, o.order.amount);
    forall p | p in done ensures p.key != o.key {
      var i :| 0 <= i < |done| && done[i] == p;
      assert (done + [o])[i].key != (done + [o])[|done|].key;
    }
    FillOneSums(f, done, o);
    assert f'.result == f.result[o.key := f'.result[o.key]];
  }

  lemma {:induction false} FillAllExecutes(start: Fill, sorted: seq<Keyed>)
    requires start.x > 0 && start.y > 0 && start.result == map[]
    requires DistinctKeys(sorted) && FillAll(start, sorted).Some?
    ensures Executed(start, FillAll(start, sorted).value, sorted)
  {
    if sorted != [] {
      var init, o := sorted[..|sorted| - 1], sorted[|sorted| - 1];
      FillAllExecutes(start, init);
      assert sorted == init + [o];
      FillOneKeepsExecuted(start, FillAll(start, init).value, init, o);
    }
  }

  function SumReceipts(receipts: seq<u64>): (sum: nat)
  {
    if receipts == [] then 0 else SumReceipts(receipts[..|receipts| - 1]) + receipts[|receipts| - 1]
  }

  lemma {:induction false} ReceiptsSum(orders: seq<Keyed>, result: map<nat, u64>)
    ensures SumReceipts(Receipts(orders, result)) == SumBy(orders, PaidBy(result))
  {
    if orders != [] {
      ReceiptsSum(orders[..|orders| - 1], result);
      assert Receipts(orders, result)[..|orders| - 1] == Receipts(orders[..|orders| - 1], result);
    }
  }

  /**
   * AMM BATCH: in every execution order the product of the reserves never falls, the paying reserve stays
   * positive, every filled order gets at least what it asked for, and the receipts add up to exactly what
   * left the reserve, so the payouts are covered.
   */
  lemma BatchExecution(x: u64, y: u64, sorted: seq<Keyed>, orders: seq<Keyed>)
    requires x > 0 && y > 0 && DistinctKeys(sorted) && multiset(sorted) == multiset(orders)
    requires FillAll(Fill(x, y, map[]), sorted).Some?
    ensures var f := FillAll(Fill(x, y, map[]), sorted).value;
            var receipts := Receipts(orders, f.result);
            && f.x * f.y >= x * y && f.y > 0 && f.x >= x
            && SumReceipts(receipts) + f.y == y
            && (forall i :: 0 <= i < |orders| && receipts[i] != 0 ==> receipts[i] >= orders[i].order.requested)
  {
    var start := Fill(x, y, map[]);
    FillAllExecutes(start, sorted);
    var f := FillAll(start, sorted).value;
    SumByPermutation(sorted, orders, PaidBy(f.result));
    ReceiptsSum(orders, f.result);
    forall i | 0 <= i < |orders| && Out(f.result, orders[i]) != 0
      ensures Out(f.result, orders[i]) >= orders[i].order.requested
    {
      assert orders[i] in multiset(orders);
      assert orders[i] in sorted;
    }
  }

  // ---------------------------------------------------------------- the origin chain's replay

  datatype Reserves = Reserves(x: u64, y: u64)

  /** HandleOrderReceipts, one order: `x` is this chain's own pool, `y` its shadow of the counter pool. */
  function SettleOne(r: Reserves, o: Order, dY: u64): (s: Option<Reserves>)
  {
    if dY == 0 then Some(r)
    else if r.y <= dY then None
    else Some(Reserves((r.x + o.amount) % LIMIT, r.y - dY))
  }

  function SettleAll(r: Reserves, orders: seq<Order>, receipts: seq<u64>): (s: Option<Reserves>)
    requires |orders| == |receipts|
  {
    if orders == [] then Some(r)
    else
      var n := |orders| - 1;
      var before := SettleAll(r, orders[..n], receipts[..n]);
      if before.None? then None else SettleOne(before.value, orders[n], receipts[n])
  }

  /** The amounts of the orders that got something. */
  function Bought(orders: seq<Order>, receipts: seq<u64>): (sum: nat)
    requires |orders| == |receipts|
  {
    if orders == [] then 0
    else
      var n := |orders| - 1;
      Bought(orders[..n], receipts[..n]) + if receipts[n] == 0 then 0 else orders[n].amount
  }

  /**
   * SETTLEMENT: the receipts are accepted exactly if they sum to less than the shadow reserve, or to nothing;
   * the shadow then gives up their sum, and the own reserve gains the amounts of the orders that got something.
   */
  lemma {:induction false} SettlementIsExact(r: Reserves, orders: seq<Order>, receipts: seq<u64>)
    requires |orders| == |receipts|
    ensures SettleAll(r, orders, receipts).Some? <==> SumReceipts(receipts) == 0 || SumReceipts(receipts) < r.y
    ensures SettleAll(r, orders, receipts).Some? ==>
              var s := SettleAll(r, orders, receipts).value;
              && s.y == r.y - SumReceipts(receipts)
              && (r.x + Bought(orders, receipts) < LIMIT ==> s.x == r.x + Bought(orders, receipts))
  {
    if orders != [] {
      var n := |orders| - 1;
      SettlementIsExact(r, orders[..n], receipts[..n]);
    }
  }

  function Plain(orders: seq<Keyed>): (plain: seq<Order>)
    ensures |plain| == |orders|
  {
    seq(|orders|, i requires 0 <= i < |orders| => orders[i].order)
  }

  lemma {:induction false} SettlePrefix(r: Reserves, orders: seq<Keyed>, result: map<nat, u64>)
    requires SumBy(orders, PaidBy(result)) < r.y
    requires r.x + SumBy(orders, BoughtBy(result)) < LIMIT
    ensures SettleAll(r, Plain(orders), Receipts(orders, result))
            == Some(Reserves(r.x + SumBy(orders, BoughtBy(result)), r.y - SumBy(orders, PaidBy(result))))
  {
    if orders != [] {
      var init, last := orders[..|orders| - 1], orders[|orders| - 1];
      var dY := Out(result, last);
      assert SumBy(orders, PaidBy(result)) == SumBy(init, PaidBy(result)) + dY;
      assert SumBy(orders, BoughtBy(result)) == SumBy(init, BoughtBy(result)) + if dY != 0 then last.order.amount else 0;
      SettlePrefix(r, init, result);
      assert Plain(orders)[..|orders| - 1] == Plain(init);
      assert Receipts(orders, result)[..|orders| - 1] == Receipts(init, result);
      assert SettleAll(r, Plain(orders), Receipts(orders, result))
          == SettleOne(SettleAll(r, Plain(init), Receipts(init, result)).value, last.order, dY);
    }
  }

  /**
   * Orders executed in hash order on one chain and settled in their original order on the other leave
   * both with the same reserves.
   */
  lemma OrdersMirror(x: u64, y: u64, sorted: seq<Keyed>, orders: seq<Keyed>)
    requires x > 0 && y > 0 && DistinctKeys(sorted) && multiset(sorted) == multiset(orders)
    requires FillAll(Fill(x, y, map[]), sorted).Some?
    ensures var f := FillAll(Fill(x, y, map[]), sorted).value;
            SettleAll(Reserves(x, y), Plain(orders), Receipts(orders, f.result)) == Some(Reserves(f.x, f.y))
  {
    FillAllExecutes(Fill(x, y, map[]), sorted);
    var f := FillAll(Fill(x, y, map[]), sorted).value;
    SumByPermutation(sorted, orders, PaidBy(f.result));
    SumByPermutation(sorted, orders, BoughtBy(f.result));
    SettlePrefix(Reserves(x, y), orders, f.result);
  }
}
