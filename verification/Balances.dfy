/** Amounts per address or id, and their total. */
module Balances {
  import opened Options
  import opened Uint64

  function Amount(m: map<nat, u64>, k: nat): (amount: u64)
  {
    if k in m then m[k] else 0
  }

  ghost function Total(m: map<nat, u64>): (total: nat)
    decreases |m|
  {
    if m == map[] then 0
    else
      var k :| k in m;
      m[k] + Total(m - {k})
  }

  /** The total can be taken apart at any key. */
  lemma {:induction false} TotalAt(m: map<nat, u64>, k: nat)
    ensures Total(m) == Amount(m, k) + Total(m - {k})
    decreases |m|
  {
    if k !in m {
      assert m - {k} == m;
    } else {
      var p :| p in m && Total(m) == m[p] + Total(m - {p});
      if p != k {
        TotalAt(m - {p}, k);
        TotalAt(m - {k}, p);
        assert m - {p} - {k} == m - {k} - {p};
      }
    }
  }

  /** Changing one amount changes the total by the difference. */
  lemma TotalUpdate(m: map<nat, u64>, k: nat, v: u64)
    ensures Total(m[k := v]) + Amount(m, k) == Total(m) + v
    ensures v <= Total(m[k := v]) && Amount(m, k) <= Total(m)
  {
    TotalAt(m, k);
    TotalAt(m[k := v], k);
    assert m[k := v] - {k} == m - {k};
  }

  /** AccountAdd: fails on overflow; adding nothing changes nothing. */
  function Credited(m: map<nat, u64>, a: nat, amount: u64): (r: Option<map<nat, u64>>)
  {
    if amount == 0 then Some(m)
    else if Amount(m, a) + amount >= LIMIT then None
    else Some(m[a := Amount(m, a) + amount])
  }

  /** AccountSub: only `spendable`, the part of a balance that is not vesting, may leave it. */
  function Debited(m: map<nat, u64>, a: nat, amount: u64, spendable: u64): (r: Option<map<nat, u64>>)
  {
    if amount == 0 then Some(m)
    else if amount > spendable || amount > Amount(m, a) then None
    else Some(m[a := Amount(m, a) - amount])
  }

  /** A credit reaches exactly one account, and fails only when that account would overflow. */
  lemma CreditedMoves(m: map<nat, u64>, a: nat, amount: u64)
    ensures Credited(m, a, amount).Some? <==> amount == 0 || Amount(m, a) + amount < LIMIT
    ensures Credited(m, a, amount).Some? ==>
              var n := Credited(m, a, amount).value;
              Total(n) == Total(m) + amount && forall b :: Amount(n, b) == Amount(m, b) + if b == a then amount else 0
    ensures Amount(m, a) <= Total(m)
  {
    TotalUpdate(m, a, Amount(m, a));
    if Amount(m, a) + amount < LIMIT {
      TotalUpdate(m, a, Amount(m, a) + amount);
    }
  }

  /** A debit takes exactly its amount from exactly one account. */
  lemma DebitedMoves(m: map<nat, u64>, a: nat, amount: u64, spendable: u64)
    requires Debited(m, a, amount, spendable).Some?
    ensures var n := Debited(m, a, amount, spendable).value;
            Total(n) + amount == Total(m) && forall b :: Amount(n, b) + (if b == a then amount else 0) == Amount(m, b)
  {
    if amount > 0 {
      TotalUpdate(m, a, Amount(m, a) - amount);
    }
  }
}
