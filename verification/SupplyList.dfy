/** The supply's list of pools: staked amounts per committee, without zeros, sorted, and used as a map. */
module SupplyList {
  import opened Uint64
  import opened Balances

  datatype Pool = Pool(id: nat, amount: u64)

  /** The list order: by amount descending, then by id. */
  predicate Before(p: Pool, q: Pool)
  {
    p.amount > q.amount || (p.amount == q.amount && p.id < q.id)
  }

  predicate Sorted(l: seq<Pool>)
  {
    forall i, j :: 0 <= i < j < |l| ==> Before(l[i], l[j])
  }

  predicate UniqueIds(l: seq<Pool>)
  {
    forall i, j :: 0 <= i < j < |l| ==> l[i].id != l[j].id
  }

  /** The list has exactly the entries of the map. */
  ghost predicate Lists(l: seq<Pool>, m: map<nat, u64>)
  {
    && (forall p <- l :: p.id in m && m[p.id] == p.amount)
    && (forall id <- m :: Pool(id, m[id]) in l)
  }

  /** The one list that stands for a map: sorted, no id twice, no zero. */
  ghost predicate Canonical(l: seq<Pool>, m: map<nat, u64>)
  {
    Sorted(l) && UniqueIds(l) && Lists(l, m) && forall id <- m :: m[id] != 0
  }

  /** A map with one amount changed; an amount of zero is not kept. */
  function Adjusted(m: map<nat, u64>, id: nat, amount: u64): (after: map<nat, u64>)
  {
    if amount == 0 then m - {id} else m[id := amount]
  }

  lemma {:induction false} CanonicalIsUnique(l: seq<Pool>, k: seq<Pool>, m: map<nat, u64>)
    requires Canonical(l, m) && Canonical(k, m)
    ensures l == k
    decreases |l|
  {
    if l != [] {
      HeadsAgree(l, k, m);
      TailCanonical(l, m);
      TailCanonical(k, m);
      CanonicalIsUnique(l[1..], k[1..], m - {l[0].id});
      assert l == [l[0]] + l[1..] && k == [k[0]] + k[1..];
    } else if k != [] {
      HeadsAgree(k, l, m);
    }
  }

  lemma HeadsAgree(l: seq<Pool>, k: seq<Pool>, m: map<nat, u64>)
    requires Canonical(l, m) && Canonical(k, m) && l != []
    ensures k != [] && k[0] == l[0]
  {
    var p := l[0];
    assert p in l && Pool(p.id, m[p.id]) in k;
    var q := k[0];
    assert q in k && Pool(q.id, m[q.id]) in l;
    var i :| 0 <= i < |k| && k[i] == p;
    var j :| 0 <= j < |l| && l[j] == q;
    assert i > 0 ==> Before(q, p);
    assert j > 0 ==> Before(p, q);
  }

  lemma TailCanonical(l: seq<Pool>, m: map<nat, u64>)
    requires Canonical(l, m) && l != []
    ensures Canonical(l[1..], m - {l[0].id})
  {
    var t, rest := l[1..], m - {l[0].id};
    assert forall i :: 0 <= i < |t| ==> t[i] == l[i + 1];
    assert l[0] in l;
    forall p | p in t ensures p.id in rest && rest[p.id] == p.amount {
      var i :| 0 <= i < |t| && t[i] == p;
      assert l[i + 1] in l && l[0].id != l[i + 1].id;
    }
    forall k | k in rest ensures Pool(k, rest[k]) in t {
      assert Pool(k, m[k]) in l;
      var i :| 0 <= i < |l| && l[i] == Pool(k, m[k]);
      assert t[i - 1] == l[i];
    }
  }

  // ---------------------------------------------------------------- filter and sort

  function NonZero(l: seq<Pool>): (r: seq<Pool>)
  {
    if l == [] then []
    else NonZero(l[..|l| - 1]) + if l[|l| - 1].amount == 0 then [] else [l[|l| - 1]]
  }

  function Insert(l: seq<Pool>, p: Pool): (r: seq<Pool>)
  {
    if l == [] then [p]
    else if Before(p, l[0]) then [p] + l
    else [l[0]] + Insert(l[1..], p)
  }

  function Sort(l: seq<Pool>): (r: seq<Pool>)
  {
    if l == [] then [] else Insert(Sort(l[..|l| - 1]), l[|l| - 1])
  }

  lemma {:induction false} NonZeroKeeps(l: seq<Pool>)
    requires UniqueIds(l)
    ensures UniqueIds(NonZero(l))
    ensures forall p :: p in NonZero(l) <==> p in l && p.amount != 0
  {
    if l != [] {
      var init, last := l[..|l| - 1], l[|l| - 1];
      NonZeroKeeps(init);
      assert l == init + [last];
      forall p | p in NonZero(init) ensures p.id != last.id {
        assert p in init;
        var i :| 0 <= i < |init| && init[i] == p;
        assert l[i] == p;
      }
    }
  }

  lemma {:induction false} InsertKeepsSorted(l: seq<Pool>, p: Pool)
    requires Sorted(l) && UniqueIds(l) && forall q <- l :: q.id != p.id
    ensures Sorted(Insert(l, p)) && UniqueIds(Insert(l, p))
    ensures forall q :: q in Insert(l, p) <==> q in l || q == p
  {
    if l != [] && !Before(p, l[0]) {
      var tail := l[1..];
      assert l == [l[0]] + tail;
      assert forall i :: 0 <= i < |tail| ==> tail[i] == l[i + 1];
      InsertKeepsSorted(tail, p);
      forall q | q in Insert(tail, p) ensures Before(l[0], q) && l[0].id != q.id {
        if q != p {
          assert q in tail;
          var i :| 0 <= i < |tail| && tail[i] == q;
          assert l[i + 1] == q;
        } else {
          assert l[0] in l;
        }
      }
    } else if l != [] {
      forall q | q in l ensures Before(p, q) {
        var i :| 0 <= i < |l| && l[i] == q;
        assert i > 0 ==> Before(l[0], l[i]);
      }
    }
  }

  lemma {:induction false} SortSorts(l: seq<Pool>)
    requires UniqueIds(l)
    ensures Sorted(Sort(l)) && UniqueIds(Sort(l))
    ensures forall p :: p in Sort(l) <==> p in l
  {
    if l != [] {
      var init, last := l[..|l| - 1], l[|l| - 1];
      assert l == init + [last];
      SortSorts(init);
      forall q | q in Sort(init) ensures q.id != last.id {
        assert q in init;
        var i :| 0 <= i < |init| && init[i] == q;
        assert l[i] == q;
      }
      InsertKeepsSorted(Sort(init), last);
    }
  }

  /** Filtering and sorting a list that holds a map's entries gives the canonical list of its nonzero ones. */
  lemma FilterAndSortIsCanonical(l: seq<Pool>, m: map<nat, u64>, id: nat, amount: u64)
    requires UniqueIds(l) && Lists(l, m[id := amount]) && forall k <- m :: m[k] != 0
    ensures Canonical(Sort(NonZero(l)), Adjusted(m, id, amount))
  {
    NonZeroKeeps(l);
    SortSorts(NonZero(l));
    var after := Adjusted(m, id, amount);
    forall p | p in Sort(NonZero(l)) ensures p.id in after && after[p.id] == p.amount {
      assert p in l && p.amount != 0;
    }
    forall k | k in after ensures Pool(k, after[k]) in Sort(NonZero(l)) {
      assert k in m[id := amount] && m[id := amount][k] == after[k];
      assert Pool(k, after[k]) in l;
    }
  }

  method FilterAndSortPool(l: seq<Pool>) returns (r: seq<Pool>)
    ensures r == Sort(NonZero(l))
  {
    var kept: seq<Pool> := [];
    for i := 0 to |l|
      invariant kept == NonZero(l[..i])
    {
      assert l[..i + 1][..i] == l[..i];
      if l[i].amount != 0 {
        kept := kept + [l[i]];
      }
    }
    assert l[..|l|] == l;
    r := Sort(kept);
  }

  /** The position of an id, or the length of the list. */
  predicate IsPosition(l: seq<Pool>, id: nat, i: nat)
  {
    i <= |l| && (i < |l| ==> l[i].id == id) && (i == |l| ==> forall p <- l :: p.id != id)
  }

  method FindOrEnd(l: seq<Pool>, id: nat, ghost m: map<nat, u64>) returns (i: nat, held: u64)
    requires Lists(l, m)
    ensures IsPosition(l, id, i) && held == Amount(m, id)
  {
    i, held := 0, 0;
    while i < |l| && l[i].id != id
      invariant 0 <= i <= |l|
      invariant forall j :: 0 <= j < i ==> l[j].id != id
    {
      i := i + 1;
    }
    if i < |l| {
      held := l[i].amount;
    }
  }

  function Replaced(l: seq<Pool>, i: nat, p: Pool): (r: seq<Pool>)
    requires i <= |l|
  {
    if i == |l| then l + [p] else l[i := p]
  }

  /** The list after the callback has set the target's amount. */
  lemma ReplacedLists(l: seq<Pool>, m: map<nat, u64>, i: nat, id: nat, amount: u64)
    requires Canonical(l, m) && IsPosition(l, id, i)
    ensures UniqueIds(Replaced(l, i, Pool(id, amount))) && Lists(Replaced(l, i, Pool(id, amount)), m[id := amount])
  {
    var l', after := Replaced(l, i, Pool(id, amount)), m[id := amount];
    assert l'[i] == Pool(id, amount);
    forall p | p in l' ensures p.id in after && after[p.id] == p.amount {
      var j :| 0 <= j < |l'| && l'[j] == p;
      assert j != i ==> l[j] in l && l[j].id != id;
    }
    forall k | k in after ensures Pool(k, after[k]) in l' {
      if k != id {
        assert Pool(k, m[k]) in l;
        var j :| 0 <= j < |l| && l[j] == Pool(k, m[k]);
        assert l'[j] == l[j];
      }
    }
  }

  /** Sets the target's amount, then filters and sorts. */
  method Store(l: seq<Pool>, i: nat, id: nat, amount: u64, ghost m: map<nat, u64>) returns (l': seq<Pool>)
    requires Canonical(l, m) && IsPosition(l, id, i)
    ensures Canonical(l', Adjusted(m, id, amount))
  {
    ReplacedLists(l, m, i, id, amount);
    FilterAndSortIsCanonical(Replaced(l, i, Pool(id, amount)), m, id, amount);
    l' := FilterAndSortPool(Replaced(l, i, Pool(id, amount)));
  }

  /** addToSupplyPool: the list behaves as the map; it fails only on overflow. */
  method AddToSupplyPool(l: seq<Pool>, id: nat, amount: u64, ghost m: map<nat, u64>) returns (ok: bool, l': seq<Pool>)
    requires Canonical(l, m)
    ensures ok <==> Amount(m, id) + amount < LIMIT
    ensures ok ==> Canonical(l', Adjusted(m, id, Amount(m, id) + amount))
    ensures !ok ==> l' == l
  {
    var i, held := FindOrEnd(l, id, m);
    if held > LIMIT - 1 - amount {
      return false, l;
    }
    l' := Store(l, i, id, held + amount, m);
    ok := true;
  }

  /** subFromSupplyPool: fails only when less is held. */
  method SubFromSupplyPool(l: seq<Pool>, id: nat, amount: u64, ghost m: map<nat, u64>) returns (ok: bool, l': seq<Pool>)
    requires Canonical(l, m)
    ensures ok <==> Amount(m, id) >= amount
    ensures ok ==> Canonical(l', Adjusted(m, id, Amount(m, id) - amount))
    ensures !ok ==> l' == l
  {
    var i, held := FindOrEnd(l, id, m);
    if held < amount {
      return false, l;
    }
    l' := Store(l, i, id, held - amount, m);
    ok := true;
  }
}
