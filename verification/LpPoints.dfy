/** The liquidity-point table of a pool: who owns which share. */
module LpPoints {
  import opened Options
  import opened Uint64

  const MAX_PROVIDERS: nat := 50_000

  datatype Holder = Holder(address: nat, points: u64)

  /** The providers in the order they joined, and the tracked total of their points. */
  datatype Table = Table(holders: seq<Holder>, total: u64)

  function Sum(holders: seq<Holder>): (sum: nat)
  {
    if holders == [] then 0 else Sum(holders[..|holders| - 1]) + holders[|holders| - 1].points
  }

  /** The position of an address's entry, or the length of the list. */
  function Find(holders: seq<Holder>, address: nat): (i: nat)
    ensures i <= |holders|
    ensures forall j :: 0 <= j < i ==> holders[j].address != address
    ensures i < |holders| ==> holders[i].address == address
  {
    if holders == [] then 0
    else if holders[0].address == address then 0
    else 1 + Find(holders[1..], address)
  }

  predicate IsHolder(t: Table, address: nat)
  {
    Find(t.holders, address) < |t.holders|
  }

  /** GetPointsFor, with 0 for an address that holds nothing. */
  function PointsOf(t: Table, address: nat): (points: u64)
  {
    if IsHolder(t, address) then t.holders[Find(t.holders, address)].points else 0
  }

  /** One entry per address, and the tracked total is the sum of the entries. */
  predicate WellFormed(t: Table)
  {
    Distinct(t.holders) && t.total == Sum(t.holders)
  }

  function AddPoints(t: Table, address: nat, points: u64): (r: Option<Table>)
  {
    var i := Find(t.holders, address);
    if points == 0 then Some(t)
    else if t.total + points >= LIMIT then None
    else if i < |t.holders| then
      if t.holders[i].points + points >= LIMIT then None
      else Some(Table(t.holders[i := Holder(address, t.holders[i].points + points)], t.total + points))
    else if |t.holders| >= MAX_PROVIDERS then None
    else Some(Table(t.holders + [Holder(address, points)], t.total + points))
  }

  /** Unsigned subtraction as the machine does it. */
  function WrapSub(a: u64, b: u64): (r: u64)
  {
    if a >= b then a - b else LIMIT + a - b
  }

  /** Fails for an unknown address, and when no points at all would be left. */
  function RemovePoints(t: Table, address: nat, points: u64): (r: Option<Table>)
  {
    var i := Find(t.holders, address);
    if i == |t.holders| then None
    else
      var left := WrapSub(t.holders[i].points, points);
      var total := WrapSub(t.total, points);
      if total == 0 then None
      else if left == 0 then Some(Table(t.holders[..i] + t.holders[i + 1..], total))
      else Some(Table(t.holders[i := Holder(address, left)], total))
  }

  method FindHolder(holders: seq<Holder>, address: nat) returns (i: nat)
    ensures i == Find(holders, address)
  {
    i := 0;
    while i < |holders| && holders[i].address != address
      invariant 0 <= i <= |holders|
      invariant forall j :: 0 <= j < i ==> holders[j].address != address
    {
      i := i + 1;
    }
  }

  /** AddPoints as the pool runs it: search the list, then change or extend it. */
  method Credit(t: Table, address: nat, points: u64) returns (ok: bool, t': Table)
    ensures ok <==> AddPoints(t, address, points).Some?
    ensures t' == if ok then AddPoints(t, address, points).value else t
  {
    if points == 0 {
      return true, t;
    }
    var i := FindHolder(t.holders, address);
    if t.total > LIMIT - 1 - points {
      return false, t;
    }
    if i < |t.holders| {
      if t.holders[i].points > LIMIT - 1 - points {
        return false, t;
      }
      return true, Table(t.holders[i := Holder(address, t.holders[i].points + points)], t.total + points);
    }
    if |t.holders| >= MAX_PROVIDERS {
      return false, t;
    }
    return true, Table(t.holders + [Holder(address, points)], t.total + points);
  }

  lemma {:induction false} SumConcat(a: seq<Holder>, b: seq<Holder>)
    ensures Sum(a + b) == Sum(a) + Sum(b)
  {
    if b == [] {
      assert a + b == a;
    } else {
      assert (a + b)[..|a + b| - 1] == a + b[..|b| - 1];
      SumConcat(a, b[..|b| - 1]);
    }
  }

  lemma SumSplit(holders: seq<Holder>, i: nat)
    requires i < |holders|
    ensures Sum(holders) == Sum(holders[..i]) + holders[i].points + Sum(holders[i + 1..])
  {
    assert holders == holders[..i] + ([holders[i]] + holders[i + 1..]);
    SumConcat([holders[i]], holders[i + 1..]);
    SumConcat(holders[..i], [holders[i]] + holders[i + 1..]);
    assert Sum([holders[i]]) == holders[i].points by {
      assert [holders[i]][..0] == [];
    }
  }

  lemma EntryAtMostTotal(t: Table, address: nat)
    requires WellFormed(t)
    ensures PointsOf(t, address) <= t.total
  {
    if IsHolder(t, address) {
      SumSplit(t.holders, Find(t.holders, address));
    }
  }

  predicate Distinct(holders: seq<Holder>)
  {
    forall i, j :: 0 <= i < j < |holders| ==> holders[i].address != holders[j].address
  }

  /** In a list with one entry per address, any entry of an address is the one Find returns. */
  lemma EntryIs(t: Table, i: nat)
    requires Distinct(t.holders) && i < |t.holders|
    ensures PointsOf(t, t.holders[i].address) == t.holders[i].points
  {
    var j := Find(t.holders, t.holders[i].address);
    assert j == i;
  }

  /** Changing or appending one entry leaves every other address alone. */
  lemma OthersKeep(t: Table, t': Table, address: nat, a: nat)
    requires Distinct(t.holders) && Distinct(t'.holders) && a != address
    requires forall h <- t.holders :: h.address != address ==> h in t'.holders
    requires forall h <- t'.holders :: h.address != address ==> h in t.holders
    ensures PointsOf(t', a) == PointsOf(t, a)
  {
    if IsHolder(t, a) {
      var h := t.holders[Find(t.holders, a)];
      var k :| 0 <= k < |t'.holders| && t'.holders[k] == h;
      EntryIs(t', k);
    }
  }

  lemma DropEntry(holders: seq<Holder>, i: nat)
    requires Distinct(holders) && i < |holders|
    ensures Distinct(holders[..i] + holders[i + 1..])
    ensures forall h <- holders[..i] + holders[i + 1..] :: h in holders && h.address != holders[i].address
    ensures forall h <- holders :: h.address != holders[i].address ==> h in holders[..i] + holders[i + 1..]
  {
    assert holders == holders[..i] + [holders[i]] + holders[i + 1..];
  }

  lemma EvictFacts(t: Table, t': Table, i: nat)
    requires WellFormed(t) && i < |t.holders| && t.total >= t.holders[i].points
    requires t' == Table(t.holders[..i] + t.holders[i + 1..], t.total - t.holders[i].points)
    ensures WellFormed(t') && PointsOf(t', t.holders[i].address) == 0
    ensures forall a :: a != t.holders[i].address ==> PointsOf(t', a) == PointsOf(t, a)
  {
    SumSplit(t.holders, i);
    SumConcat(t.holders[..i], t.holders[i + 1..]);
    DropEntry(t.holders, i);
    forall a | a != t.holders[i].address ensures PointsOf(t', a) == PointsOf(t, a) {
      OthersKeep(t, t', t.holders[i].address, a);
    }
  }

  lemma SetEntryFacts(t: Table, t': Table, i: nat, points: u64, total: u64)
    requires WellFormed(t) && i < |t.holders| && total + t.holders[i].points == t.total + points
    requires t' == Table(t.holders[i := Holder(t.holders[i].address, points)], total)
    ensures WellFormed(t') && PointsOf(t', t.holders[i].address) == points
    ensures forall a :: a != t.holders[i].address ==> PointsOf(t', a) == PointsOf(t, a)
  {
    SumSplit(t.holders, i);
    SumSplit(t'.holders, i);
    assert t'.holders[..i] == t.holders[..i] && t'.holders[i + 1..] == t.holders[i + 1..];
    EntryIs(t', i);
    assert forall j :: 0 <= j < |t.holders| && j != i ==> t'.holders[j] == t.holders[j];
    forall a | a != t.holders[i].address ensures PointsOf(t', a) == PointsOf(t, a) {
      OthersKeep(t, t', t.holders[i].address, a);
    }
  }

  lemma AppendFacts(t: Table, t': Table, h: Holder)
    requires WellFormed(t) && !IsHolder(t, h.address)
    requires t'.holders == t.holders + [h] && t'.total == t.total + h.points
    ensures WellFormed(t') && PointsOf(t', h.address) == h.points
    ensures forall a :: a != h.address ==> PointsOf(t', a) == PointsOf(t, a)
  {
    assert t'.holders[..|t'.holders| - 1] == t.holders;
    assert t'.holders[|t.holders|] == h;
    EntryIs(t', |t.holders|);
    forall a | a != h.address ensures PointsOf(t', a) == PointsOf(t, a) {
      OthersKeep(t, t', h.address, a);
    }
  }

  /** Adding points keeps the table well formed and credits exactly one address. */
  lemma AddPointsFacts(t: Table, address: nat, points: u64)
    requires WellFormed(t) && AddPoints(t, address, points).Some?
    ensures var t' := AddPoints(t, address, points).value;
            && WellFormed(t') && t'.total == t.total + points
            && PointsOf(t', address) == PointsOf(t, address) + points
            && (forall a :: a != address ==> PointsOf(t', a) == PointsOf(t, a))
  {
    var t' := AddPoints(t, address, points).value;
    var i := Find(t.holders, address);
    if points > 0 {
      if i < |t.holders| {
        SetEntryFacts(t, t', i, t.holders[i].points + points, t.total + points);
      } else {
        AppendFacts(t, t', Holder(address, points));
      }
    }
  }

  /** Points can be added unless the total overflows, or a newcomer finds the table full. */
  lemma AddPointsSucceeds(t: Table, address: nat, points: u64)
    requires WellFormed(t)
    ensures AddPoints(t, address, points).Some? <==>
      points == 0 || (t.total + points < LIMIT && ((exists h <- t.holders :: h.address == address) || |t.holders| < MAX_PROVIDERS))
    ensures AddPoints(t, address, points).Some? ==> |AddPoints(t, address, points).value.holders| <= |t.holders| + 1
  {
    EntryAtMostTotal(t, address);
    var i := Find(t.holders, address);
    if i < |t.holders| {
      assert t.holders[i] in t.holders;
    }
  }

  /** The points of an address, read off the list. */
  lemma PointsOfMeans(t: Table, address: nat, points: u64)
    requires Distinct(t.holders)
    ensures Holder(address, points) in t.holders ==> PointsOf(t, address) == points
    ensures PointsOf(t, address) == points > 0 ==> Holder(address, points) in t.holders
  {
    if Holder(address, points) in t.holders {
      var i :| 0 <= i < |t.holders| && t.holders[i] == Holder(address, points);
      EntryIs(t, i);
    }
  }

  /** Points can be removed unless the address is unknown, or none at all would be left. */
  lemma RemovePointsSucceeds(t: Table, address: nat, points: u64)
    requires WellFormed(t) && points <= PointsOf(t, address)
    ensures RemovePoints(t, address, points).Some? <==> (exists h <- t.holders :: h.address == address) && t.total > points
  {
    EntryAtMostTotal(t, address);
    var i := Find(t.holders, address);
    if i < |t.holders| {
      assert t.holders[i] in t.holders;
    }
  }

  /** Removing no more than an address holds debits exactly that and never wraps. */
  lemma RemovePointsFacts(t: Table, address: nat, points: u64)
    requires WellFormed(t) && points <= PointsOf(t, address) && RemovePoints(t, address, points).Some?
    ensures var t' := RemovePoints(t, address, points).value;
            && WellFormed(t') && t'.total == t.total - points && t'.total > 0
            && PointsOf(t', address) == PointsOf(t, address) - points
            && (forall a :: a != address ==> PointsOf(t', a) == PointsOf(t, a))
  {
    var t' := RemovePoints(t, address, points).value;
    var i := Find(t.holders, address);
    EntryAtMostTotal(t, address);
    SumSplit(t.holders, i);
    if t.holders[i].points == points {
      EvictFacts(t, t', i);
    } else {
      SetEntryFacts(t, t', i, t.holders[i].points - points, t.total - points);
    }
  }
}
