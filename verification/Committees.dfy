/** Committee membership and the stake each committee is backed by. */
module Committees {
  import opened Options
  import opened Uint64
  import opened Balances
  import opened Staking
  import opened SupplyList
  import Slashing

  /** All validators and delegates, and the staked supply per committee. */
  datatype Roster = Roster(validators: map<nat, Validator>, staked: map<nat, u64>)

  // ---------------------------------------------------------------- operations

  /** SetCommittees: adds a stake to every listed committee. */
  function AddAll(staked: map<nat, u64>, committees: seq<nat>, stake: u64): (r: Option<map<nat, u64>>)
  {
    if committees == [] then Some(staked)
    else
      var before :- AddAll(staked, committees[..|committees| - 1], stake);
      AddOne(before, committees[|committees| - 1], stake)
  }

  function AddOne(staked: map<nat, u64>, c: nat, stake: u64): (r: Option<map<nat, u64>>)
  {
    if Amount(staked, c) + stake >= LIMIT then None else Some(Adjusted(staked, c, Amount(staked, c) + stake))
  }

  function SubOne(staked: map<nat, u64>, c: nat, stake: u64): (r: Option<map<nat, u64>>)
  {
    if Amount(staked, c) < stake then None else Some(Adjusted(staked, c, Amount(staked, c) - stake))
  }

  /** DeleteCommittees: takes a stake back from every listed committee. */
  function SubAll(staked: map<nat, u64>, committees: seq<nat>, stake: u64): (r: Option<map<nat, u64>>)
  {
    if committees == [] then Some(staked)
    else
      var before :- SubAll(staked, committees[..|committees| - 1], stake);
      SubOne(before, committees[|committees| - 1], stake)
  }

  /** Stakes a new validator. */
  function Enter(r: Roster, address: nat, v: Validator): (s: Option<Roster>)
  {
    var added := AddAll(r.staked, v.committees, v.stake);
    if address in r.validators || added.None? then None
    else Some(Roster(r.validators[address := v], added.value))
  }

  /** UpdateCommittees, then SetValidator: from the old stake and committees to the new ones. */
  function Update(r: Roster, address: nat, v: Validator): (s: Option<Roster>)
  {
    if address !in r.validators then None
    else
      var removed := SubAll(r.staked, r.validators[address].committees, r.validators[address].stake);
      var added := if removed.None? then None else AddAll(removed.value, v.committees, v.stake);
      if added.None? then None else Some(Roster(r.validators[address := v], added.value))
  }

  /** DeleteValidator */
  function Remove(r: Roster, address: nat): (s: Option<Roster>)
  {
    if address !in r.validators then None
    else
      var removed := SubAll(r.staked, r.validators[address].committees, r.validators[address].stake);
      if removed.None? then None else Some(Roster(r.validators - {address}, removed.value))
  }

  // ---------------------------------------------------------------- what the staked supply means

  /** The stake each member of committee c brings. */
  function Members(validators: map<nat, Validator>, c: nat): (stakes: map<nat, u64>)
  {
    map a | a in validators && c in validators[a].committees :: validators[a].stake
  }

  ghost function StakeIn(validators: map<nat, Validator>, c: nat): (stake: nat)
  {
    Total(Members(validators, c))
  }

  /** Each committee's staked supply is the sum of its members' stakes. */
  ghost predicate Consistent(r: Roster)
  {
    && (forall c: nat :: Amount(r.staked, c) == StakeIn(r.validators, c))
    && (forall a <- r.validators :: Unique(r.validators[a].committees))
  }

  function Contribution(v: Validator, c: nat): (stake: u64)
  {
    if c in v.committees then v.stake else 0
  }

  lemma StakeInUpdate(validators: map<nat, Validator>, a: nat, v: Validator, c: nat)
    ensures var was := if a in validators then Contribution(validators[a], c) else 0;
            StakeIn(validators[a := v], c) + was == StakeIn(validators, c) + Contribution(v, c)
  {
    var before, after := Members(validators, c), Members(validators[a := v], c);
    TotalAt(before, a);
    TotalAt(after, a);
    assert after - {a} == before - {a};
  }

  lemma StakeInRemove(validators: map<nat, Validator>, a: nat, c: nat)
    requires a in validators
    ensures StakeIn(validators - {a}, c) + Contribution(validators[a], c) == StakeIn(validators, c)
  {
    TotalAt(Members(validators, c), a);
    assert Members(validators - {a}, c) == Members(validators, c) - {a};
  }

  /** A submap has at most the total. */
  lemma {:induction false} TotalSubmap(m: map<nat, u64>, n: map<nat, u64>)
    requires forall k <- m :: k in n && n[k] == m[k]
    ensures Total(m) <= Total(n)
    decreases |m|
  {
    if m != map[] {
      var k :| k in m;
      TotalAt(m, k);
      TotalAt(n, k);
      TotalSubmap(m - {k}, n - {k});
    }
  }

  lemma PrefixUnique(committees: seq<nat>)
    requires Unique(committees) && committees != []
    ensures var n := |committees| - 1;
            && Unique(committees[..n]) && committees[n] !in committees[..n]
            && forall c :: c in committees <==> c in committees[..n] || c == committees[n]
  {
    assert committees == committees[..|committees| - 1] + [committees[|committees| - 1]];
  }

  /** With each committee listed once, adding succeeds exactly when no committee overflows. */
  lemma {:induction false} AddAllFacts(staked: map<nat, u64>, committees: seq<nat>, stake: u64)
    requires Unique(committees)
    ensures AddAll(staked, committees, stake).Some? <==> forall c <- committees :: Amount(staked, c) + stake < LIMIT
    ensures AddAll(staked, committees, stake).Some? ==>
              forall c :: Amount(AddAll(staked, committees, stake).value, c) == Amount(staked, c) + if c in committees then stake else 0
  {
    if committees != [] {
      PrefixUnique(committees);
      AddAllFacts(staked, committees[..|committees| - 1], stake);
    }
  }

  lemma {:induction false} SubAllFacts(staked: map<nat, u64>, committees: seq<nat>, stake: u64)
    requires Unique(committees)
    ensures SubAll(staked, committees, stake).Some? <==> forall c <- committees :: Amount(staked, c) >= stake
    ensures SubAll(staked, committees, stake).Some? ==>
              forall c :: Amount(SubAll(staked, committees, stake).value, c) == Amount(staked, c) - if c in committees then stake else 0
  {
    if committees != [] {
      PrefixUnique(committees);
      SubAllFacts(staked, committees[..|committees| - 1], stake);
    }
  }

  /** Entering succeeds whenever all stakes together fit in 64 bits, and keeps the sums. */
  lemma EnterKeeps(r: Roster, address: nat, v: Validator)
    requires Consistent(r) && Unique(v.committees) && address !in r.validators
    requires Total(Stakes(r.validators)) + v.stake < LIMIT
    ensures Enter(r, address, v).Some? && Consistent(Enter(r, address, v).value)
    ensures Enter(r, address, v).value.validators == r.validators[address := v]
  {
    AddAllFacts(r.staked, v.committees, v.stake);
    forall c | c in v.committees ensures Amount(r.staked, c) + v.stake < LIMIT {
      TotalSubmap(Members(r.validators, c), Stakes(r.validators));
    }
    forall c: nat ensures Amount(Enter(r, address, v).value.staked, c) == StakeIn(r.validators[address := v], c) {
      StakeInUpdate(r.validators, address, v, c);
    }
  }

  /** The old stake can always be taken back. */
  lemma MemberIsCounted(r: Roster, address: nat)
    requires Consistent(r) && address in r.validators
    ensures SubAll(r.staked, r.validators[address].committees, r.validators[address].stake).Some?
    ensures forall c: nat :: Amount(SubAll(r.staked, r.validators[address].committees, r.validators[address].stake).value, c)
                             == StakeIn(r.validators - {address}, c)
  {
    var v := r.validators[address];
    SubAllFacts(r.staked, v.committees, v.stake);
    forall c: nat ensures StakeIn(r.validators - {address}, c) + Contribution(v, c) == Amount(r.staked, c) {
      StakeInRemove(r.validators, address, c);
    }
  }

  lemma RemoveKeeps(r: Roster, address: nat)
    requires Consistent(r) && address in r.validators
    ensures Remove(r, address).Some? && Consistent(Remove(r, address).value)
    ensures Remove(r, address).value.validators == r.validators - {address}
  {
    MemberIsCounted(r, address);
  }

  lemma UpdateKeeps(r: Roster, address: nat, v: Validator)
    requires Consistent(r) && Unique(v.committees) && address in r.validators
    requires Total(Stakes(r.validators - {address})) + v.stake < LIMIT
    ensures Update(r, address, v).Some? && Consistent(Update(r, address, v).value)
    ensures Update(r, address, v).value.validators == r.validators[address := v]
  {
    MemberIsCounted(r, address);
    var rest := Remove(r, address).value;
    assert rest.validators[address := v] == r.validators[address := v];
    EnterKeeps(rest, address, v);
  }

  /** A slash never fails on the committees' staked supply, and keeps the sums. */
  lemma SlashKeeps(r: Roster, address: nat, committees: seq<nat>, percent: nat, p: Slashing.Params, height: nat)
    requires Consistent(r) && address in r.validators && Unique(committees) && Total(Stakes(r.validators)) < LIMIT
    ensures var w := Slashing.Cut(r.validators[address], committees, percent, p, height);
            var s := if w.None? then Remove(r, address) else Update(r, address, w.value);
            s.Some? && Consistent(s.value) && s.value.validators == Slashing.Put(r.validators, address, w)
  {
    var w := Slashing.Cut(r.validators[address], committees, percent, p, height);
    TotalAt(Stakes(r.validators), address);
    assert Stakes(r.validators - {address}) == Stakes(r.validators) - {address};
    if w.None? {
      RemoveKeeps(r, address);
    } else {
      UpdateKeeps(r, address, w.value);
    }
  }

  // ---------------------------------------------------------------- fewer committees

  /** The first `max` committees of the list read in a circle from a rotating start. */
  function Trim(committees: seq<nat>, idx: nat, max: nat): (kept: seq<nat>)
    requires |committees| > max
    ensures |kept| == max
  {
    seq(max, i requires 0 <= i < max => committees[(idx % |committees| + i) % |committees|])
  }

  lemma CircularIndex(start: nat, i: nat, n: nat)
    requires start < n && i < n
    ensures (start + i) % n == if start + i < n then start + i else start + i - n
  {
    if start + i >= n {
      assert (start + i) % n == (start + i - n) % n;
    }
  }

  /** The circular read never repeats a committee and adds none. */
  lemma TrimIsDuplicateFreeSubset(committees: seq<nat>, idx: nat, max: nat)
    requires |committees| > max && Unique(committees)
    ensures Unique(Trim(committees, idx, max)) && forall c <- Trim(committees, idx, max) :: c in committees
  {
    var n, start := |committees|, idx % |committees|;
    forall i, j | 0 <= i < j < max ensures Trim(committees, idx, max)[i] != Trim(committees, idx, max)[j] {
      CircularIndex(start, i, n);
      CircularIndex(start, j, n);
    }
  }

  /** The circular read is a stretch of the list written twice, from where the index, counted around, points. */
  lemma TrimIsRotation(committees: seq<nat>, idx: nat, max: nat, rounds: nat, start: nat)
    requires |committees| > max && start < |committees| && idx == rounds * |committees| + start
    ensures Trim(committees, idx, max) == (committees + committees)[start..start + max]
  {
    Remainder(idx, |committees|, rounds, start);
    forall i | 0 <= i < max ensures Trim(committees, idx, max)[i] == (committees + committees)[start + i] {
      CircularIndex(start, i, |committees|);
    }
  }

  lemma Remainder(idx: nat, n: nat, rounds: nat, start: nat)
    requires n > 0 && start < n && idx == rounds * n + start
    ensures idx % n == start
  {
    var q, m := idx / n, idx % n;
    assert idx == n * q + m;
    if q > rounds {
      Multiples(rounds + 1, q, n);
    } else if q < rounds {
      Multiples(q + 1, rounds, n);
    }
  }

  lemma Multiples(a: nat, b: nat, n: nat)
    requires a <= b
    ensures n * a <= n * b && a * n == n * a && b * n == n * b
  {
  }

  /** One validator of the iteration, with the running index. */
  function Shrink(r: Roster, idx: nat, address: nat, max: nat): (s: Option<(Roster, nat)>)
  {
    if address !in r.validators || |r.validators[address].committees| <= max then Some((r, idx))
    else
      var v := r.validators[address];
      var updated := Update(r, address, v.(committees := Trim(v.committees, idx, max)));
      if updated.None? then None else Some((updated.value, idx + 1))
  }

  /** The maximum was lowered: every validator in turn, in store order. */
  function ShrinkAll(r: Roster, order: seq<nat>, max: nat): (s: Option<(Roster, nat)>)
  {
    if order == [] then Some((r, 0))
    else
      var before := ShrinkAll(r, order[..|order| - 1], max);
      if before.None? then None else Shrink(before.value.0, before.value.1, order[|order| - 1], max)
  }

  /** How a validator may change when the maximum is lowered. */
  predicate Shrunk(v: Validator, w: Validator, max: nat)
  {
    && w == v.(committees := w.committees)
    && (forall c <- w.committees :: c in v.committees)
    && (|v.committees| <= max ==> w == v)
  }

  lemma ShrinkKeeps(r: Roster, idx: nat, address: nat, max: nat)
    requires Consistent(r) && Total(Stakes(r.validators)) < LIMIT
    ensures Shrink(r, idx, address, max).Some?
    ensures var s := Shrink(r, idx, address, max).value.0;
            && Consistent(s) && s.validators.Keys == r.validators.Keys && Stakes(s.validators) == Stakes(r.validators)
            && (forall a <- r.validators :: Shrunk(r.validators[a], s.validators[a], max))
            && (forall a <- r.validators :: a != address ==> s.validators[a] == r.validators[a])
            && (address in r.validators ==> |s.validators[address].committees| <= max)
  {
    if address in r.validators && |r.validators[address].committees| > max {
      var v := r.validators[address];
      TrimIsDuplicateFreeSubset(v.committees, idx, max);
      TotalAt(Stakes(r.validators), address);
      assert Stakes(r.validators - {address}) == Stakes(r.validators) - {address};
      UpdateKeeps(r, address, v.(committees := Trim(v.committees, idx, max)));
    }
  }

  /**
   * TRIMMING: lowering the maximum never fails; afterwards every visited validator serves at most `max`
   * committees, all of them its own and none twice; stakes and smaller validators are untouched, and every
   * committee's staked supply still is the sum of its members' stakes.
   */
  lemma {:induction false} ShrinkAllKeeps(r: Roster, order: seq<nat>, max: nat)
    requires Consistent(r) && Total(Stakes(r.validators)) < LIMIT
    ensures ShrinkAll(r, order, max).Some?
    ensures var s := ShrinkAll(r, order, max).value.0;
            && Consistent(s) && s.validators.Keys == r.validators.Keys && Stakes(s.validators) == Stakes(r.validators)
            && (forall a <- r.validators :: Shrunk(r.validators[a], s.validators[a], max))
            && (forall a <- order :: a in r.validators ==> |s.validators[a].committees| <= max)
  {
    if order != [] {
      var init, last := order[..|order| - 1], order[|order| - 1];
      assert order == init + [last];
      ShrinkAllKeeps(r, init, max);
      var (s, idx) := ShrinkAll(r, init, max).value;
      ShrinkKeeps(s, idx, last, max);
    }
  }

  /** How many of the listed validators serve more than `max` committees. */
  function Excess(validators: map<nat, Validator>, order: seq<nat>, max: nat): (count: nat)
  {
    if order == [] then 0
    else
      var n := |order| - 1;
      Excess(validators, order[..n], max)
      + if order[n] in validators && |validators[order[n]].committees| > max then 1 else 0
  }

  /** The visited validators now serve these committees, and everyone else what they did. */
  ghost predicate Serves(before: map<nat, Validator>, after: map<nat, Validator>, order: seq<nat>, kept: seq<seq<nat>>)
  {
    && |kept| == |order| && after.Keys == before.Keys
    && (forall a <- before :: a !in order ==> after[a] == before[a])
    && forall k :: 0 <= k < |order| && order[k] in before ==> after[order[k]].committees == kept[k]
  }

  function Kept(committees: seq<nat>, idx: nat, max: nat): (kept: seq<nat>)
  {
    if |committees| > max then Trim(committees, idx, max) else committees
  }

  /**
   * ROTATING START: in an iteration that visits each validator once, the k-th is trimmed with the number of
   * validators trimmed before it as its index, and everyone else keeps its committees.
   */
  lemma {:induction false} ShrinkAllRotates(r: Roster, order: seq<nat>, max: nat) returns (kept: seq<seq<nat>>)
    requires Consistent(r) && Total(Stakes(r.validators)) < LIMIT
    requires forall i, j :: 0 <= i < j < |order| ==> order[i] != order[j]
    requires forall a <- order :: a in r.validators
    ensures ShrinkAll(r, order, max).Some?
    ensures var (s, trimmed) := ShrinkAll(r, order, max).value;
            trimmed == Excess(r.validators, order, max) && Serves(r.validators, s.validators, order, kept)
    ensures TrimmedInTurn(r.validators, order, max, kept)
  {
    kept := [];
    if order != [] {
      var init := order[..|order| - 1];
      kept := ShrinkAllRotates(r, init, max);
      ShrinkAllKeeps(r, init, max);
      var (s, idx) := ShrinkAll(r, init, max).value;
      var committees := RotatesOneMore(r, order, max, s, idx, kept);
      kept := kept + [committees];
    }
  }

  lemma RotatesOneMore(r: Roster, order: seq<nat>, max: nat, s: Roster, idx: nat, kept: seq<seq<nat>>)
    returns (committees: seq<nat>)
    requires order != [] && order[|order| - 1] in r.validators
    requires forall i, j :: 0 <= i < j < |order| ==> order[i] != order[j]
    requires Consistent(s) && Total(Stakes(s.validators)) < LIMIT
    requires var init := order[..|order| - 1];
             && ShrinkAll(r, init, max) == Some((s, idx)) && idx == Excess(r.validators, init, max)
             && Serves(r.validators, s.validators, init, kept) && TrimmedInTurn(r.validators, init, max, kept)
    ensures ShrinkAll(r, order, max).Some?
    ensures var (t, trimmed) := ShrinkAll(r, order, max).value;
            && trimmed == Excess(r.validators, order, max)
            && Serves(r.validators, t.validators, order, kept + [committees])
            && TrimmedInTurn(r.validators, order, max, kept + [committees])
  {
    var n := |order| - 1;
    var last := order[n];
    assert last !in order[..n];
    committees := Kept(r.validators[last].committees, idx, max);
    ShrinkTrims(s, idx, last, max);
    ServesOneMore(r.validators, s.validators, Shrink(s, idx, last, max).value.0.validators, order, kept, committees);
    TrimmedOneMore(r.validators, order, max, kept, committees);
  }

  ghost predicate TrimmedInTurn(before: map<nat, Validator>, order: seq<nat>, max: nat, kept: seq<seq<nat>>)
  {
    && |kept| == |order|
    && forall k :: 0 <= k < |order| && order[k] in before ==>
         kept[k] == Kept(before[order[k]].committees, Excess(before, order[..k], max), max)
  }

  lemma TrimmedOneMore(before: map<nat, Validator>, order: seq<nat>, max: nat, kept: seq<seq<nat>>, committees: seq<nat>)
    requires order != [] && TrimmedInTurn(before, order[..|order| - 1], max, kept)
    requires order[|order| - 1] in before
    requires committees == Kept(before[order[|order| - 1]].committees, Excess(before, order[..|order| - 1], max), max)
    ensures TrimmedInTurn(before, order, max, kept + [committees])
  {
    var init := order[..|order| - 1];
    forall k | 0 <= k < |order| && order[k] in before
      ensures (kept + [committees])[k] == Kept(before[order[k]].committees, Excess(before, order[..k], max), max) {
      if k < |init| {
        assert order[k] == init[k] && order[..k] == init[..k];
      }
    }
  }

  lemma ServesOneMore(before: map<nat, Validator>, mid: map<nat, Validator>, after: map<nat, Validator>, order: seq<nat>,
                      kept: seq<seq<nat>>, committees: seq<nat>)
    requires order != [] && forall i, j :: 0 <= i < j < |order| ==> order[i] != order[j]
    requires Serves(before, mid, order[..|order| - 1], kept) && after.Keys == mid.Keys
    requires order[|order| - 1] in before && after[order[|order| - 1]].committees == committees
    requires forall a <- mid :: a != order[|order| - 1] ==> after[a] == mid[a]
    ensures Serves(before, after, order, kept + [committees])
  {
    var n := |order| - 1;
    var init, last := order[..n], order[n];
    assert order == init + [last];
    forall k | 0 <= k < |order| && order[k] in before ensures after[order[k]].committees == (kept + [committees])[k] {
      if k < n {
        assert order[k] == init[k];
      }
    }
  }

  lemma ShrinkTrims(r: Roster, idx: nat, address: nat, max: nat)
    requires Consistent(r) && Total(Stakes(r.validators)) < LIMIT && address in r.validators
    ensures Shrink(r, idx, address, max).Some?
    ensures var (s, idx') := Shrink(r, idx, address, max).value; var was := r.validators[address].committees;
            && s.validators.Keys == r.validators.Keys
            && (forall a <- r.validators :: a != address ==> s.validators[a] == r.validators[a])
            && s.validators[address].committees == Kept(was, idx, max)
            && idx' == idx + if |was| > max then 1 else 0
  {
    ShrinkKeeps(r, idx, address, max);
  }

  // ---------------------------------------------------------------- runs

  datatype Change =
    | Enters(address: nat, validator: Validator)
    | Changes(address: nat, validator: Validator)
    | Leaves(address: nat)
    | Lowers(order: seq<nat>, max: nat)

  function Step(r: Roster, c: Change): (s: Roster)
  {
    match c
    case Enters(a, v) => var t := Enter(r, a, v); if t.None? then r else t.value
    case Changes(a, v) => var t := Update(r, a, v); if t.None? then r else t.value
    case Leaves(a) => var t := Remove(r, a); if t.None? then r else t.value
    case Lowers(order, max) => var t := ShrinkAll(r, order, max); if t.None? then r else t.value.0
  }

  /** New committee lists name no committee twice, and all stakes together stay below 2^64. */
  ghost predicate Allowed(r: Roster, c: Change)
  {
    && (c.Enters? || c.Changes? ==> Unique(c.validator.committees)
                                    && Total(Stakes(r.validators - {c.address})) + c.validator.stake < LIMIT)
    && Total(Stakes(r.validators)) < LIMIT
  }

  ghost predicate IsRun(states: seq<Roster>, changes: seq<Change>)
  {
    && |states| == |changes| + 1
    && forall i :: 0 <= i < |changes| ==> Allowed(states[i], changes[i]) && states[i + 1] == Step(states[i], changes[i])
  }

  lemma ChangeKeepsConsistent(r: Roster, c: Change)
    requires Consistent(r) && Allowed(r, c)
    ensures Consistent(Step(r, c))
  {
    match c
    case Enters(a, v) =>
      if a !in r.validators {
        assert r.validators - {a} == r.validators;
        EnterKeeps(r, a, v);
      }
    case Changes(a, v) =>
      if a in r.validators {
        UpdateKeeps(r, a, v);
      }
    case Leaves(a) =>
      if a in r.validators {
        RemoveKeeps(r, a);
      }
    case Lowers(order, max) => ShrinkAllKeeps(r, order, max);
  }

  /** In every state of every run a committee's staked supply is the sum of its members' stakes. */
  lemma {:induction false} StakedSupplyIsTheSum(states: seq<Roster>, changes: seq<Change>, i: nat)
    requires IsRun(states, changes) && Consistent(states[0]) && i < |states|
    ensures Consistent(states[i])
  {
    if i > 0 {
      StakedSupplyIsTheSum(states, changes, i - 1);
      ChangeKeepsConsistent(states[i - 1], changes[i - 1]);
    }
  }

  // ---------------------------------------------------------------- in place

  class Registry {
    var validators: map<nat, Validator>
    var committeeStaked: seq<Pool>
    ghost var staked: map<nat, u64>

    ghost predicate Valid()
      reads this
    {
      Canonical(committeeStaked, staked)
    }

    ghost function State(): (r: Roster)
      reads this
    {
      Roster(validators, staked)
    }

    constructor ()
      ensures Valid() && State() == Roster(map[], map[])
    {
      validators, committeeStaked, staked := map[], [], map[];
    }

    method AddToCommitteeSupplyForChain(c: nat, stake: u64) returns (ok: bool)
      requires Valid()
      modifies this`committeeStaked, this`staked
      ensures Valid() && (ok <==> AddOne(old(staked), c, stake).Some?)
      ensures staked == if ok then AddOne(old(staked), c, stake).value else old(staked)
    {
      ok, committeeStaked := AddToSupplyPool(committeeStaked, c, stake, staked);
      if ok {
        staked := Adjusted(staked, c, Amount(staked, c) + stake);
      }
    }

    method SubFromCommitteeStakedSupplyForChain(c: nat, stake: u64) returns (ok: bool)
      requires Valid()
      modifies this`committeeStaked, this`staked
      ensures Valid() && (ok <==> SubOne(old(staked), c, stake).Some?)
      ensures staked == if ok then SubOne(old(staked), c, stake).value else old(staked)
    {
      ok, committeeStaked := SubFromSupplyPool(committeeStaked, c, stake, staked);
      if ok {
        staked := Adjusted(staked, c, Amount(staked, c) - stake);
      }
    }

    method SetCommittees(committees: seq<nat>, stake: u64) returns (ok: bool)
      requires Valid()
      modifies this`committeeStaked, this`staked
      ensures Valid()
      ensures ok <==> AddAll(old(staked), committees, stake).Some?
      ensures ok ==> Some(staked) == AddAll(old(staked), committees, stake)
    {
      ok := true;
      for i := 0 to |committees|
        invariant Valid()
        invariant ok <==> AddAll(old(staked), committees[..i], stake).Some?
        invariant ok ==> Some(staked) == AddAll(old(staked), committees[..i], stake)
      {
        assert committees[..i + 1][..i] == committees[..i];
        if ok {
          ok := AddToCommitteeSupplyForChain(committees[i], stake);
        }
      }
      assert committees[..|committees|] == committees;
    }

    method DeleteCommittees(committees: seq<nat>, stake: u64) returns (ok: bool)
      requires Valid()
      modifies this`committeeStaked, this`staked
      ensures Valid()
      ensures ok <==> SubAll(old(staked), committees, stake).Some?
      ensures ok ==> Some(staked) == SubAll(old(staked), committees, stake)
    {
      ok := true;
      for i := 0 to |committees|
        invariant Valid()
        invariant ok <==> SubAll(old(staked), committees[..i], stake).Some?
        invariant ok ==> Some(staked) == SubAll(old(staked), committees[..i], stake)
      {
        assert committees[..i + 1][..i] == committees[..i];
        if ok {
          ok := SubFromCommitteeStakedSupplyForChain(committees[i], stake);
        }
      }
      assert committees[..|committees|] == committees;
    }

    method SetValidator(address: nat, v: Validator) returns (ok: bool)
      requires Valid() && address !in validators
      modifies this
      ensures Valid()
      ensures ok <==> Enter(old(State()), address, v).Some?
      ensures ok ==> State() == Enter(old(State()), address, v).value
    {
      ok := SetCommittees(v.committees, v.stake);
      if ok {
        validators := validators[address := v];
      }
    }

    /** UpdateCommittees followed by storing the validator. */
    method UpdateValidator(address: nat, v: Validator) returns (ok: bool)
      requires Valid() && address in validators
      modifies this
      ensures Valid()
      ensures ok <==> Update(old(State()), address, v).Some?
      ensures ok ==> State() == Update(old(State()), address, v).value
    {
      ok := DeleteCommittees(validators[address].committees, validators[address].stake);
      if ok {
        ok := SetCommittees(v.committees, v.stake);
      }
      if ok {
        validators := validators[address := v];
      }
    }

    method DeleteValidator(address: nat) returns (ok: bool)
      requires Valid() && address in validators
      modifies this
      ensures Valid()
      ensures ok <==> Remove(old(State()), address).Some?
      ensures ok ==> State() == Remove(old(State()), address).value
    {
      ok := DeleteCommittees(validators[address].committees, validators[address].stake);
      if ok {
        validators := validators - {address};
      }
    }

    /** The part of ConformStateToParamUpdate that enforces a lower maximum, in store order. */
    method ShrinkCommittees(order: seq<nat>, max: nat) returns (ok: bool)
      requires Valid() && forall a <- order :: a in validators
      modifies this
      ensures Valid()
      ensures ok <==> ShrinkAll(old(State()), order, max).Some?
      ensures ok ==> State() == ShrinkAll(old(State()), order, max).value.0
    {
      var idx := 0;
      ok := true;
      for n := 0 to |order|
        invariant Valid()
        invariant ok <==> ShrinkAll(old(State()), order[..n], max).Some?
        invariant ok ==> ShrinkAll(old(State()), order[..n], max) == Some((State(), idx))
      {
        assert order[..n + 1][..n] == order[..n];
        var a := order[n];
        if ok && a in validators && |validators[a].committees| > max {
          var v := validators[a];
          var newCommittees := CircularRead(v.committees, idx, max);
          ok := UpdateValidator(a, v.(committees := newCommittees));
          idx := idx + 1;
        }
      }
      assert order[..|order|] == order;
    }
  }

  method CircularRead(committees: seq<nat>, idx: nat, max: nat) returns (kept: seq<nat>)
    requires |committees| > max
    ensures kept == Trim(committees, idx, max)
  {
    kept := [];
    var start := idx % |committees|;
    for i := 0 to max
      invariant |kept| == i && forall j :: 0 <= j < i ==> kept[j] == committees[(start + j) % |committees|]
    {
      kept := kept + [committees[(start + i) % |committees|]];
    }
  }
}
