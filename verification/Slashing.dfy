/** Slashing with a cap per validator, committee and block. */
module Slashing {
  import opened Options
  import opened Uint64
  import opened Staking

  /** The governance parameters slashing reads; a valid cap lies between 1 and 100 percent. */
  datatype Params = Params(max: nat, minimumForValidators: u64, minimumForDelegates: u64,
                           unstakingBlocks: nat, delegateUnstakingBlocks: nat)

  predicate ValidParams(p: Params)
  {
    1 <= p.max <= 100
  }

  /** A validator address together with the committee that slashes it. */
  type Key = (nat, nat)

  /**
   * Validators and the block's slash tracker; `burned` and `slashes` record, per validator and committee,
   * how many tokens were burned in this block and by how many slashes.
   */
  datatype State = State(validators: map<nat, Validator>, tracker: map<Key, nat>, burned: map<Key, nat>, slashes: map<Key, nat>)

  function At(m: map<Key, nat>, k: Key): (n: nat)
  {
    if k in m then m[k] else 0
  }

  /** Removes the first occurrence. */
  function Without(committees: seq<nat>, id: nat): (rest: seq<nat>)
  {
    if committees == [] then []
    else if committees[0] == id then committees[1..]
    else [committees[0]] + Without(committees[1..], id)
  }

  /** SetValidatorUnstakingIfBelowMinimum: a validator below its minimum starts to unstake. */
  function Demoted(v: Validator, p: Params, height: nat): (w: Validator)
  {
    if v.unstaking != 0 then v
    else if v.delegate && v.stake < p.minimumForDelegates then v.(unstaking := height + p.delegateUnstakingBlocks)
    else if !v.delegate && v.stake < p.minimumForValidators then v.(unstaking := height + p.unstakingBlocks)
    else v
  }

  /** The percent that is really applied: at most what is left under the cap. */
  function Capped(total: nat, percent: nat, max: nat): (applied: nat)
    requires total < max
  {
    if total + percent >= max then max - total else percent
  }

  /** What a slash does to the validator itself; None removes it. */
  function Cut(v: Validator, committees: seq<nat>, percent: nat, p: Params, height: nat): (w: Option<Validator>)
  {
    var left := Reduce(v.stake, percent);
    if left == 0 then None else Some(Demoted(v.(stake := left, committees := committees), p, height))
  }

  function Put(validators: map<nat, Validator>, address: nat, v: Option<Validator>): (after: map<nat, Validator>)
  {
    if v.None? then validators - {address} else validators[address := v.value]
  }

  /** SlashValidator with committee-scoped slashing. */
  function Slash(s: State, address: nat, chain: nat, percent: nat, p: Params, height: nat): (t: State)
  {
    var k := (address, chain);
    if address !in s.validators || chain !in s.validators[address].committees || At(s.tracker, k) >= p.max then s
    else
      var v, total := s.validators[address], At(s.tracker, k);
      var committees := if total + percent >= p.max then Without(v.committees, chain) else v.committees;
      Landed(s, k, v, committees, Capped(total, percent, p.max), p, height)
  }

  /** A slash that is not refused. */
  function Landed(s: State, k: Key, v: Validator, committees: seq<nat>, applied: nat, p: Params, height: nat): (t: State)
  {
    State(Put(s.validators, k.0, Cut(v, committees, applied, p, height)),
          s.tracker[k := At(s.tracker, k) + applied],
          s.burned[k := At(s.burned, k) + v.stake - Reduce(v.stake, applied)],
          s.slashes[k := At(s.slashes, k) + 1])
  }

  /** The stake a slash takes is its percentage rounded up. */
  lemma CutBound(stake: u64, percent: nat)
    requires percent <= 100
    ensures Reduce(stake, percent) <= stake
    ensures 100 * (stake - Reduce(stake, percent)) <= stake * percent + 99
    ensures 100 * (stake - Reduce(stake, percent)) >= stake * percent
  {
    if 0 < percent < 100 && stake > 0 {
      MulDivExact(stake, 100 - percent, 100);
      DivFacts(stake * (100 - percent), 100);
      assert stake * (100 - percent) == stake * 100 - stake * percent;
    } else if percent == 100 || stake == 0 {
      assert stake * percent == stake * 100 || stake == 0;
    }
  }

  /** The first `id` is gone, the others stay in order. */
  ghost predicate FirstGone(before: seq<nat>, after: seq<nat>, id: nat)
  {
    exists pre, post :: before == pre + [id] + post && id !in pre && after == pre + post
  }

  lemma {:induction false} WithoutDropsFirst(committees: seq<nat>, id: nat) returns (pre: seq<nat>, post: seq<nat>)
    requires id in committees
    ensures committees == pre + [id] + post && id !in pre && Without(committees, id) == pre + post
  {
    if committees[0] == id {
      pre, post := [], committees[1..];
    } else {
      pre, post := WithoutDropsFirst(committees[1..], id);
      pre := [committees[0]] + pre;
    }
  }

  lemma EjectionDropsFirst(committees: seq<nat>, id: nat)
    requires id in committees
    ensures FirstGone(committees, Without(committees, id), id)
  {
    var pre, post := WithoutDropsFirst(committees, id);
  }

  /** The unstaking height after a slash that leaves `left`. */
  predicate UnstakesAt(unstaking: nat, v: Validator, left: nat, p: Params, height: nat)
  {
    if v.unstaking > 0 then unstaking == v.unstaking
    else if v.delegate then unstaking == if left < p.minimumForDelegates then height + p.delegateUnstakingBlocks else 0
    else unstaking == if left < p.minimumForValidators then height + p.unstakingBlocks else 0
  }

  /**
   * What a slash of a member below the cap comes to: its total rises to the sum or the cap, the stake is cut
   * by exactly that rise, and nothing else changes.
   */
  ghost predicate Takes(s: State, t: State, address: nat, chain: nat, percent: nat, p: Params, height: nat, left: nat)
    requires address in s.validators && At(s.tracker, (address, chain)) < p.max <= 100
  {
    var v, total := s.validators[address], At(s.tracker, (address, chain));
    var reached := if total + percent < p.max then total + percent else p.max;
    && t.tracker == s.tracker[(address, chain) := reached]
    && IsLeft(left, v.stake, reached - total)
    && t.validators.Keys == (if left == 0 then s.validators.Keys - {address} else s.validators.Keys)
    && (forall a <- t.validators :: a != address ==> t.validators[a] == s.validators[a])
    && (left > 0 ==>
          var w := t.validators[address];
          && w.stake == left && UnstakesAt(w.unstaking, v, left, p, height)
          && (if reached < p.max then w.committees == v.committees else FirstGone(v.committees, w.committees, chain))
          && (w.delegate, w.compound, w.output) == (v.delegate, v.compound, v.output))
  }

  /** A slash can land on an existing member of the committee whose total is below the cap. */
  ghost predicate CanLand(s: State, address: nat, chain: nat, max: nat)
  {
    address in s.validators && chain in s.validators[address].committees && At(s.tracker, (address, chain)) < max
  }

  /**
   * EXACT SLASH: any slash of a member below the cap takes effect, and takes exactly its percentage or, if
   * less, what is left under the cap; every other slash changes nothing.
   */
  lemma SlashTakesExactly(s: State, address: nat, chain: nat, percent: nat, p: Params, height: nat) returns (left: nat)
    requires ValidParams(p)
    ensures var t := Slash(s, address, chain, percent, p, height);
            if CanLand(s, address, chain, p.max) then Takes(s, t, address, chain, percent, p, height, left) else t == s
  {
    left := 0;
    if CanLand(s, address, chain, p.max) {
      var v, applied := s.validators[address], Capped(At(s.tracker, (address, chain)), percent, p.max);
      left := Reduce(v.stake, applied);
      ReduceIsLeft(v.stake, applied);
      if At(s.tracker, (address, chain)) + percent >= p.max {
        EjectionDropsFirst(v.committees, chain);
      }
    }
  }

  // ---------------------------------------------------------------- one block

  datatype Event =
    | SlashOne(address: nat, chain: nat, percent: nat)
    | Stake(address: nat, validator: Validator)
    | Transaction(slashes: seq<(nat, nat, nat)>, fails: bool)

  function SlashAll(s: State, slashes: seq<(nat, nat, nat)>, p: Params, height: nat): (t: State)
  {
    if slashes == [] then s
    else
      var before := SlashAll(s, slashes[..|slashes| - 1], p, height);
      var (address, chain, percent) := slashes[|slashes| - 1];
      Slash(before, address, chain, percent, p, height)
  }

  /** The slashes of a list land one after the other. */
  lemma {:induction false} SlashesInTurn(s: State, slashes: seq<(nat, nat, nat)>, p: Params, height: nat) returns (states: seq<State>)
    ensures |states| == |slashes| + 1 && states[0] == s && states[|slashes|] == SlashAll(s, slashes, p, height)
    ensures forall i :: 0 <= i < |slashes| ==>
              states[i + 1] == Slash(states[i], slashes[i].0, slashes[i].1, slashes[i].2, p, height)
  {
    states := [s];
    if slashes != [] {
      states := SlashesInTurn(s, slashes[..|slashes| - 1], p, height);
      states := states + [SlashAll(s, slashes, p, height)];
    }
  }

  /** A failed transaction is rolled back together with what it added to the tracker. */
  function Step(s: State, e: Event, p: Params, height: nat): (t: State)
  {
    match e
    case SlashOne(address, chain, percent) => Slash(s, address, chain, percent, p, height)
    case Stake(address, v) => s.(validators := s.validators[address := v])
    case Transaction(slashes, fails) => if fails then s else SlashAll(s, slashes, p, height)
  }

  function Exec(s: State, events: seq<Event>, p: Params, height: nat): (t: State)
  {
    if events == [] then s else Step(Exec(s, events[..|events| - 1], p, height), events[|events| - 1], p, height)
  }

  /** `cap` bounds what each validator ever has at stake in the block. */
  ghost predicate Within(s: State, cap: nat -> nat)
  {
    forall a <- s.validators :: s.validators[a].stake <= cap(a)
  }

  ghost predicate AllowedStakes(events: seq<Event>, cap: nat -> nat)
  {
    forall e <- events :: e.Stake? ==> e.validator.stake <= cap(e.address)
  }

  predicate BurnBound(burned: nat, cap: nat, tracked: nat, slashes: nat)
  {
    100 * burned <= cap * tracked + 99 * slashes
  }

  ghost predicate Inv(s: State, p: Params, cap: nat -> nat)
  {
    && Within(s, cap)
    && forall a: nat, c: nat :: At(s.tracker, (a, c)) <= p.max
         && BurnBound(At(s.burned, (a, c)), cap(a), At(s.tracker, (a, c)), At(s.slashes, (a, c)))
  }

  lemma BurnStep(burned: nat, cap: nat, tracked: nat, slashes: nat, stake: u64, applied: nat)
    requires BurnBound(burned, cap, tracked, slashes) && stake <= cap && applied <= 100
    ensures BurnBound(burned + stake - Reduce(stake, applied), cap, tracked + applied, slashes + 1)
    ensures Reduce(stake, applied) <= stake
  {
    CutBound(stake, applied);
    MulMonotone(stake, cap, applied);
    assert cap * (tracked + applied) == cap * tracked + cap * applied;
  }

  lemma SlashKeepsInv(s: State, address: nat, chain: nat, percent: nat, p: Params, height: nat, cap: nat -> nat)
    requires ValidParams(p) && Inv(s, p, cap)
    ensures Inv(Slash(s, address, chain, percent, p, height), p, cap)
  {
    var k := (address, chain);
    var t := Slash(s, address, chain, percent, p, height);
    if t != s {
      var total := At(s.tracker, k);
      BurnStep(At(s.burned, k), cap(address), total, At(s.slashes, k), s.validators[address].stake,
               Capped(total, percent, p.max));
      forall a: nat, c: nat
        ensures At(t.tracker, (a, c)) <= p.max
        ensures BurnBound(At(t.burned, (a, c)), cap(a), At(t.tracker, (a, c)), At(t.slashes, (a, c)))
      {
        if (a, c) != k {
          assert At(t.tracker, (a, c)) == At(s.tracker, (a, c));
          assert BurnBound(At(s.burned, (a, c)), cap(a), At(s.tracker, (a, c)), At(s.slashes, (a, c)));
        }
      }
    }
  }

  lemma {:induction false} SlashAllKeepsInv(s: State, slashes: seq<(nat, nat, nat)>, p: Params, height: nat, cap: nat -> nat)
    requires ValidParams(p) && Inv(s, p, cap)
    ensures Inv(SlashAll(s, slashes, p, height), p, cap)
  {
    if slashes != [] {
      var (address, chain, percent) := slashes[|slashes| - 1];
      SlashAllKeepsInv(s, slashes[..|slashes| - 1], p, height, cap);
      SlashKeepsInv(SlashAll(s, slashes[..|slashes| - 1], p, height), address, chain, percent, p, height, cap);
    }
  }

  lemma {:induction false} RunsKeepInv(s: State, events: seq<Event>, p: Params, height: nat, cap: nat -> nat)
    requires ValidParams(p) && Inv(s, p, cap) && AllowedStakes(events, cap)
    ensures Inv(Exec(s, events, p, height), p, cap)
  {
    if events != [] {
      var init, e := events[..|events| - 1], events[|events| - 1];
      RunsKeepInv(s, init, p, height, cap);
      var before := Exec(s, init, p, height);
      assert e in events;
      match e
      case SlashOne(address, chain, percent) => SlashKeepsInv(before, address, chain, percent, p, height, cap);
      case Stake(_, _) =>
      case Transaction(slashes, _) => SlashAllKeepsInv(before, slashes, p, height, cap);
    }
  }

  /**
   * SLASH CAP: in one block, whatever the order of slashes by any committees, stake changes and failed
   * transactions, a committee slashes a validator by at most the maximum percentage of what the validator
   * had at stake, plus less than one token of rounding per slash.
   */
  lemma SlashIsCapped(validators: map<nat, Validator>, events: seq<Event>, p: Params, height: nat, cap: nat -> nat, a: nat, c: nat)
    requires ValidParams(p)
    requires forall v <- validators :: validators[v].stake <= cap(v)
    requires AllowedStakes(events, cap)
    ensures var t := Exec(State(validators, map[], map[], map[]), events, p, height);
            && At(t.tracker, (a, c)) <= p.max
            && BurnBound(At(t.burned, (a, c)), cap(a), p.max, At(t.slashes, (a, c)))
  {
    var s := State(validators, map[], map[], map[]);
    var t := Exec(s, events, p, height);
    RunsKeepInv(s, events, p, height, cap);
    assert At(t.tracker, (a, c)) <= p.max && BurnBound(At(t.burned, (a, c)), cap(a), At(t.tracker, (a, c)), At(t.slashes, (a, c)));
    BurnBoundWidens(At(t.burned, (a, c)), cap(a), At(t.tracker, (a, c)), p.max, At(t.slashes, (a, c)));
  }

  lemma BurnBoundWidens(burned: nat, cap: nat, tracked: nat, max: nat, slashes: nat)
    requires BurnBound(burned, cap, tracked, slashes) && tracked <= max
    ensures BurnBound(burned, cap, max, slashes)
  {
    MulMonotone(tracked, max, cap);
  }

  // ---------------------------------------------------------------- one committee alone

  function StakeOf(s: State, a: nat): (stake: nat)
  {
    if a in s.validators then s.validators[a].stake else 0
  }

  ghost predicate OnlyBy(events: seq<Event>, c: nat)
  {
    forall e <- events :: e.SlashOne? && e.chain == c
  }

  lemma SlashBurnsStake(s: State, address: nat, chain: nat, percent: nat, p: Params, height: nat, a: nat)
    requires ValidParams(p)
    ensures var t := Slash(s, address, chain, percent, p, height);
            StakeOf(t, a) + At(t.burned, (a, chain)) == StakeOf(s, a) + At(s.burned, (a, chain))
  {
    var k := (address, chain);
    if address in s.validators && At(s.tracker, k) < p.max {
      CutBound(s.validators[address].stake, Capped(At(s.tracker, k), percent, p.max));
    }
  }

  lemma {:induction false} OneCommitteeBurns(s: State, events: seq<Event>, p: Params, height: nat, a: nat, c: nat)
    requires ValidParams(p) && OnlyBy(events, c)
    ensures var t := Exec(s, events, p, height);
            StakeOf(t, a) + At(t.burned, (a, c)) == StakeOf(s, a) + At(s.burned, (a, c))
  {
    if events != [] {
      var init, e := events[..|events| - 1], events[|events| - 1];
      assert e in events;
      OneCommitteeBurns(s, init, p, height, a, c);
      SlashBurnsStake(Exec(s, init, p, height), e.address, e.chain, e.percent, p, height, a);
    }
  }

  /** From stake S, any number of slashes by one committee in a block leaves S' with 100(S - S') <= S*M + 99n. */
  lemma OneCommitteeCannotTakeMore(validators: map<nat, Validator>, events: seq<Event>, p: Params, height: nat, a: nat, c: nat)
    requires ValidParams(p) && OnlyBy(events, c)
    ensures var s := State(validators, map[], map[], map[]);
            var t := Exec(s, events, p, height);
            StakeOf(t, a) <= StakeOf(s, a)
            && 100 * (StakeOf(s, a) - StakeOf(t, a)) <= StakeOf(s, a) * p.max + 99 * At(t.slashes, (a, c))
  {
    var s := State(validators, map[], map[], map[]);
    OneCommitteeBurns(s, events, p, height, a, c);
    SlashIsCapped(validators, events, p, height, b => StakeOf(s, b), a, c);
  }

  // ---------------------------------------------------------------- ejection

  lemma {:induction false} WithoutRemoves(committees: seq<nat>, id: nat)
    requires Unique(committees)
    ensures Unique(Without(committees, id)) && id !in Without(committees, id)
    ensures forall x :: x in Without(committees, id) <==> x in committees && x != id
  {
    if committees != [] {
      assert committees == [committees[0]] + committees[1..];
      var rest := committees[1..];
      assert forall i, j :: 0 <= i < j < |rest| ==> rest[i] != rest[j] by {
        assert forall i :: 0 <= i < |rest| ==> rest[i] == committees[i + 1];
      }
      if committees[0] != id {
        WithoutRemoves(rest, id);
        assert committees[0] !in Without(rest, id);
      }
    }
  }

  /** The slash that reaches the cap ejects the validator from exactly that committee, or removes it. */
  lemma CapEjects(s: State, address: nat, chain: nat, percent: nat, p: Params, height: nat)
    requires ValidParams(p) && address in s.validators && Unique(s.validators[address].committees)
    requires At(s.tracker, (address, chain)) < p.max
    ensures var t := Slash(s, address, chain, percent, p, height);
            && (address in t.validators ==>
                  forall x :: x in t.validators[address].committees
                    <==> x in s.validators[address].committees && !(x == chain && At(t.tracker, (address, chain)) >= p.max))
            && (At(t.tracker, (address, chain)) >= p.max ==> At(t.tracker, (address, chain)) == p.max)
  {
    WithoutRemoves(s.validators[address].committees, chain);
  }

  lemma {:induction false} SlashAllAfterCap(s: State, slashes: seq<(nat, nat, nat)>, p: Params, height: nat, a: nat, c: nat)
    requires At(s.tracker, (a, c)) >= p.max
    ensures var t := SlashAll(s, slashes, p, height);
            At(t.tracker, (a, c)) == At(s.tracker, (a, c)) && At(t.burned, (a, c)) == At(s.burned, (a, c))
  {
    if slashes != [] {
      SlashAllAfterCap(s, slashes[..|slashes| - 1], p, height, a, c);
    }
  }

  /** After the ejection the committee burns nothing more in this block, even if the validator rejoins it. */
  lemma {:induction false} NoSlashAfterEjection(s: State, events: seq<Event>, p: Params, height: nat, a: nat, c: nat)
    requires At(s.tracker, (a, c)) >= p.max
    ensures var t := Exec(s, events, p, height);
            At(t.tracker, (a, c)) == At(s.tracker, (a, c)) && At(t.burned, (a, c)) == At(s.burned, (a, c))
  {
    if events != [] {
      var init, e := events[..|events| - 1], events[|events| - 1];
      NoSlashAfterEjection(s, init, p, height, a, c);
      if e.Transaction? {
        SlashAllAfterCap(Exec(s, init, p, height), e.slashes, p, height, a, c);
      }
    }
  }

  // ---------------------------------------------------------------- in place

  /** The block's slash tracker: percent per committee per address, with the inner map created on first use. */
  class SlashTracker {
    var percents: map<nat, map<nat, nat>>

    function Total(address: nat, chain: nat): (percent: nat)
      reads this
    {
      if address in percents && chain in percents[address] then percents[address][chain] else 0
    }

    /** The nested maps hold the totals of `m`. */
    ghost predicate Tracks(m: map<Key, nat>)
      reads this
    {
      forall a: nat, c: nat :: Total(a, c) == At(m, (a, c))
    }

    constructor ()
      ensures Tracks(map[])
    {
      percents := map[];
    }

    /** Reading initializes the address's map, which changes no total. */
    method GetTotalSlashPercent(address: nat, chain: nat, ghost m: map<Key, nat>) returns (percent: nat)
      requires Tracks(m)
      modifies this
      ensures percent == At(m, (address, chain)) && address in percents && Tracks(m)
    {
      if address !in percents {
        percents := percents[address := map[]];
      }
      percent := if chain in percents[address] then percents[address][chain] else 0;
      assert percent == Total(address, chain);
    }

    method AddSlash(address: nat, chain: nat, percent: nat, ghost m: map<Key, nat>)
      requires Tracks(m)
      modifies this
      ensures Tracks(m[(address, chain) := At(m, (address, chain)) + percent])
    {
      var total := GetTotalSlashPercent(address, chain, m);
      var byChain: map<nat, nat> := percents[address][chain := total + percent];
      percents := percents[address := byChain];
    }

    /** The copy is a tracker of its own, so later slashes on either leave the other alone. */
    method Clone(ghost m: map<Key, nat>) returns (copy: SlashTracker)
      requires Tracks(m)
      ensures fresh(copy) && copy.Tracks(m)
    {
      copy := new SlashTracker();
      copy.percents := percents;
    }
  }

  class Validators {
    var validators: map<nat, Validator>
    var tracker: SlashTracker

    constructor (validators: map<nat, Validator>)
      ensures this.validators == validators && tracker.Tracks(map[]) && fresh(tracker)
    {
      this.validators := validators;
      tracker := new SlashTracker();
    }

    method SlashValidator(address: nat, chain: nat, slash: nat, p: Params, height: nat, ghost s: State)
      requires validators == s.validators && tracker.Tracks(s.tracker)
      modifies this`validators, tracker
      ensures var t := Slash(s, address, chain, slash, p, height); validators == t.validators && tracker.Tracks(t.tracker)
      ensures ValidParams(p) && CanLand(s, address, chain, p.max) ==>
                exists left, t :: Takes(s, t, address, chain, slash, p, height, left)
                  && validators == t.validators && tracker.Tracks(t.tracker)
      ensures !CanLand(s, address, chain, p.max) ==> validators == old(validators) && tracker.Tracks(s.tracker)
    {
      if ValidParams(p) {
        ghost var left := SlashTakesExactly(s, address, chain, slash, p, height);
      }
      if address !in validators || chain !in validators[address].committees {
        return;
      }
      var v := validators[address];
      var total := tracker.GetTotalSlashPercent(address, chain, s.tracker);
      if total >= p.max {
        return;
      }
      var percent, committees := slash, v.committees;
      if total + percent >= p.max {
        percent := p.max - total;
        committees := Without(committees, chain);
      }
      assert Slash(s, address, chain, slash, p, height) == Landed(s, (address, chain), v, committees, percent, p, height);
      Land(address, chain, v, committees, percent, p, height, s);
    }

    /** A slash that is not refused: track it, then cut the validator. */
    method Land(address: nat, chain: nat, v: Validator, committees: seq<nat>, percent: nat, p: Params, height: nat,
                ghost s: State)
      requires validators == s.validators && tracker.Tracks(s.tracker)
      modifies this`validators, tracker
      ensures var t := Landed(s, (address, chain), v, committees, percent, p, height);
              validators == t.validators && tracker.Tracks(t.tracker)
    {
      tracker.AddSlash(address, chain, percent, s.tracker);
      Replace(address, v, committees, percent, p, height);
    }

    /** The validator after the slash: removed, or with less stake and possibly demoted. */
    method Replace(address: nat, v: Validator, committees: seq<nat>, percent: nat, p: Params, height: nat)
      modifies this`validators
      ensures validators == Put(old(validators), address, Cut(v, committees, percent, p, height))
    {
      var left := Reduce(v.stake, percent);
      if left == 0 {
        validators := validators - {address};
        return;
      }
      var w := v.(stake := left, committees := committees);
      if w.unstaking == 0 && w.delegate && w.stake < p.minimumForDelegates {
        w := w.(unstaking := height + p.delegateUnstakingBlocks);
      } else if w.unstaking == 0 && !w.delegate && w.stake < p.minimumForValidators {
        w := w.(unstaking := height + p.unstakingBlocks);
      }
      validators := validators[address := w];
    }
  }
}
