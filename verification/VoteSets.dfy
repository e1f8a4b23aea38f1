/** The leader's tally of replica votes, one set per round, phase and signed payload. */
module VoteSets {
  import opened Quorum

  /** A payload is identified by the hash of its sign bytes. */
  datatype Key = Key(round: nat, phase: nat, payload: nat)

  datatype VoteSet = VoteSet(power: nat, signers: set<nat>)

  /** A vote as it arrives; `added` is whether the multi-key accepts the signature. */
  datatype Arrival = Arrival(key: Key, signer: nat, added: bool)

  datatype Outcome = Added | NotInSet | Duplicate | NotAdded

  /** getVoteSet and addSigToVoteSet on the tally as a value. */
  function AddVote(powers: seq<nat>, sets: map<Key, VoteSet>, a: Arrival): (r: (map<Key, VoteSet>, Outcome))
  {
    var s := if a.key in sets then sets[a.key] else VoteSet(0, {});
    if a.signer >= |powers| then (sets[a.key := s], NotInSet)
    else if a.signer in s.signers then (sets[a.key := s], Duplicate)
    else if !a.added then (sets[a.key := s.(power := s.power + powers[a.signer])], NotAdded)
    else (sets[a.key := VoteSet(s.power + powers[a.signer], s.signers + {a.signer})], Added)
  }

  function Tally(powers: seq<nat>, arrivals: seq<Arrival>): (sets: map<Key, VoteSet>)
  {
    if arrivals == [] then map[]
    else AddVote(powers, Tally(powers, arrivals[..|arrivals| - 1]), arrivals[|arrivals| - 1]).0
  }

  /** The known validators that voted for this payload. */
  function Voters(powers: seq<nat>, arrivals: seq<Arrival>, key: Key): (voters: set<nat>)
  {
    set k | 0 <= k < |arrivals| && arrivals[k].key == key && arrivals[k].signer < |powers| :: arrivals[k].signer
  }

  /** The counted power is the power of exactly the enabled signers. */
  predicate Exact(powers: seq<nat>, s: VoteSet)
  {
    s.power == Power(powers, s.signers)
  }

  /** A validator's first vote for the payload, with power behind it, whose signature the multi-key does not take. */
  predicate Unrecorded(powers: seq<nat>, sets: map<Key, VoteSet>, a: Arrival)
  {
    && a.signer < |powers| && powers[a.signer] > 0 && !a.added
    && (a.key in sets ==> a.signer !in sets[a.key].signers)
  }

  /** One arrival keeps a set exact if and only if no new signature with power behind it is left unrecorded. */
  lemma AddVoteKeepsExact(powers: seq<nat>, sets: map<Key, VoteSet>, a: Arrival)
    requires a.key in sets ==> Exact(powers, sets[a.key])
    ensures var (after, outcome) := AddVote(powers, sets, a);
            && a.key in after
            && (Exact(powers, after[a.key]) <==> !Unrecorded(powers, sets, a))
            && (Unrecorded(powers, sets, a) ==> outcome == NotAdded)
  {
    PowerOfNone(powers);
    var s := if a.key in sets then sets[a.key] else VoteSet(0, {});
    if a.signer < |powers| && a.signer !in s.signers {
      PowerInsert(powers, s.signers, a.signer);
    }
  }

  /**
   * What one arrival does: an unknown signer is turned away and a repeated one counts once; a new one's power
   * counts even if its signature is not taken, but only one that is taken signs. No other set is touched.
   */
  lemma ArrivalCounts(powers: seq<nat>, sets: map<Key, VoteSet>, a: Arrival)
    ensures var s := if a.key in sets then sets[a.key] else VoteSet(0, {});
            var (after, outcome) := AddVote(powers, sets, a);
            && after == sets[a.key := VoteSet(after[a.key].power, after[a.key].signers)]
            && (outcome == NotInSet <==> a.signer >= |powers|)
            && (outcome == Duplicate <==> a.signer < |powers| && a.signer in s.signers)
            && (outcome == NotAdded || outcome == Added ==> (outcome == Added <==> a.added))
            && after[a.key].power == s.power + (if a.signer < |powers| && a.signer !in s.signers then powers[a.signer] else 0)
            && after[a.key].signers == s.signers + (if outcome == Added then {a.signer} else {})
  {
  }

  ghost predicate Seen(arrivals: seq<Arrival>, key: Key)
  {
    exists k :: 0 <= k < |arrivals| && arrivals[k].key == key
  }

  /** Every set counts exactly the power of the validators that voted for its payload. */
  ghost predicate Counts(powers: seq<nat>, arrivals: seq<Arrival>, sets: map<Key, VoteSet>)
  {
    && (forall key :: key in sets <==> Seen(arrivals, key))
    && (forall key :: key in sets ==> Exact(powers, sets[key]) && sets[key].signers == Voters(powers, arrivals, key))
  }

  /** The tally counts exactly, over any arrival order in which signatures are accepted. */
  lemma {:induction false} TallyIsExact(powers: seq<nat>, arrivals: seq<Arrival>)
    requires forall k :: 0 <= k < |arrivals| ==> arrivals[k].added
    ensures Counts(powers, arrivals, Tally(powers, arrivals))
  {
    if arrivals != [] {
      var init, a := arrivals[..|arrivals| - 1], arrivals[|arrivals| - 1];
      TallyIsExact(powers, init);
      var before, sets := Tally(powers, init), Tally(powers, arrivals);
      AddVoteKeepsExact(powers, before, a);
      assert arrivals == init + [a];
      forall key ensures key in sets <==> Seen(arrivals, key) {
        assert Seen(init, key) ==> Seen(arrivals, key) by {
          if Seen(init, key) {
            var k :| 0 <= k < |init| && init[k].key == key;
            assert arrivals[k].key == key;
          }
        }
        assert arrivals[|init|].key == a.key;
      }
      forall key | key in sets ensures Exact(powers, sets[key]) && sets[key].signers == Voters(powers, arrivals, key) {
        VotersGrow(powers, init, a, key);
        if key !in before {
          assert Voters(powers, init, key) == {};
        }
      }
    }
  }

  lemma VotersGrow(powers: seq<nat>, init: seq<Arrival>, a: Arrival, key: Key)
    ensures Voters(powers, init + [a], key)
            == Voters(powers, init, key) + (if a.key == key && a.signer < |powers| then {a.signer} else {})
  {
    var all := init + [a];
    assert all[|init|] == a;
    assert forall k :: 0 <= k < |init| ==> all[k] == init[k];
  }

  /** Correct validators vote for one payload in a view. */
  ghost predicate OnePayload(arrivals: seq<Arrival>, faulty: set<nat>)
  {
    forall j, k :: 0 <= j < |arrivals| && 0 <= k < |arrivals|
                   && arrivals[j].signer == arrivals[k].signer && arrivals[j].signer !in faulty
                   && arrivals[j].key.round == arrivals[k].key.round && arrivals[j].key.phase == arrivals[k].key.phase
                   ==> arrivals[j].key == arrivals[k].key
  }

  predicate HasMajority(powers: seq<nat>, sets: map<Key, VoteSet>, key: Key)
  {
    key in sets && sets[key].power >= MinimumMaj23(powers)
  }

  /** At most one payload of a view reaches a majority, whatever the faulty validators send. */
  lemma MajorityIsUnique(powers: seq<nat>, arrivals: seq<Arrival>, faulty: set<nat>, a: Key, b: Key)
    requires forall k :: 0 <= k < |arrivals| ==> arrivals[k].added
    requires OnePayload(arrivals, faulty) && 3 * Power(powers, faulty) < TotalPower(powers)
    requires a.round == b.round && a.phase == b.phase
    requires HasMajority(powers, Tally(powers, arrivals), a) && HasMajority(powers, Tally(powers, arrivals), b)
    ensures a == b
  {
    TallyIsExact(powers, arrivals);
    var i := HonestInIntersection(powers, faulty, Voters(powers, arrivals, a), Voters(powers, arrivals, b));
    var j :| 0 <= j < |arrivals| && arrivals[j].key == a && arrivals[j].signer == i;
    var k :| 0 <= k < |arrivals| && arrivals[k].key == b && arrivals[k].signer == i;
  }

  class Votes {
    const powers: seq<nat>
    var sets: map<Key, VoteSet>

    constructor (powers: seq<nat>)
      ensures this.powers == powers && sets == Tally(powers, [])
    {
      this.powers, sets := powers, map[];
    }

    /** The set for this payload, created empty on first sight. */
    method GetVoteSet(key: Key) returns (s: VoteSet)
      modifies this`sets
      ensures s == (if key in old(sets) then old(sets)[key] else VoteSet(0, {}))
      ensures sets == old(sets)[key := s]
    {
      if key !in sets {
        sets := sets[key := VoteSet(0, {})];
      }
      s := sets[key];
    }

    method Add(a: Arrival) returns (outcome: Outcome)
      modifies this`sets
      ensures (sets, outcome) == AddVote(powers, old(sets), a)
      ensures forall arrivals :: old(sets) == Tally(powers, arrivals) ==> sets == Tally(powers, arrivals + [a])
    {
      ghost var before := sets;
      var s := GetVoteSet(a.key);
      if a.signer >= |powers| {
        outcome := NotInSet;
      } else if a.signer in s.signers {
        outcome := Duplicate;
      } else {
        s := s.(power := s.power + powers[a.signer]);
        sets := sets[a.key := s];
        if !a.added {
          outcome := NotAdded;
        } else {
          s := s.(signers := s.signers + {a.signer});
          sets := sets[a.key := s];
          outcome := Added;
        }
      }
      assert sets == before[a.key := s];
      forall arrivals | before == Tally(powers, arrivals) ensures sets == Tally(powers, arrivals + [a]) {
        assert (arrivals + [a])[..|arrivals|] == arrivals;
      }
    }

    /** Searches the sets of a view, in any order, for one with a majority. */
    method GetMajorityVote(round: nat, phase: nat) returns (found: bool, key: Key)
      ensures found ==> key.round == round && key.phase == phase && HasMajority(powers, sets, key)
      ensures !found ==> forall k: Key :: k.round == round && k.phase == phase ==> !HasMajority(powers, sets, k)
    {
      var left := set k | k in sets && k.round == round && k.phase == phase;
      key := Key(round, phase, 0);
      while left != {}
        invariant forall k <- left :: k in sets && k.round == round && k.phase == phase
        invariant forall k: Key :: k.round == round && k.phase == phase && HasMajority(powers, sets, k) ==> k in left
        decreases |left|
      {
        var k :| k in left;
        if sets[k].power >= MinimumMaj23(powers) {
          return true, k;
        }
        left := left - {k};
      }
      found := false;
    }
  }
}
