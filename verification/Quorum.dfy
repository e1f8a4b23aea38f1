/** Voting power of a committee and the arithmetic of its two-thirds majority. */
module Quorum {

  /** The voting power of the validators whose index is in `signers`; `powers[i]` is validator i's power. */
  function Power(powers: seq<nat>, signers: set<nat>): (total: nat)
  {
    if powers == [] then 0
    else
      var last := |powers| - 1;
      Power(powers[..last], signers) + if last in signers then powers[last] else 0
  }

  function TotalPower(powers: seq<nat>): (total: nat)
  {
    if powers == [] then 0 else TotalPower(powers[..|powers| - 1]) + powers[|powers| - 1]
  }

  /** MinimumMaj23 of a validator set. */
  function MinimumMaj23(powers: seq<nat>): (threshold: nat)
  {
    2 * TotalPower(powers) / 3 + 1
  }

  /** The majority is the least whole power above two thirds of the total. */
  lemma MajorityIsLeast(powers: seq<nat>, power: nat)
    ensures power >= MinimumMaj23(powers) <==> 3 * power > 2 * TotalPower(powers)
  {
  }

  /** The total is the power of everyone. */
  lemma {:induction false} TotalIsEveryone(powers: seq<nat>, everyone: set<nat>)
    requires forall i: nat :: i < |powers| ==> i in everyone
    ensures Power(powers, everyone) == TotalPower(powers)
  {
    if powers != [] {
      TotalIsEveryone(powers[..|powers| - 1], everyone);
    }
  }

  /** Inclusion-exclusion for voting power. */
  lemma {:induction false} PowerUnion(powers: seq<nat>, a: set<nat>, b: set<nat>)
    ensures Power(powers, a) + Power(powers, b) == Power(powers, a + b) + Power(powers, a * b)
  {
    if powers != [] {
      PowerUnion(powers[..|powers| - 1], a, b);
    }
  }

  lemma {:induction false} PowerMonotone(powers: seq<nat>, a: set<nat>, b: set<nat>)
    requires forall i <- a :: i < |powers| ==> i in b
    ensures Power(powers, a) <= Power(powers, b)
  {
    if powers != [] {
      PowerMonotone(powers[..|powers| - 1], a, b);
    }
  }

  lemma {:induction false} PowerAtMostTotal(powers: seq<nat>, a: set<nat>)
    ensures Power(powers, a) <= TotalPower(powers)
  {
    if powers != [] {
      PowerAtMostTotal(powers[..|powers| - 1], a);
    }
  }

  lemma {:induction false} PowerOfNone(powers: seq<nat>)
    ensures Power(powers, {}) == 0
  {
    if powers != [] {
      PowerOfNone(powers[..|powers| - 1]);
    }
  }

  /** Enabling one more signer adds exactly that signer's power. */
  lemma {:induction false} PowerInsert(powers: seq<nat>, a: set<nat>, i: nat)
    requires i < |powers| && i !in a
    ensures Power(powers, a + {i}) == Power(powers, a) + powers[i]
  {
    var last := |powers| - 1;
    if i == last {
      PowerMonotone(powers[..last], a, a + {i});
      PowerMonotone(powers[..last], a + {i}, a);
    } else {
      PowerInsert(powers[..last], a, i);
    }
  }

  /** Two majorities overlap in more than one third of the total power. */
  lemma QuorumIntersection(powers: seq<nat>, a: set<nat>, b: set<nat>)
    requires Power(powers, a) >= MinimumMaj23(powers)
    requires Power(powers, b) >= MinimumMaj23(powers)
    ensures 3 * Power(powers, a * b) > TotalPower(powers)
  {
    PowerUnion(powers, a, b);
    PowerAtMostTotal(powers, a + b);
  }

  /** When the faulty validators hold less than a third, two majorities share a correct validator. */
  lemma HonestInIntersection(powers: seq<nat>, faulty: set<nat>, a: set<nat>, b: set<nat>) returns (honest: nat)
    requires 3 * Power(powers, faulty) < TotalPower(powers)
    requires Power(powers, a) >= MinimumMaj23(powers)
    requires Power(powers, b) >= MinimumMaj23(powers)
    ensures honest in a && honest in b && honest !in faulty && honest < |powers|
  {
    QuorumIntersection(powers, a, b);
    if forall i <- a * b :: i < |powers| ==> i in faulty {
      PowerMonotone(powers, a * b, faulty);
      assert false;
    }
    honest :| honest in a * b && honest < |powers| && honest !in faulty;
  }
}
