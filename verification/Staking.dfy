/** Validators and delegates as the state stores them. */
module Staking {
  import opened Uint64

  /**
   * A validator, or a delegate who only lends stake: the committees it serves, the height its unstaking
   * ends (0 while it is not unstaking), whether rewards compound, and where payouts go.
   */
  datatype Validator = Validator(stake: u64, committees: seq<nat>, delegate: bool, unstaking: nat, compound: bool, output: nat)

  /** No committee is listed twice. */
  predicate Unique(committees: seq<nat>)
  {
    forall i, j :: 0 <= i < j < |committees| ==> committees[i] != committees[j]
  }

  /** What each validator has at stake. */
  function Stakes(validators: map<nat, Validator>): (stakes: map<nat, u64>)
  {
    map a | a in validators :: validators[a].stake
  }
}
