/**
 * Agreement rests on the documented reading of the safe-node rule. With the rule as written there is
 * a run in which every leader message is backed by a genuine certificate, less than a third of the
 * power is faulty, and two commit certificates carry different blocks.
 */
module Unjustified {
  import opened Quorum
  import opened Options
  import opened Replica
  import opened Consensus

  // one correct validator of power 3 and one faulty validator of power 1
  const Pair := Committee([3, 1], {1})

  function Hears(message: Option<Message>): (input: Input)
  {
    Input(1, false, None, message, 0)
  }

  function At(state: State, log: seq<Vote>): (s: System)
  {
    System([state, Start], log, [])
  }

  /** The three votes the correct validator casts in one round led by validator 1. */
  function RoundVotes(round: nat, value: Value): (votes: seq<Vote>)
  {
    [Vote(0, round, ElectionVote, ForLeader(1)),
     Vote(0, round, ProposeVote, ForValue(value, 1)),
     Vote(0, round, PrecommitVote, ForValue(value, 1))]
  }

  lemma Extend(events: seq<Event>, s: System, input: Input, t: System) returns (more: seq<Event>)
    requires IsRun(Pair, events) && Exec(Pair, events) == s && |s.replicas| == 2
    requires Enabled(Pair, s, Handle(0, input)) && Apply(Pair, s, Handle(0, input)) == t
    ensures IsRun(Pair, more) && Exec(Pair, more) == t
  {
    more := events + [Handle(0, input)];
    assert more[..|more| - 1] == events;
  }

  /** The correct validator's vote alone is a certificate. */
  lemma Certifies(log: seq<Vote>, round: nat, phase: Phase, value: Value)
    requires Vote(0, round, phase, ForValue(value, 1)) in log
    ensures Certified(Pair, log, round, phase, value)
  {
    var k :| 0 <= k < |log| && log[k] == Vote(0, round, phase, ForValue(value, 1));
    assert IsFor(log[k], round, phase, value);
    var signers := Signers(log, round, phase, value);
    assert 0 in signers;
    assert Pair.powers[..1] == [3] && Pair.powers[..1][..0] == [];
    assert Power([3], signers) == 3 && Power(Pair.powers, signers) >= 3;
    assert TotalPower([3]) == 3 && TotalPower(Pair.powers) == 4;
  }

  /** The first half of a round: the validator elects leader 1 and votes for its proposal. */
  lemma VoteForProposal(events: seq<Event>, start: State, log: seq<Vote>, value: Value, high: Option<Lock>)
    returns (more: seq<Event>)
    requires start.phase == Election && start.proposer == None
    requires IsRun(Pair, events) && Exec(Pair, events) == At(start, log)
    requires high.Some? ==> Locked(Pair, log, high.value)
    requires start.highQC.Some? ==> SafeNode(start.highQC.value, Message(1, start.round, value, high, true))
    ensures IsRun(Pair, more)
    ensures Exec(Pair, more) == At(start.(phase := Precommit, proposer := Some(1), proposal := Some(value)),
                                   log + RoundVotes(start.round, value)[..2])
  {
    var votes := RoundVotes(start.round, value);
    var quiet, proposal := Hears(None), Hears(Some(Message(1, start.round, value, high, true)));
    var log1 := log + [votes[0]];
    more := Extend(events, At(start, log), quiet, At(start.(phase := ElectionVote), log));
    more := Extend(more, At(start.(phase := ElectionVote), log), quiet, At(start.(phase := Propose), log1));
    more := Extend(more, At(start.(phase := Propose), log1), quiet, At(start.(phase := ProposeVote), log1));
    if high.Some? {
      CertificatesPersist(Pair, log, [votes[0]], high.value.round, ProposeVote, high.value.value);
    }
    assert log1 + [votes[1]] == log + votes[..2];
    more := Extend(more, At(start.(phase := ProposeVote), log1), proposal,
           At(start.(phase := Precommit, proposer := Some(1), proposal := Some(value)), log + votes[..2]));
  }

  /** The second half: it locks and precommits, misses the COMMIT message, and moves to the next round. */
  lemma LockAndMoveOn(events: seq<Event>, voted: State, log: seq<Vote>, value: Value)
    returns (more: seq<Event>)
    requires voted.phase == Precommit && voted.proposer == Some(1) && voted.proposal == Some(value)
    requires IsRun(Pair, events) && Exec(Pair, events) == At(voted, log)
    requires Certified(Pair, log, voted.round, ProposeVote, value)
    ensures IsRun(Pair, more)
    ensures Exec(Pair, more) == At(State(voted.round + 1, Election, Some(Lock(voted.round, value)), None, None),
                                   log + [RoundVotes(voted.round, value)[2]])
  {
    var quiet, precommit := Hears(None), Hears(Some(Message(1, voted.round, value, None, true)));
    var log1 := log + [RoundVotes(voted.round, value)[2]];
    var locked := voted.(highQC := Some(Lock(voted.round, value)));
    more := Extend(events, At(voted, log), quiet, At(voted.(phase := PrecommitVote), log));
    more := Extend(more, At(voted.(phase := PrecommitVote), log), precommit, At(locked.(phase := Commit), log1));
    more := Extend(more, At(locked.(phase := Commit), log1), quiet, At(locked.(phase := CommitProcess), log1));
    more := Extend(more, At(locked.(phase := CommitProcess), log1), quiet, At(locked.(phase := Pacemaker), log1));
    more := Extend(more, At(locked.(phase := Pacemaker), log1), quiet,
           At(State(voted.round + 1, Election, Some(Lock(voted.round, value)), None, None), log1));
  }

  /** One failed round: the validator votes and locks on `value` without deciding. */
  lemma PlayRound(events: seq<Event>, start: State, log: seq<Vote>, value: Value, high: Option<Lock>)
    returns (more: seq<Event>)
    requires start.phase == Election && start.proposer == None
    requires IsRun(Pair, events) && Exec(Pair, events) == At(start, log)
    requires high.Some? ==> Locked(Pair, log, high.value)
    requires start.highQC.Some? ==> SafeNode(start.highQC.value, Message(1, start.round, value, high, true))
    ensures IsRun(Pair, more)
    ensures Exec(Pair, more) == At(State(start.round + 1, Election, Some(Lock(start.round, value)), None, None),
                                   log + RoundVotes(start.round, value))
  {
    var votes := RoundVotes(start.round, value);
    more := VoteForProposal(events, start, log, value, high);
    var log2 := log + votes[..2];
    assert log2[|log2| - 1] == votes[1];
    Certifies(log2, start.round, ProposeVote, value);
    more := LockAndMoveOn(more, start.(phase := Precommit, proposer := Some(1), proposal := Some(value)), log2, value);
    assert log2 + [votes[2]] == log + votes;
  }

  /**
   * Agreement fails without the hypothesis: a proposal that keeps the results hash of its HighQC but
   * names another block passes the written rule, and both blocks reach a commit certificate.
   */
  lemma AgreementNeedsJustification() returns (events: seq<Event>, v: Value, w: Value)
    ensures Pair.Valid() && IsRun(Pair, events) && v != w
    ensures Certified(Pair, Exec(Pair, events).log, 0, PrecommitVote, v)
    ensures Certified(Pair, Exec(Pair, events).log, 1, PrecommitVote, w)
  {
    v, w := Value(1, 1), Value(2, 1);
    assert Init(Pair) == At(Start, []);
    assert Pair.powers[..1] == [3] && Pair.powers[..1][..0] == [];
    assert Power([3], {1}) == 0 && Power(Pair.powers, {1}) == 1;
    assert TotalPower([3]) == 3 && TotalPower(Pair.powers) == 4;
    var first := PlayRound([], Start, [], v, None);
    var log := [] + RoundVotes(0, v);
    assert log[1] == Vote(0, 0, ProposeVote, ForValue(v, 1)) && log[2] == Vote(0, 0, PrecommitVote, ForValue(v, 1));
    Certifies(log, 0, ProposeVote, v);
    events := PlayRound(first, State(1, Election, Some(Lock(0, v)), None, None), log, w, Some(Lock(0, v)));
    var final := log + RoundVotes(1, w);
    assert final[2] == log[2] && final[5] == Vote(0, 1, PrecommitVote, ForValue(w, 1));
    Certifies(final, 0, PrecommitVote, v);
    Certifies(final, 1, PrecommitVote, w);
  }
}
