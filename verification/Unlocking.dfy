/** Liveness of the safe-node rule: a run in which a locked replica unlocks for another value. */
module Unlocking {
  import opened Quorum
  import opened Options
  import opened Replica
  import opened Consensus
  import opened LockRounds

  /** Round 0: validator 0 votes for the first value, then locks on it, and misses the COMMIT message. */
  lemma LocksAndLeaves(events: seq<Event>, s: System) returns (more: seq<Event>, t: System)
    requires |s.replicas| == 3 && s.replicas[0] == State(0, Precommit, None, Some(First), Some(2))
    requires IsRun(Trio, events) && Exec(Trio, events) == s && Certified(Trio, s.log, 0, ProposeVote, First)
    ensures IsRun(Trio, more) && Exec(Trio, more) == t
    ensures t == System(s.replicas[0 := State(2, Election, Some(Lock(0, First)), None, None)],
                        s.log + [Vote(0, 0, PrecommitVote, ForValue(First, 2))], s.decided)
  {
    var quiet, precommit := Handle(0, Hears(None)), Handle(0, Hears(Some(Message(2, 0, First, None, true))));
    var log1 := s.log + [Vote(0, 0, PrecommitVote, ForValue(First, 2))];
    var locked := State(0, Commit, Some(Lock(0, First)), Some(First), Some(2));
    var s1 := s.(replicas := s.replicas[0 := State(0, PrecommitVote, None, Some(First), Some(2))]);
    var s2 := System(s.replicas[0 := locked], log1, s.decided);
    var s3 := s2.(replicas := s.replicas[0 := locked.(phase := CommitProcess)]);
    var s4 := s2.(replicas := s.replicas[0 := locked.(phase := Phase.Pacemaker)]);
    t := s2.(replicas := s.replicas[0 := State(2, Election, Some(Lock(0, First)), None, None)]);
    more := Extend(events, s, quiet, s1);
    more := Extend(more, s1, precommit, s2);
    more := Extend(more, s2, quiet, s3);
    more := Extend(more, s3, quiet, s4);
    more := Extend(more, s4, Handle(0, Hears(None).(peerRound := 2)), t);
  }

  /** Round 2: a leader proposes the second value with the certificate of round 1, and the locked validator votes. */
  lemma Unlocks(events: seq<Event>, s: System) returns (more: seq<Event>, t: System)
    requires |s.replicas| == 3 && s.replicas[0] == State(2, Election, Some(Lock(0, First)), None, None)
    requires IsRun(Trio, events) && Exec(Trio, events) == s && Certified(Trio, s.log, 1, ProposeVote, Second)
    ensures IsRun(Trio, more) && Exec(Trio, more) == t && events <= more
    ensures t == System(s.replicas[0 := State(2, Precommit, Some(Lock(0, First)), Some(Second), Some(2))],
                        s.log + [Vote(0, 2, ElectionVote, ForLeader(2)), Voted(0, 2, Second)], s.decided)
  {
    var quiet, proposal := Handle(0, Hears(None)), Handle(0, Hears(Some(Message(2, 2, Second, Some(Lock(1, Second)), true))));
    var r := s.replicas[0];
    var log1 := s.log + [Vote(0, 2, ElectionVote, ForLeader(2))];
    var s1 := s.(replicas := s.replicas[0 := r.(phase := ElectionVote)]);
    var s2 := System(s.replicas[0 := r.(phase := Propose)], log1, s.decided);
    var s3 := s2.(replicas := s.replicas[0 := r.(phase := ProposeVote)]);
    t := System(s.replicas[0 := State(2, Precommit, Some(Lock(0, First)), Some(Second), Some(2))], log1 + [Voted(0, 2, Second)], s.decided);
    more := Extend(events, s, quiet, s1);
    more := Extend(more, s1, quiet, s2);
    CertificatesPersist(Trio, s.log, [Vote(0, 2, ElectionVote, ForLeader(2))], 1, ProposeVote, Second);
    more := Extend(more, s2, quiet, s3);
    more := Extend(more, s3, proposal, t);
    assert log1 + [Voted(0, 2, Second)] == s.log + [Vote(0, 2, ElectionVote, ForLeader(2)), Voted(0, 2, Second)];
  }

  /** Round 0 is certified for the first value while the strong validator misses it and certifies the second in round 1. */
  lemma TwoValuesCertify() returns (events: seq<Event>, s: System)
    ensures IsRun(Trio, events) && Exec(Trio, events) == s && |s.replicas| == 3
    ensures s.replicas[0] == State(0, Precommit, None, Some(First), Some(2))
    ensures Certified(Trio, s.log, 0, ProposeVote, First) && Certified(Trio, s.log, 1, ProposeVote, Second)
  {
    s := Init(Trio);
    events := [];
    events, s := VotesInRound(events, s, 0, 0, First);
    events, s := VotesInRound(events, s, 1, 0, First);
    events, s := MissesPrecommit(events, s, 0, First);
    events, s := VotesInRound(events, s, 1, 1, Second);
    assert Voted(1, 0, First) in s.log && Voted(1, 1, Second) in s.log;
    var forged := s.(log := s.log + [Voted(2, 0, First)]);
    events := Extend(events, s, Forge(Voted(2, 0, First)), forged);
    s := forged.(log := forged.log + [Voted(2, 1, Second)]);
    events := Extend(events, forged, Forge(Voted(2, 1, Second)), s);
    TwoCertify(s.log, 0, First);
    TwoCertify(s.log, 1, Second);
  }

  /**
   * A LOCK IS NO DEAD END: with less than a third faulty and genuine certificates, a correct replica locked on
   * one value in round 0 votes in round 2 for another value that round 1 certified.
   */
  lemma LockedReplicaUnlocks() returns (events: seq<Event>, n: nat)
    ensures Trio.Valid() && Trio.Honest(0) && n <= |events|
    ensures IsRun(Trio, events) && IsRun(Trio, events[..n])
    ensures Exec(Trio, events[..n]).replicas[0].highQC == Some(Lock(0, First))
    ensures Voted(0, 2, Second) in Exec(Trio, events).log && Voted(0, 2, Second) !in Exec(Trio, events[..n]).log
    ensures First != Second
  {
    TrioPowers({});
    var s, t;
    events, s := TwoValuesCertify();
    events, t := LocksAndLeaves(events, s);
    CertificatesPersist(Trio, s.log, [Vote(0, 0, PrecommitVote, ForValue(First, 2))], 1, ProposeVote, Second);
    n := |events|;
    NoHonestEquivocation(Trio, events);
    assert Voted(0, 2, Second) !in t.log;
    var before := events;
    var u;
    events, u := Unlocks(events, t);
    assert events[..n] == before;
  }
}
