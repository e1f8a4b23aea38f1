/**
 * The round of a correct replica's lock over a run. It never falls as long as no replica adopts a
 * certificate of a round it has not reached itself; a run that does so makes a lock fall.
 */
module LockRounds {
  import opened Quorum
  import opened Options
  import opened Replica
  import opened Consensus

  /** A certificate is adopted only by a replica that has reached its round. */
  predicate TimelyStep(c: Committee, s: System, e: Event)
    requires |s.replicas| == |c.powers| && Enabled(c, s, e)
  {
    e.Adopt? ==> e.lock.round <= s.replicas[e.replica].round
  }

  ghost predicate Timely(c: Committee, events: seq<Event>)
    requires IsRun(c, events)
  {
    events == [] ||
    (var init := events[..|events| - 1];
     Timely(c, init) && TimelyStep(c, Exec(c, init), events[|events| - 1]))
  }

  /** No correct replica holds a lock of a later round than its own. */
  ghost predicate LocksReached(c: Committee, s: System)
    requires |s.replicas| == |c.powers|
  {
    forall i: nat :: c.Honest(i) && s.replicas[i].highQC.Some? ==> s.replicas[i].highQC.value.round <= s.replicas[i].round
  }

  /** The round of a lock, and -1 without one. */
  function RoundOf(lock: Option<Lock>): (round: int)
  {
    if lock.None? then -1 else lock.value.round
  }

  /** The step in which a lock falls: a precommit in a round below that of the lock. */
  predicate LowersLock(c: Committee, s: System, e: Event, i: nat)
    requires |s.replicas| == |c.powers| && Enabled(c, s, e) && c.Honest(i)
  {
    && e.Handle? && e.replica == i
    && var r := s.replicas[i];
       && r.phase == PrecommitVote && e.input.message.Some? && Matches(r, e.input.message.value)
       && RoundOf(r.highQC) > r.round
  }

  /** A step lowers a lock's round exactly when its replica precommits below the round of its lock. */
  lemma StepLowersLock(c: Committee, s: System, e: Event, i: nat)
    requires |s.replicas| == |c.powers| && Enabled(c, s, e) && c.Honest(i)
    ensures RoundOf(Apply(c, s, e).replicas[i].highQC) < RoundOf(s.replicas[i].highQC) <==> LowersLock(c, s, e, i)
  {
    var r := s.replicas[i];
    if e.Handle? && e.replica == i {
      if r.highQC.Some? {
        LockRoundFalls(i, r, e.input);
      }
    } else if e.Adopt? && e.replica == i {
      AdoptionRaisesLock(r, e.lock, e.attached);
    }
  }

  lemma StepKeepsReached(c: Committee, s: System, e: Event)
    requires |s.replicas| == |c.powers| && Enabled(c, s, e) && TimelyStep(c, s, e) && LocksReached(c, s)
    ensures LocksReached(c, Apply(c, s, e))
  {
    var t := Apply(c, s, e);
    forall i: nat | c.Honest(i) && t.replicas[i].highQC.Some?
      ensures t.replicas[i].highQC.value.round <= t.replicas[i].round
    {
      if e.Handle? && e.replica == i {
        ViewAdvances(i, s.replicas[i], e.input);
      }
    }
  }

  lemma {:induction false} RunsReachLocks(c: Committee, events: seq<Event>)
    requires IsRun(c, events) && Timely(c, events)
    ensures LocksReached(c, Exec(c, events))
    decreases |events|
  {
    if events != [] {
      RunsReachLocks(c, events[..|events| - 1]);
      StepKeepsReached(c, Exec(c, events[..|events| - 1]), events[|events| - 1]);
    }
  }

  /** A run of a committee cut off anywhere is a run. */
  lemma {:induction false} PrefixIsRun(c: Committee, events: seq<Event>, n: nat)
    requires IsRun(c, events) && n <= |events|
    ensures IsRun(c, events[..n])
    decreases |events|
  {
    if n < |events| {
      assert events[..|events| - 1][..n] == events[..n];
      PrefixIsRun(c, events[..|events| - 1], n);
    } else {
      assert events[..n] == events;
    }
  }

  /**
   * LOCKS NEVER FALL: in every run in which certificates are adopted only by replicas that have reached
   * their round, a correct replica's lock at the end is of no earlier round than at any point before.
   */
  lemma {:induction false} LocksNeverFall(c: Committee, events: seq<Event>, n: nat, i: nat)
    requires IsRun(c, events) && Timely(c, events) && n <= |events| && c.Honest(i)
    ensures IsRun(c, events[..n])
    ensures RoundOf(Exec(c, events[..n]).replicas[i].highQC) <= RoundOf(Exec(c, events).replicas[i].highQC)
    decreases |events|
  {
    PrefixIsRun(c, events, n);
    if n == |events| {
      assert events[..n] == events;
    } else {
      var init, e := events[..|events| - 1], events[|events| - 1];
      assert init[..n] == events[..n];
      LocksNeverFall(c, init, n, i);
      RunsReachLocks(c, init);
      StepLowersLock(c, Exec(c, init), e, i);
    }
  }

  // ---------------------------------------------------------------- a run in which a lock falls

  // correct validators of power 1 and 3, and a faulty one of power 1
  const Trio := Committee([1, 3, 1], {2})
  const First := Value(1, 1)
  const Second := Value(2, 2)

  function Hears(message: Option<Message>): (input: Input)
  {
    Input(2, false, None, message, 0)
  }

  lemma Extend(events: seq<Event>, s: System, e: Event, t: System) returns (more: seq<Event>)
    requires IsRun(Trio, events) && Exec(Trio, events) == s && |s.replicas| == 3
    requires Enabled(Trio, s, e) && Apply(Trio, s, e) == t
    ensures IsRun(Trio, more) && Exec(Trio, more) == t && more == events + [e]
  {
    more := events + [e];
    assert more[..|more| - 1] == events;
  }

  function Voted(i: nat, round: nat, value: Value): (vote: Vote)
  {
    Vote(i, round, ProposeVote, ForValue(value, 2))
  }

  /** A replica without a lock elects leader 2 and votes for its proposal. */
  lemma VotesInRound(events: seq<Event>, s: System, i: nat, round: nat, value: Value) returns (more: seq<Event>, t: System)
    requires i < 2 && |s.replicas| == 3 && s.replicas[i] == State(round, Election, None, None, None)
    requires IsRun(Trio, events) && Exec(Trio, events) == s
    ensures IsRun(Trio, more) && Exec(Trio, more) == t
    ensures t == System(s.replicas[i := State(round, Precommit, None, Some(value), Some(2))],
                        s.log + [Vote(i, round, ElectionVote, ForLeader(2)), Voted(i, round, value)], s.decided)
  {
    var quiet, proposal := Handle(i, Hears(None)), Handle(i, Hears(Some(Message(2, round, value, None, true))));
    var s1 := s.(replicas := s.replicas[i := State(round, ElectionVote, None, None, None)]);
    var log1 := s.log + [Vote(i, round, ElectionVote, ForLeader(2))];
    var s2 := System(s.replicas[i := State(round, Propose, None, None, None)], log1, s.decided);
    var s3 := s2.(replicas := s.replicas[i := State(round, ProposeVote, None, None, None)]);
    t := System(s.replicas[i := State(round, Precommit, None, Some(value), Some(2))], log1 + [Voted(i, round, value)], s.decided);
    more := Extend(events, s, quiet, s1);
    more := Extend(more, s1, quiet, s2);
    more := Extend(more, s2, quiet, s3);
    more := Extend(more, s3, proposal, t);
    assert log1 + [Voted(i, round, value)] == s.log + [Vote(i, round, ElectionVote, ForLeader(2)), Voted(i, round, value)];
  }

  /** The strong validator misses the PRECOMMIT message and goes on to the next round without a lock. */
  lemma MissesPrecommit(events: seq<Event>, s: System, round: nat, value: Value) returns (more: seq<Event>, t: System)
    requires |s.replicas| == 3 && s.replicas[1] == State(round, Precommit, None, Some(value), Some(2))
    requires IsRun(Trio, events) && Exec(Trio, events) == s
    ensures IsRun(Trio, more) && Exec(Trio, more) == t
    ensures t == s.(replicas := s.replicas[1 := State(round + 1, Election, None, None, None)])
  {
    var quiet := Handle(1, Hears(None));
    var s1 := s.(replicas := s.replicas[1 := s.replicas[1].(phase := PrecommitVote)]);
    var s2 := s.(replicas := s.replicas[1 := s.replicas[1].(phase := Phase.Pacemaker)]);
    t := s.(replicas := s.replicas[1 := State(round + 1, Election, None, None, None)]);
    more := Extend(events, s, quiet, s1);
    more := Extend(more, s1, quiet, s2);
    more := Extend(more, s2, quiet, t);
  }

  /** The strong and the faulty validator together certify. */
  lemma TwoCertify(log: seq<Vote>, round: nat, value: Value)
    requires Voted(1, round, value) in log && Voted(2, round, value) in log
    ensures Certified(Trio, log, round, ProposeVote, value)
  {
    var j :| 0 <= j < |log| && log[j] == Voted(1, round, value);
    var k :| 0 <= k < |log| && log[k] == Voted(2, round, value);
    assert IsFor(log[j], round, ProposeVote, value) && IsFor(log[k], round, ProposeVote, value);
    var signers := Signers(log, round, ProposeVote, value);
    assert 1 in signers && 2 in signers;
    TrioPowers(signers);
  }

  lemma TrioPowers(signers: set<nat>)
    ensures TotalPower(Trio.powers) == 5
    ensures 1 in signers && 2 in signers ==> Power(Trio.powers, signers) >= 4
    ensures Trio.Valid()
  {
    assert Trio.powers[..2] == [1, 3] && [1, 3][..1] == [1] && [1][..0] == [];
    assert TotalPower([1]) == 1 && TotalPower([1, 3]) == 4;
    assert Power([1], {2}) == 0 && Power([1, 3], {2}) == 0 && Power(Trio.powers, {2}) == 1;
    if 1 in signers && 2 in signers {
      assert Power([1, 3], signers) >= 3;
    }
  }

  /** Both rounds get a certificate for one value while validator 0 waits in round 0 for PRECOMMIT. */
  lemma TwoRoundsCertify() returns (events: seq<Event>, s: System)
    ensures IsRun(Trio, events) && Exec(Trio, events) == s && |s.replicas| == 3 && s.decided == []
    ensures s.replicas[0] == State(0, PrecommitVote, None, Some(First), Some(2))
    ensures Certified(Trio, s.log, 0, ProposeVote, First) && Certified(Trio, s.log, 1, ProposeVote, First)
  {
    s := Init(Trio);
    events := [];
    events, s := VotesInRound(events, s, 0, 0, First);
    var waiting := s.(replicas := s.replicas[0 := s.replicas[0].(phase := PrecommitVote)]);
    events := Extend(events, s, Handle(0, Hears(None)), waiting);
    events, s := VotesInRound(events, waiting, 1, 0, First);
    events, s := MissesPrecommit(events, s, 0, First);
    events, s := VotesInRound(events, s, 1, 1, First);
    ghost var log := s.log;
    assert Voted(1, 0, First) in log && Voted(1, 1, First) in log;
    var forged := s.(log := s.log + [Voted(2, 0, First)]);
    events := Extend(events, s, Forge(Voted(2, 0, First)), forged);
    s := forged.(log := forged.log + [Voted(2, 1, First)]);
    events := Extend(events, forged, Forge(Voted(2, 1, First)), s);
    TwoCertify(s.log, 0, First);
    TwoCertify(s.log, 1, First);
  }

  /**
   * A LOCK CAN FALL: with less than a third of the power faulty and every certificate genuine, a replica
   * that is still to precommit in round 0 adopts the certificate of round 1, and then locks in round 0.
   */
  lemma LockCanFall() returns (events: seq<Event>, n: nat)
    ensures Trio.Valid() && Trio.Honest(0) && n < |events|
    ensures IsRun(Trio, events) && IsRun(Trio, events[..n])
    ensures Exec(Trio, events[..n]).replicas[0].highQC == Some(Lock(1, First))
    ensures Exec(Trio, events).replicas[0].highQC == Some(Lock(0, First))
  {
    TrioPowers({});
    var s;
    events, s := TwoRoundsCertify();
    var ahead := s.replicas[0].(highQC := Some(Lock(1, First)));
    var t := s.(replicas := s.replicas[0 := ahead]);
    events := Extend(events, s, Adopt(0, Lock(1, First), Some(First)), t);
    var before := events;
    n := |events|;
    var precommit := Handle(0, Hears(Some(Message(2, 0, First, None, true))));
    var vote := Vote(0, 0, PrecommitVote, ForValue(First, 2));
    var u := System(s.replicas[0 := State(0, Commit, Some(Lock(0, First)), Some(First), Some(2))], s.log + [vote], s.decided);
    events := Extend(events, t, precommit, u);
    assert events[..n] == before;
  }
}
