/** What a correct replica has done by the time it decides. */
module Participation {
  import opened Quorum
  import opened Options
  import opened Replica
  import opened Consensus

  /** The replica has voted for a value in this view. */
  predicate HasVoted(log: seq<Vote>, i: nat, round: nat, phase: Phase)
  {
    exists k :: 0 <= k < |log| && IsOwn(log[k], i, round, phase)
  }

  predicate IsOwn(vote: Vote, i: nat, round: nat, phase: Phase)
  {
    vote.signer == i && vote.round == round && vote.phase == phase && vote.payload.ForValue?
  }

  /** The phases a replica only reaches by casting the votes before them. */
  ghost predicate Participates(c: Committee, s: System)
    requires |s.replicas| == |c.powers|
  {
    forall i: nat :: c.Honest(i) ==> Caught(s.log, i, s.replicas[i])
  }

  ghost predicate Caught(log: seq<Vote>, i: nat, r: State)
  {
    && (5 <= r.phase.Rank() <= 8 ==> HasVoted(log, i, r.round, ProposeVote))
    && (7 <= r.phase.Rank() <= 8 ==> HasVoted(log, i, r.round, PrecommitVote))
  }

  lemma VotesPersist(log: seq<Vote>, more: seq<Vote>, i: nat, round: nat, phase: Phase)
    requires HasVoted(log, i, round, phase)
    ensures HasVoted(log + more, i, round, phase)
  {
    var k :| 0 <= k < |log| && IsOwn(log[k], i, round, phase);
    assert (log + more)[k] == log[k];
  }

  lemma CaughtPersists(log: seq<Vote>, more: seq<Vote>, i: nat, r: State)
    requires Caught(log, i, r)
    ensures Caught(log + more, i, r)
  {
    if 5 <= r.phase.Rank() <= 8 {
      VotesPersist(log, more, i, r.round, ProposeVote);
    }
    if 7 <= r.phase.Rank() <= 8 {
      VotesPersist(log, more, i, r.round, PrecommitVote);
    }
  }

  /** One phase of the replica itself, with the vote it sends. */
  lemma PhaseKeepsCaught(log: seq<Vote>, i: nat, r: State, input: Input)
    requires Caught(log, i, r)
    ensures var (t, effect) := HandlePhase(i, r, input);
            Caught(log + if effect.Send? then [effect.vote] else [], i, t)
  {
    var (t, effect) := HandlePhase(i, r, input);
    if effect.Send? {
      assert (log + [effect.vote])[|log|] == effect.vote;
      CaughtPersists(log, [effect.vote], i, r);
    } else {
      assert log + [] == log;
    }
  }

  lemma StepKeepsParticipates(c: Committee, s: System, e: Event)
    requires |s.replicas| == |c.powers| && Enabled(c, s, e) && Participates(c, s)
    ensures Participates(c, Apply(c, s, e))
  {
    var t := Apply(c, s, e);
    forall i: nat | c.Honest(i) ensures Caught(t.log, i, t.replicas[i]) {
      assert Caught(s.log, i, s.replicas[i]);
      match e
      case Forge(vote) => CaughtPersists(s.log, [vote], i, s.replicas[i]);
      case Handle(j, input) =>
        if i == j {
          PhaseKeepsCaught(s.log, i, s.replicas[i], input);
          assert s.log + [] == s.log;
        } else {
          var effect := HandlePhase(j, s.replicas[j], input).1;
          if effect.Send? {
            CaughtPersists(s.log, [effect.vote], i, s.replicas[i]);
          }
        }
      case Adopt(_, _, _) =>
    }
  }

  lemma {:induction false} RunsParticipate(c: Committee, events: seq<Event>)
    requires IsRun(c, events)
    ensures Participates(c, Exec(c, events))
    decreases |events|
  {
    if events != [] {
      RunsParticipate(c, events[..|events| - 1]);
      StepKeepsParticipates(c, Exec(c, events[..|events| - 1]), events[|events| - 1]);
    }
  }

  /** The replica decides in this step. */
  predicate Decides(c: Committee, s: System, e: Event, v: Value)
    requires |s.replicas| == |c.powers| && Enabled(c, s, e)
  {
    e.Handle? && HandlePhase(e.replica, s.replicas[e.replica], e.input).1 == Decide(v)
  }

  /** DECIDERS VOTED: in every run a correct replica has cast both its votes of the round in which it decides. */
  lemma DecidersVoted(c: Committee, events: seq<Event>, e: Event, v: Value)
    requires IsRun(c, events) && Enabled(c, Exec(c, events), e) && Decides(c, Exec(c, events), e, v)
    ensures var s := Exec(c, events);
            var r := s.replicas[e.replica];
            HasVoted(s.log, e.replica, r.round, ProposeVote) && HasVoted(s.log, e.replica, r.round, PrecommitVote)
  {
    RunsParticipate(c, events);
    assert Caught(Exec(c, events).log, e.replica, Exec(c, events).replicas[e.replica]);
  }

  /** A correct replica's precommit in a round with a commit certificate is for the certified value. */
  lemma PrecommitMatchesCommit(c: Committee, s: System, k: nat, v: Value)
    requires c.Valid() && Inv(c, s) && k < |s.log| && IsPrecommit(s.log[k]) && c.Honest(s.log[k].signer)
    requires Certified(c, s.log, s.log[k].round, PrecommitVote, v)
    ensures s.log[k].payload.value == v
  {
    var round, w := s.log[k].round, s.log[k].payload.value;
    CommitNeedsProposeVotes(c, s, round, v);
    assert s.log == s.log[..k] + s.log[k..];
    CertificatesPersist(c, s.log[..k], s.log[k..], round, ProposeVote, w);
    OneValuePerView(c, s, round, ProposeVote, v, w);
  }

  /** And in a justified run it has precommitted exactly the value it decides, even if it adopted another lock since. */
  lemma DecidersPrecommitted(c: Committee, events: seq<Event>, e: Event, v: Value)
    requires c.Valid() && IsRun(c, events) && JustifiedRun(c, events)
    requires Enabled(c, Exec(c, events), e) && Decides(c, Exec(c, events), e, v)
    ensures var s := Exec(c, events);
            exists k :: 0 <= k < |s.log| && s.log[k].signer == e.replica
                        && IsFor(s.log[k], s.replicas[e.replica].round, PrecommitVote, v)
  {
    DecidersVoted(c, events, e, v);
    RunsKeepInv(c, events);
    DecisionIsPrecommitted(c, Exec(c, events), e, v);
  }

  lemma DecisionIsPrecommitted(c: Committee, s: System, e: Event, v: Value)
    requires c.Valid() && Inv(c, s) && Enabled(c, s, e) && Decides(c, s, e, v)
    requires HasVoted(s.log, e.replica, s.replicas[e.replica].round, PrecommitVote)
    ensures exists k :: 0 <= k < |s.log| && s.log[k].signer == e.replica
                        && IsFor(s.log[k], s.replicas[e.replica].round, PrecommitVote, v)
  {
    var k: nat :| k < |s.log| && IsOwn(s.log[k], e.replica, s.replicas[e.replica].round, PrecommitVote);
    PrecommitMatchesCommit(c, s, k, v);
    assert IsFor(s.log[k], s.replicas[e.replica].round, PrecommitVote, v);
  }
}
