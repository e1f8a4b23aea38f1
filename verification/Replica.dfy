/** The state one NestBFT replica keeps for a height, and what each phase does to it. */
module Replica {
  import opened Options

  datatype Phase =
    | Election | ElectionVote | Propose | ProposeVote | Precommit
    | PrecommitVote | Commit | CommitProcess | RoundInterrupt | Pacemaker
  {
    function Rank(): (rank: nat)
      ensures 1 <= rank <= 10
    {
      match this
      case Election => 1
      case ElectionVote => 2
      case Propose => 3
      case ProposeVote => 4
      case Precommit => 5
      case PrecommitVote => 6
      case Commit => 7
      case CommitProcess => 8
      case RoundInterrupt => 9
      case Pacemaker => 10
    }

    /** SetTimerForNextPhase: the phase handled next; a replica waits in CommitProcess for a new block. */
    function Next(): (next: Phase)
    {
      match this
      case Election => ElectionVote
      case ElectionVote => Propose
      case Propose => ProposeVote
      case ProposeVote => Precommit
      case Precommit => PrecommitVote
      case PrecommitVote => Commit
      case Commit => CommitProcess
      case CommitProcess => CommitProcess
      case RoundInterrupt => Pacemaker
      case Pacemaker => Election
    }
  }

  /** The hashes of a block and of its certificate results. Hashes are taken to be injective. */
  datatype Value = Value(block: nat, results: nat)

  /** A PROPOSE-VOTE quorum certificate: what a replica locks on and what justifies an unlock. */
  datatype Lock = Lock(round: nat, value: Value)

  /** What a vote signs besides its view: the leader it elects, or the value and its leader. */
  datatype Payload = ForLeader(leader: nat) | ForValue(value: Value, leader: nat)

  datatype Vote = Vote(signer: nat, round: nat, phase: Phase, payload: Payload)

  /**
   * A stored leader message: its sender, the value and round of its certificate, the HighQC attached
   * to a proposal, and whether build height and block pass the application's checks.
   */
  datatype Message = Message(sender: nat, qcRound: nat, value: Value, highQC: Option<Lock>, acceptable: bool)

  /** What a phase reads from outside: stored messages, tallies, and the application's answers. */
  datatype Input = Input(
    leader: nat,                // the leader elected from the candidates
    majority: bool,             // whether the votes of the previous phase hold a majority
    produced: Option<Value>,    // what the application builds when asked for a block
    message: Option<Message>,   // the stored message of the previous phase
    peerRound: nat)             // the round at least one third of the peers have reached

  datatype State = State(
    round: nat,
    phase: Phase,
    highQC: Option<Lock>,
    proposal: Option<Value>,
    proposer: Option<nat>)

  /** What a phase makes visible to others. */
  datatype Effect = Silent | Send(vote: Vote) | Decide(value: Value)

  const Start := State(0, Election, None, None, None)

  /**
   * The safe-node rule as it is written: a proposal is refused as unjustified only when BOTH of its
   * hashes differ from those of its HighQC.
   */
  predicate SafeNode(lock: Lock, msg: Message)
  {
    && msg.highQC.Some?
    && var high := msg.highQC.value;
       && !(msg.value.block != high.value.block && msg.value.results != high.value.results)
       && (lock.value == high.value || high.round > lock.round)
  }

  /** The safe-node rule as it is documented: a proposal has the same hashes as its HighQC. */
  predicate StrictSafeNode(lock: Lock, msg: Message)
  {
    SafeNode(lock, msg) && msg.value == msg.highQC.value.value
  }

  /** CheckProposerAndProposal. */
  predicate Matches(s: State, msg: Message)
  {
    s.proposer == Some(msg.sender) && s.proposal == Some(msg.value)
  }

  function Interrupt(s: State): (t: State)
  {
    s.(phase := RoundInterrupt)
  }

  function StartPropose(s: State, input: Input): (t: State)
  {
    if !input.majority then s
    else s.(proposal := if s.highQC.Some? then Some(s.highQC.value.value) else input.produced)
  }

  function StartProposeVote(self: nat, s: State, input: Input): (r: (State, Effect))
  {
    if input.message.None? then (Interrupt(s), Silent)
    else
      var msg := input.message.value;
      var led := s.(proposer := Some(msg.sender));
      if s.highQC.Some? && !SafeNode(s.highQC.value, msg) then (Interrupt(led), Silent)
      else if !msg.acceptable then (Interrupt(led), Silent)
      else (led.(proposal := Some(msg.value)), Send(Vote(self, s.round, ProposeVote, ForValue(msg.value, msg.sender))))
  }

  /** StartPrecommitPhase and StartCommitPhase: only the leader acts, and only on a majority. */
  function StartLeaderPhase(self: nat, s: State, input: Input): (t: State)
  {
    if s.proposer == Some(self) && !input.majority then Interrupt(s) else s
  }

  function StartPrecommitVote(self: nat, s: State, input: Input): (r: (State, Effect))
  {
    if input.message.None? || !Matches(s, input.message.value) then (Interrupt(s), Silent)
    else
      var msg := input.message.value;
      (s.(highQC := Some(Lock(msg.qcRound, msg.value))),
       Send(Vote(self, s.round, PrecommitVote, ForValue(msg.value, msg.sender))))
  }

  function StartCommitProcess(s: State, input: Input): (r: (State, Effect))
  {
    if input.message.None? || !Matches(s, input.message.value) then (Interrupt(s), Silent)
    else (s, Decide(input.message.value.value))
  }

  function StartPacemaker(s: State, input: Input): (t: State)
  {
    s.(round := if input.peerRound > s.round + 1 then input.peerRound else s.round + 1,
       proposal := None, proposer := None)
  }

  /** The action of the current phase, before the timer moves the phase on. */
  function Act(self: nat, s: State, input: Input): (r: (State, Effect))
  {
    match s.phase
    case Election => (s, Silent)
    case ElectionVote =>
      (s.(proposer := None), Send(Vote(self, s.round, ElectionVote, ForLeader(input.leader))))
    case Propose => (StartPropose(s, input), Silent)
    case ProposeVote => StartProposeVote(self, s, input)
    case Precommit => (StartLeaderPhase(self, s, input), Silent)
    case PrecommitVote => StartPrecommitVote(self, s, input)
    case Commit => (StartLeaderPhase(self, s, input), Silent)
    case CommitProcess => StartCommitProcess(s, input)
    case RoundInterrupt => (s, Silent)
    case Pacemaker => (StartPacemaker(s, input), Silent)
  }

  /** HandlePhase: act, then let the timer move the phase on. */
  function HandlePhase(self: nat, s: State, input: Input): (r: (State, Effect))
  {
    var (t, effect) := Act(self, s, input);
    (t.(phase := t.phase.Next()), effect)
  }

  /** An ELECTION-VOTE that carries a HighQC above the known one replaces it and the stored proposal. */
  function AdoptHighQC(s: State, lock: Lock, attached: Option<Value>): (t: State)
  {
    if s.highQC.None? || s.highQC.value.round < lock.round
    then s.(highQC := Some(lock), proposal := attached)
    else s
  }

  /** The lexicographic order in which a replica moves through (round, phase). */
  predicate Before(round: nat, phase: Phase, round': nat, phase': Phase)
  {
    round < round' || (round == round' && phase.Rank() < phase'.Rank())
  }

  /** Every handled phase moves the view strictly forward, except waiting in CommitProcess. */
  lemma ViewAdvances(self: nat, s: State, input: Input)
    ensures var (t, effect) := HandlePhase(self, s, input);
            && (Before(s.round, s.phase, t.round, t.phase) <==> !(s.phase == CommitProcess && effect.Decide?))
            && (!Before(s.round, s.phase, t.round, t.phase) ==> t == s)
            && (effect.Send? ==> effect.vote.signer == self && effect.vote.round == s.round && effect.vote.phase == s.phase)
  {
  }

  /**
   * The written rule agrees with the documented one for every lock exactly when the proposal differs
   * from its HighQC in both hashes or in neither.
   */
  lemma SafeNodeMeetsItsRule(msg: Message)
    requires msg.highQC.Some?
    ensures (forall lock :: SafeNode(lock, msg) == StrictSafeNode(lock, msg))
            <==> ((msg.value.block == msg.highQC.value.value.block) <==> (msg.value.results == msg.highQC.value.value.results))
    ensures var high := msg.highQC.value;
            forall lock :: SafeNode(lock, msg) <==>
              && (msg.value.block == high.value.block || msg.value.results == high.value.results)
              && (lock.value == high.value || lock.round < high.round)
  {
    var high := msg.highQC.value;
    if (msg.value.block == high.value.block) != (msg.value.results == high.value.results) {
      assert SafeNode(high, msg) && !StrictSafeNode(high, msg);
    }
  }

  /** One step lowers the round of a lock exactly when it precommits below that round. */
  lemma LockRoundFalls(self: nat, s: State, input: Input)
    requires s.highQC.Some?
    requires input.message.Some? && s.phase == PrecommitVote ==> input.message.value.qcRound == s.round
    ensures var t := HandlePhase(self, s, input).0;
            && t.highQC.Some?
            && (t.highQC.value.round < s.highQC.value.round
                <==> (&& s.phase == PrecommitVote && input.message.Some?
                      && Matches(s, input.message.value) && s.highQC.value.round > s.round))
  {
  }

  /** Adoption never lowers the lock's round. */
  lemma AdoptionRaisesLock(s: State, lock: Lock, attached: Option<Value>)
    ensures var t := AdoptHighQC(s, lock, attached);
            && t.highQC.Some? && t.highQC.value.round >= lock.round
            && (s.highQC.Some? ==> t.highQC.value.round >= s.highQC.value.round)
            && (t.highQC != s.highQC ==> t.highQC == Some(lock))
            && t.round == s.round && t.phase == s.phase
  {
  }

  /** The lock changes only together with a PRECOMMIT vote, and is then for exactly the voted value. */
  lemma LockFollowsPrecommit(self: nat, s: State, input: Input)
    ensures var (t, effect) := HandlePhase(self, s, input);
            && (effect.Send? && s.phase == PrecommitVote ==>
                  && effect.vote.payload.ForValue? && input.message.Some?
                  && t.highQC == Some(Lock(input.message.value.qcRound, effect.vote.payload.value)))
            && (!(effect.Send? && s.phase == PrecommitVote) ==> t.highQC == s.highQC)
  {
  }

  /** A value is voted for only as the stored proposal of the stored proposer, and decided only as that. */
  lemma VotesAreForTheProposal(self: nat, s: State, input: Input)
    ensures var (t, effect) := HandlePhase(self, s, input);
            && (effect.Send? && effect.vote.payload.ForValue? ==>
                  t.proposal == Some(effect.vote.payload.value) && t.proposer == Some(effect.vote.payload.leader))
            && (effect.Send? && s.phase == PrecommitVote ==> t.proposal == s.proposal && t.proposer == s.proposer)
            && (effect.Decide? ==> s.proposal == Some(effect.value) && s.proposer.Some?)
  {
  }

  /**
   * A locked replica votes if and only if the proposal is acceptable and comes with a HighQC that shares a
   * hash with it and is for the locked value or of a later round.
   */
  lemma LockedVoteIsSafe(self: nat, s: State, input: Input)
    requires s.phase == ProposeVote && s.highQC.Some?
    ensures HandlePhase(self, s, input).1.Send? <==>
              && input.message.Some? && input.message.value.acceptable && input.message.value.highQC.Some?
              && var lock, msg, high := s.highQC.value, input.message.value, input.message.value.highQC.value;
                 && (lock.value == high.value || high.round > lock.round)
                 && (msg.value.block == high.value.block || msg.value.results == high.value.results)
  {
  }

  /** A voting phase that sends nothing ends the round: the pacemaker is next, and lock and round are untouched. */
  lemma SilenceEndsTheRound(self: nat, s: State, input: Input)
    requires s.phase == ProposeVote || s.phase == PrecommitVote || s.phase == CommitProcess
    ensures var (t, effect) := HandlePhase(self, s, input);
            && (effect == Silent <==> t.phase == Phase.Pacemaker)
            && (effect == Silent ==> t.highQC == s.highQC && t.round == s.round)
            && (effect != Silent && s.phase == ProposeVote ==> t.phase == Precommit)
            && (effect != Silent && s.phase == PrecommitVote ==> t.phase == Commit)
  {
  }

  /** A leader with a lock proposes the value of its lock again; only a leader without one proposes something new. */
  lemma LockedLeaderReproposes(self: nat, s: State, input: Input)
    requires s.phase == Propose
    ensures var t := HandlePhase(self, s, input).0;
            && (t.proposal != s.proposal ==> input.majority)
            && (input.majority && s.highQC.Some? ==> t.proposal == Some(s.highQC.value.value))
            && (input.majority && s.highQC.None? ==> t.proposal == input.produced)
            && t == s.(phase := ProposeVote, proposal := t.proposal)
  {
  }

  /**
   * VOTES WHEN SAFE: in PROPOSE-VOTE a replica votes, for exactly the message's value and leader, if and only
   * if it has an acceptable message and is not locked, or the message's HighQC does not differ from the
   * proposal in both hashes and is for the locked value (safety) or of a later round (liveness).
   */
  lemma VotesExactlyWhenSafe(self: nat, s: State, input: Input)
    requires s.phase == ProposeVote
    ensures var safe :=
              && input.message.Some? && input.message.value.acceptable
              && (s.highQC.Some? ==>
                    && input.message.value.highQC.Some?
                    && var msg, high, lock := input.message.value, input.message.value.highQC.value, s.highQC.value;
                       && (msg.value.block == high.value.block || msg.value.results == high.value.results)
                       && (high.value == lock.value || lock.round < high.round));
            HandlePhase(self, s, input).1
            == if safe then Send(Vote(self, s.round, ProposeVote, ForValue(input.message.value.value, input.message.value.sender)))
               else Silent
  {
  }

  /** A replica precommits, or decides, if and only if the message is its proposer's and for its proposal. */
  lemma VotesExactlyForItsProposal(self: nat, s: State, input: Input)
    requires s.phase == PrecommitVote || s.phase == CommitProcess
    ensures var effect := HandlePhase(self, s, input).1;
            var mine := input.message.Some? && s.proposer == Some(input.message.value.sender) && s.proposal == Some(input.message.value.value);
            && (s.phase == PrecommitVote ==>
                  effect == if mine then Send(Vote(self, s.round, PrecommitVote, ForValue(input.message.value.value, input.message.value.sender)))
                            else Silent)
            && (s.phase == CommitProcess ==> effect == if mine then Decide(input.message.value.value) else Silent)
  {
  }

  /** In PRECOMMIT and COMMIT only the proposer can end the round, and does exactly without a majority. */
  lemma LeaderNeedsMajority(self: nat, s: State, input: Input)
    requires s.phase == Precommit || s.phase == Commit
    ensures var (t, effect) := HandlePhase(self, s, input);
            && effect == Silent
            && t == s.(phase := if s.proposer == Some(self) && !input.majority then Phase.Pacemaker
                                else if s.phase == Precommit then PrecommitVote else CommitProcess)
  {
  }

  /** The election phases vote for the elected leader, and the pacemaker starts the next round afresh. */
  lemma RoundsStartAfresh(self: nat, s: State, input: Input)
    requires s.phase == ElectionVote || s.phase == Phase.Pacemaker
    ensures var (t, effect) := HandlePhase(self, s, input);
            && (s.phase == ElectionVote ==>
                  effect == Send(Vote(self, s.round, ElectionVote, ForLeader(input.leader))) && t.phase == Propose && t.round == s.round)
            && (s.phase == Phase.Pacemaker ==>
                  && effect == Silent && t.phase == Election && t.proposal == None
                  && t.round > s.round && t.round >= input.peerRound && (t.round == s.round + 1 || t.round == input.peerRound))
            && t.proposer == None && t.highQC == s.highQC
  {
  }

  /** A certificate is adopted, with what is attached, if and only if it is the first or of a later round. */
  lemma AdoptsExactlyLater(s: State, lock: Lock, attached: Option<Value>)
    ensures var t := AdoptHighQC(s, lock, attached);
            && (s.highQC.None? || s.highQC.value.round < lock.round ==> t == s.(highQC := Some(lock), proposal := attached))
            && (s.highQC.Some? && lock.round <= s.highQC.value.round ==> t == s)
  {
  }
}
