/** The consensus object of a node: phase handlers that update its fields in place. */
module BftNode {
  import opened Options
  import opened Replica
  import PeerRounds

  class BFT {
    const self: nat            // own index in the validator set
    const powers: seq<nat>     // the validator set of this root height
    var round: nat
    var phase: Phase
    var highQC: Option<Lock>
    var proposal: Option<Value>
    var proposer: Option<nat>
    var reports: map<nat, nat> // PacemakerMessages: the latest round each validator reported

    ghost function View(): (s: State)
      reads this
    {
      State(round, phase, highQC, proposal, proposer)
    }

    constructor (self: nat, powers: seq<nat>)
      ensures this.self == self && this.powers == powers && View() == Start && reports == map[]
    {
      this.self, this.powers := self, powers;
      round, phase, highQC, proposal, proposer := 0, Election, None, None, None;
      reports := map[];
    }

    method AddPacemakerMessage(validator: nat, at: nat)
      modifies this`reports
      ensures reports == old(reports)[validator := at]
    {
      reports := reports[validator := at];
    }

    method RoundInterrupt()
      modifies this`phase
      ensures View() == Interrupt(old(View()))
    {
      phase := Phase.RoundInterrupt;
    }

    method StartElectionVotePhase(leader: nat) returns (vote: Vote)
      modifies this`proposer
      ensures View() == old(View()).(proposer := None)
      ensures vote == Vote(self, round, ElectionVote, ForLeader(leader))
    {
      proposer := Some(leader);
      vote := Vote(self, round, ElectionVote, ForLeader(proposer.value));
      proposer := None;
    }

    method StartProposePhase(input: Input)
      modifies this`proposal
      ensures View() == StartPropose(old(View()), input)
    {
      if !input.majority {
        return;
      }
      if highQC.None? {
        proposal := input.produced;
      } else {
        proposal := Some(highQC.value.value);
      }
    }

    method StartProposeVotePhase(input: Input) returns (effect: Effect)
      modifies this`phase, this`proposal, this`proposer
      ensures (View(), effect) == StartProposeVote(self, old(View()), input)
    {
      effect := Silent;
      if input.message.None? {
        RoundInterrupt();
        return;
      }
      var msg := input.message.value;
      proposer := Some(msg.sender);
      if highQC.Some? {
        if !SafeNode(highQC.value, msg) {
          RoundInterrupt();
          return;
        }
      }
      if !msg.acceptable {
        RoundInterrupt();
        return;
      }
      proposal := Some(msg.value);
      effect := Send(Vote(self, round, ProposeVote, ForValue(proposal.value, proposer.value)));
    }

    /** StartPrecommitPhase and StartCommitPhase. */
    method StartLeaderPhase(input: Input)
      modifies this`phase
      ensures View() == Replica.StartLeaderPhase(self, old(View()), input)
    {
      if proposer != Some(self) {
        return;
      }
      if !input.majority {
        RoundInterrupt();
      }
    }

    method CheckProposerAndProposal(msg: Message) returns (interrupt: bool)
      ensures interrupt <==> !Matches(View(), msg)
    {
      if proposer != Some(msg.sender) {
        return true;
      }
      if proposal != Some(msg.value) {
        return true;
      }
      return false;
    }

    method StartPrecommitVotePhase(input: Input) returns (effect: Effect)
      modifies this`phase, this`highQC
      ensures (View(), effect) == StartPrecommitVote(self, old(View()), input)
    {
      effect := Silent;
      if input.message.None? {
        RoundInterrupt();
        return;
      }
      var msg := input.message.value;
      var interrupt := CheckProposerAndProposal(msg);
      if interrupt {
        RoundInterrupt();
        return;
      }
      highQC := Some(Lock(msg.qcRound, msg.value));
      effect := Send(Vote(self, round, PrecommitVote, ForValue(proposal.value, proposer.value)));
    }

    method StartCommitProcessPhase(input: Input) returns (effect: Effect)
      modifies this`phase
      ensures (View(), effect) == StartCommitProcess(old(View()), input)
    {
      effect := Silent;
      if input.message.None? {
        RoundInterrupt();
        return;
      }
      var interrupt := CheckProposerAndProposal(input.message.value);
      if interrupt {
        RoundInterrupt();
        return;
      }
      effect := Decide(proposal.value);
    }

    method NewRound(newHeight: bool)
      modifies this`round, this`proposal, this`proposer
      ensures View() == old(View()).(round := if newHeight then 0 else old(round) + 1, proposal := None, proposer := None)
    {
      if newHeight {
        round := 0;
      } else {
        round := round + 1;
      }
      proposer := None;
      proposal := None;
    }

    /** The reported round a third of the power has reached decides how far the round jumps. */
    method Pacemaker() returns (ghost peer: nat)
      modifies this`round, this`proposal, this`proposer
      ensures PeerRounds.IsPeerRound(powers, reports, peer)
      ensures round == (if peer > old(round) + 1 then peer else old(round) + 1) && round > old(round)
      ensures View() == old(View()).(round := round, proposal := None, proposer := None)
    {
      NewRound(false);
      var pacemakerRound := PeerRounds.TallyPeerRound(powers, reports);
      peer := pacemakerRound;
      if pacemakerRound > round {
        round := pacemakerRound;
      }
    }

    /** Resets for a new height, or for a new committee of the same height, which keeps the lock. */
    method NewHeight(keepLocks: bool)
      modifies this
      ensures View() == Start.(highQC := if keepLocks then old(highQC) else None)
      ensures reports == map[]
    {
      reports := map[];
      NewRound(true);
      phase := Election;
      if !keepLocks {
        highQC := None;
      }
    }

    method SetTimerForNextPhase()
      modifies this`phase
      ensures View() == old(View()).(phase := old(phase).Next())
    {
      phase := phase.Next();
    }

    /** The phase stepping loop's body refines Replica.HandlePhase. */
    method HandlePhase(input: Input) returns (effect: Effect, ghost peer: nat)
      modifies this
      ensures PeerRounds.IsPeerRound(powers, old(reports), peer) || old(phase) != Phase.Pacemaker
      ensures (View(), effect) == Replica.HandlePhase(self, old(View()), input.(peerRound := peer))
      ensures reports == old(reports)
    {
      effect, peer := Silent, 0;
      match phase {
        case Election =>
        case ElectionVote =>
          var vote := StartElectionVotePhase(input.leader);
          effect := Send(vote);
        case Propose => StartProposePhase(input);
        case ProposeVote => effect := StartProposeVotePhase(input);
        case Precommit => StartLeaderPhase(input);
        case PrecommitVote => effect := StartPrecommitVotePhase(input);
        case Commit => StartLeaderPhase(input);
        case CommitProcess => effect := StartCommitProcessPhase(input);
        case RoundInterrupt =>
        case Pacemaker => peer := Pacemaker();
      }
      SetTimerForNextPhase();
    }

    /** The high-QC part of adding an ELECTION-VOTE; `lock` has already been verified. */
    method HandleHighQC(lock: Lock, attached: Option<Value>)
      modifies this`highQC, this`proposal
      ensures View() == AdoptHighQC(old(View()), lock, attached)
    {
      if highQC.None? || highQC.value.round < lock.round {
        highQC := Some(lock);
        proposal := attached;
      }
    }
  }
}
