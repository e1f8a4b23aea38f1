/**
 * Runs of NestBFT at one height and one root height: correct replicas take the steps of module
 * Replica, faulty validators sign anything at any time, and every signed vote is kept in a log.
 */
module Consensus {
  import opened Quorum
  import opened Options
  import opened Replica

  datatype Committee = Committee(powers: seq<nat>, faulty: set<nat>)
  {
    predicate Valid()
    {
      3 * Power(powers, faulty) < TotalPower(powers)
    }

    predicate Honest(i: nat)
    {
      i < |powers| && i !in faulty
    }
  }

  datatype System = System(replicas: seq<State>, log: seq<Vote>, decided: seq<Value>)

  datatype Event =
    | Forge(vote: Vote)                                         // a faulty validator signs a vote
    | Handle(replica: nat, input: Input)                        // a phase timer fires
    | Adopt(replica: nat, lock: Lock, attached: Option<Value>)  // an ELECTION-VOTE with a HighQC arrives

  function Init(c: Committee): (s: System)
  {
    System(seq(|c.powers|, _ => Start), [], [])
  }

  /** The validators that signed this value in this view. */
  function Signers(log: seq<Vote>, round: nat, phase: Phase, value: Value): (signers: set<nat>)
  {
    set k | 0 <= k < |log| && IsFor(log[k], round, phase, value) :: log[k].signer
  }

  predicate IsFor(vote: Vote, round: nat, phase: Phase, value: Value)
  {
    vote.round == round && vote.phase == phase && vote.payload.ForValue? && vote.payload.value == value
  }

  /** A quorum certificate: the signatures in the log reach the two-thirds majority. */
  predicate Certified(c: Committee, log: seq<Vote>, round: nat, phase: Phase, value: Value)
  {
    Power(c.powers, Signers(log, round, phase, value)) >= MinimumMaj23(c.powers)
  }

  predicate Locked(c: Committee, log: seq<Vote>, lock: Lock)
  {
    Certified(c, log, lock.round, ProposeVote, lock.value)
  }

  /** The stored leader message is backed by a certificate of the previous phase of the same round. */
  predicate Backed(c: Committee, log: seq<Vote>, s: State, msg: Message)
  {
    match s.phase
    case ProposeVote => s.highQC.Some? && msg.highQC.Some? ==> Locked(c, log, msg.highQC.value)
    case PrecommitVote => msg.qcRound == s.round && Certified(c, log, s.round, ProposeVote, msg.value)
    case CommitProcess => msg.qcRound == s.round && Certified(c, log, s.round, PrecommitVote, msg.value)
    case _ => true
  }

  predicate Enabled(c: Committee, s: System, e: Event)
    requires |s.replicas| == |c.powers|
  {
    match e
    case Forge(vote) => vote.signer in c.faulty
    case Handle(i, input) =>
      c.Honest(i) && (input.message.Some? ==> Backed(c, s.log, s.replicas[i], input.message.value))
    case Adopt(i, lock, _) => c.Honest(i) && Locked(c, s.log, lock)
  }

  /** The proposal a locked replica is asked to vote for carries both hashes of its HighQC, or neither. */
  predicate Justified(c: Committee, s: System, e: Event)
    requires |s.replicas| == |c.powers|
  {
    e.Handle? && c.Honest(e.replica) && s.replicas[e.replica].phase == ProposeVote && e.input.message.Some?
      && s.replicas[e.replica].highQC.Some? && e.input.message.value.highQC.Some?
    ==> (var value, high := e.input.message.value.value, e.input.message.value.highQC.value.value;
         value.block == high.block <==> value.results == high.results)
  }

  function Apply(c: Committee, s: System, e: Event): (t: System)
    requires |s.replicas| == |c.powers| && Enabled(c, s, e)
    ensures |t.replicas| == |c.powers|
  {
    match e
    case Forge(vote) => s.(log := s.log + [vote])
    case Handle(i, input) =>
      var (r, effect) := HandlePhase(i, s.replicas[i], input);
      var moved := s.(replicas := s.replicas[i := r]);
      (match effect
       case Silent => moved
       case Send(vote) => moved.(log := s.log + [vote])
       case Decide(value) => moved.(decided := s.decided + [value]))
    case Adopt(i, lock, attached) =>
      s.(replicas := s.replicas[i := AdoptHighQC(s.replicas[i], lock, attached)])
  }

  /** A run: every event is enabled where it happens. `Exec` is the state it ends in. */
  ghost predicate IsRun(c: Committee, events: seq<Event>)
    decreases |events|, 0
  {
    events == [] ||
    (var init := events[..|events| - 1];
     IsRun(c, init) && Enabled(c, Exec(c, init), events[|events| - 1]))
  }

  ghost function Exec(c: Committee, events: seq<Event>): (s: System)
    requires IsRun(c, events)
    ensures |s.replicas| == |c.powers|
    decreases |events|, 1
  {
    if events == [] then Init(c)
    else Apply(c, Exec(c, events[..|events| - 1]), events[|events| - 1])
  }

  /** Every proposal shown to a locked replica in the run matches its HighQC in both hashes or in neither. */
  ghost predicate JustifiedRun(c: Committee, events: seq<Event>)
    requires IsRun(c, events)
  {
    events == [] ||
    (var init := events[..|events| - 1];
     JustifiedRun(c, init) && Justified(c, Exec(c, init), events[|events| - 1]))
  }

  // ---------------------------------------------------------------- certificates over a growing log

  lemma SignersGrow(log: seq<Vote>, more: seq<Vote>, round: nat, phase: Phase, value: Value)
    ensures Signers(log, round, phase, value) <= Signers(log + more, round, phase, value)
  {
    forall i | i in Signers(log, round, phase, value)
      ensures i in Signers(log + more, round, phase, value)
    {
      var k :| 0 <= k < |log| && IsFor(log[k], round, phase, value) && log[k].signer == i;
      assert (log + more)[k] == log[k];
    }
  }

  lemma CertificatesPersist(c: Committee, log: seq<Vote>, more: seq<Vote>, round: nat, phase: Phase, value: Value)
    requires Certified(c, log, round, phase, value)
    ensures Certified(c, log + more, round, phase, value)
  {
    SignersGrow(log, more, round, phase, value);
    PowerMonotone(c.powers, Signers(log, round, phase, value), Signers(log + more, round, phase, value));
  }

  // ---------------------------------------------------------------- the invariant

  /** A correct replica's votes are all behind its view, and in strictly increasing view order. */
  ghost predicate VotesOrdered(c: Committee, s: System)
    requires |s.replicas| == |c.powers|
  {
    && (forall k :: 0 <= k < |s.log| && c.Honest(s.log[k].signer) ==>
          var r := s.replicas[s.log[k].signer];
          Before(s.log[k].round, s.log[k].phase, r.round, r.phase))
    && (forall j, k :: 0 <= j < k < |s.log| && s.log[j].signer == s.log[k].signer && c.Honest(s.log[k].signer) ==>
          Before(s.log[j].round, s.log[j].phase, s.log[k].round, s.log[k].phase))
  }

  predicate SameView(a: Vote, b: Vote)
  {
    a.signer == b.signer && a.round == b.round && a.phase == b.phase
  }

  predicate IsPrecommit(vote: Vote)
  {
    vote.phase == PrecommitVote && vote.payload.ForValue?
  }

  predicate IsProposeVote(vote: Vote)
  {
    vote.phase == ProposeVote && vote.payload.ForValue?
  }

  /** Locks are real, and never below a round in which their holder precommitted. */
  ghost predicate LocksHeld(c: Committee, s: System)
    requires |s.replicas| == |c.powers|
  {
    && (forall i: nat :: c.Honest(i) && s.replicas[i].highQC.Some? ==> Locked(c, s.log, s.replicas[i].highQC.value))
    && (forall k :: 0 <= k < |s.log| && IsPrecommit(s.log[k]) && c.Honest(s.log[k].signer) ==>
          && s.replicas[s.log[k].signer].highQC.Some?
          && s.replicas[s.log[k].signer].highQC.value.round >= s.log[k].round)
  }

  /** A correct precommit is preceded in the log by the propose-vote certificate of its round. */
  ghost predicate PrecommitsBacked(c: Committee, log: seq<Vote>)
  {
    forall k :: 0 <= k < |log| && IsPrecommit(log[k]) && c.Honest(log[k].signer) ==>
      Certified(c, log[..k], log[k].round, ProposeVote, log[k].payload.value)
  }

  /** Before the vote at `k` the log already certifies its value, in round `q`. */
  predicate Carried(c: Committee, log: seq<Vote>, k: nat, q: nat)
    requires k < |log| && IsProposeVote(log[k])
  {
    Certified(c, log[..k], q, ProposeVote, log[k].payload.value)
  }

  /**
   * The trace the safe-node rule leaves in the log: a replica that precommitted in round r and
   * propose-votes later does so for a value that some round q >= r had already certified.
   */
  ghost predicate UnlocksCarried(c: Committee, log: seq<Vote>)
  {
    forall j, k :: 0 <= j < k < |log| && log[j].signer == log[k].signer && c.Honest(log[k].signer)
                   && IsPrecommit(log[j]) && IsProposeVote(log[k]) ==>
      exists q: nat :: q >= log[j].round && Carried(c, log, k, q)
  }

  ghost predicate DecisionsBacked(c: Committee, s: System)
  {
    forall d :: 0 <= d < |s.decided| ==> Committed(c, s.log, s.decided[d])
  }

  ghost predicate Committed(c: Committee, log: seq<Vote>, value: Value)
  {
    exists round: nat :: Certified(c, log, round, PrecommitVote, value)
  }

  ghost predicate Inv(c: Committee, s: System)
  {
    && |s.replicas| == |c.powers|
    && VotesOrdered(c, s)
    && LocksHeld(c, s)
    && PrecommitsBacked(c, s.log)
    && UnlocksCarried(c, s.log)
    && DecisionsBacked(c, s)
  }

  // ---------------------------------------------------------------- each step keeps it

  /** The three log facts survive any new vote that satisfies them itself. */
  lemma LogExtends(c: Committee, log: seq<Vote>, vote: Vote)
    requires PrecommitsBacked(c, log) && UnlocksCarried(c, log)
    requires c.Honest(vote.signer) && IsPrecommit(vote) ==>
               Certified(c, log, vote.round, ProposeVote, vote.payload.value)
    requires c.Honest(vote.signer) && IsProposeVote(vote) ==>
               forall j :: 0 <= j < |log| && log[j].signer == vote.signer && IsPrecommit(log[j]) ==>
                 exists q: nat :: q >= log[j].round && Certified(c, log, q, ProposeVote, vote.payload.value)
    ensures PrecommitsBacked(c, log + [vote]) && UnlocksCarried(c, log + [vote])
  {
    var more := log + [vote];
    assert more[..|log|] == log;
    forall k | 0 <= k < |more| && IsPrecommit(more[k]) && c.Honest(more[k].signer)
      ensures Certified(c, more[..k], more[k].round, ProposeVote, more[k].payload.value)
    {
      if k < |log| {
        assert more[..k] == log[..k];
      }
    }
    forall j, k | 0 <= j < k < |more| && more[j].signer == more[k].signer && c.Honest(more[k].signer)
                  && IsPrecommit(more[j]) && IsProposeVote(more[k])
      ensures exists q: nat :: q >= more[j].round && Carried(c, more, k, q)
    {
      if k < |log| {
        assert more[..k] == log[..k];
        var q: nat :| q >= log[j].round && Carried(c, log, k, q);
        assert Carried(c, more, k, q);
      } else {
        var q: nat :| q >= log[j].round && Certified(c, log, q, ProposeVote, vote.payload.value);
        assert Carried(c, more, k, q);
      }
    }
  }

  lemma LocksAndDecisionsPersist(c: Committee, s: System, t: System, more: seq<Vote>)
    requires Inv(c, s) && |t.replicas| == |s.replicas| && t.log == s.log + more
    ensures forall lock :: Locked(c, s.log, lock) ==> Locked(c, t.log, lock)
    ensures forall value :: Committed(c, s.log, value) ==> Committed(c, t.log, value)
  {
    forall lock | Locked(c, s.log, lock) ensures Locked(c, t.log, lock) {
      CertificatesPersist(c, s.log, more, lock.round, ProposeVote, lock.value);
    }
    forall value | Committed(c, s.log, value) ensures Committed(c, t.log, value) {
      var round: nat :| Certified(c, s.log, round, PrecommitVote, value);
      CertificatesPersist(c, s.log, more, round, PrecommitVote, value);
    }
  }

  lemma ForgeKeepsInv(c: Committee, s: System, vote: Vote)
    requires Inv(c, s) && Enabled(c, s, Forge(vote))
    ensures Inv(c, Apply(c, s, Forge(vote)))
  {
    LogExtends(c, s.log, vote);
    LocksAndDecisionsPersist(c, s, Apply(c, s, Forge(vote)), [vote]);
  }

  lemma AdoptKeepsInv(c: Committee, s: System, e: Event)
    requires Inv(c, s) && e.Adopt? && Enabled(c, s, e)
    ensures Inv(c, Apply(c, s, e))
  {
    AdoptionRaisesLock(s.replicas[e.replica], e.lock, e.attached);
  }

  /** What makes a propose-vote safe: it follows the voter's lock or a certificate of a later round. */
  lemma ProposeVoteCarried(c: Committee, s: System, e: Event)
    requires Inv(c, s) && e.Handle? && Enabled(c, s, e) && Justified(c, s, e)
    requires s.replicas[e.replica].phase == ProposeVote
    requires HandlePhase(e.replica, s.replicas[e.replica], e.input).1.Send?
    ensures var vote := HandlePhase(e.replica, s.replicas[e.replica], e.input).1.vote;
            && IsProposeVote(vote)
            && forall j :: 0 <= j < |s.log| && s.log[j].signer == e.replica && IsPrecommit(s.log[j]) ==>
                 exists q: nat :: q >= s.log[j].round && Certified(c, s.log, q, ProposeVote, vote.payload.value)
  {
    var r := s.replicas[e.replica];
    var vote := HandlePhase(e.replica, r, e.input).1.vote;
    forall j | 0 <= j < |s.log| && s.log[j].signer == e.replica && IsPrecommit(s.log[j])
      ensures exists q: nat :: q >= s.log[j].round && Certified(c, s.log, q, ProposeVote, vote.payload.value)
    {
      var lock, msg := r.highQC.value, e.input.message.value;
      var q := if lock.value == msg.highQC.value.value then lock.round else msg.highQC.value.round;
      assert Certified(c, s.log, q, ProposeVote, vote.payload.value);
    }
  }

  lemma HandleKeepsInv(c: Committee, s: System, e: Event)
    requires Inv(c, s) && e.Handle? && Enabled(c, s, e) && Justified(c, s, e)
    ensures Inv(c, Apply(c, s, e))
  {
    var i, input, t := e.replica, e.input, Apply(c, s, e);
    var r := s.replicas[i];
    var (r', effect) := HandlePhase(i, r, input);
    ViewAdvances(i, r, input);
    var more := if effect.Send? then [effect.vote] else [];
    assert t.log == s.log + more;
    LocksAndDecisionsPersist(c, s, t, more);
    if effect.Send? {
      if r.phase == ProposeVote {
        ProposeVoteCarried(c, s, e);
      }
      LogExtends(c, s.log, effect.vote);
    }
    assert VotesOrdered(c, t) by {
      VotesStayOrdered(c, s, e);
    }
    assert LocksHeld(c, t) by {
      assert r'.highQC.Some? && r'.highQC != r.highQC ==> Locked(c, s.log, r'.highQC.value);
      LocksStayHeld(c, s, e);
    }
    if effect.Decide? {
      assert Certified(c, s.log, r.round, PrecommitVote, effect.value);
    }
  }

  lemma VotesStayOrdered(c: Committee, s: System, e: Event)
    requires |s.replicas| == |c.powers| && VotesOrdered(c, s) && Enabled(c, s, e)
    ensures VotesOrdered(c, Apply(c, s, e))
  {
    if e.Handle? {
      ViewAdvances(e.replica, s.replicas[e.replica], e.input);
    }
  }

  lemma LocksStayHeld(c: Committee, s: System, e: Event)
    requires Inv(c, s) && e.Handle? && Enabled(c, s, e)
    requires forall lock :: Locked(c, s.log, lock) ==> Locked(c, Apply(c, s, e).log, lock)
    ensures LocksHeld(c, Apply(c, s, e))
  {
    var i, t := e.replica, Apply(c, s, e);
    var r := s.replicas[i];
    ViewAdvances(i, r, e.input);
    forall k | 0 <= k < |t.log| && IsPrecommit(t.log[k]) && c.Honest(t.log[k].signer)
      ensures && t.replicas[t.log[k].signer].highQC.Some?
              && t.replicas[t.log[k].signer].highQC.value.round >= t.log[k].round
    {
      if k < |s.log| {
        assert t.log[k] == s.log[k];
      }
    }
  }

  /** The invariant holds in every state of every justified run. */
  lemma {:induction false} RunsKeepInv(c: Committee, events: seq<Event>)
    requires IsRun(c, events) && JustifiedRun(c, events)
    ensures Inv(c, Exec(c, events))
    decreases |events|
  {
    if events != [] {
      var init, e := events[..|events| - 1], events[|events| - 1];
      RunsKeepInv(c, init);
      match e
      case Forge(vote) => ForgeKeepsInv(c, Exec(c, init), vote);
      case Handle(_, _) => HandleKeepsInv(c, Exec(c, init), e);
      case Adopt(_, _, _) => AdoptKeepsInv(c, Exec(c, init), e);
    }
  }

  /** NO HONEST EQUIVOCATION: in every run a correct replica signs at most one payload per view. */
  lemma {:induction false} NoHonestEquivocation(c: Committee, events: seq<Event>)
    requires IsRun(c, events)
    ensures var s := Exec(c, events);
            && VotesOrdered(c, s)
            && forall j, k :: 0 <= j < |s.log| && 0 <= k < |s.log| && c.Honest(s.log[j].signer) && SameView(s.log[j], s.log[k])
                 ==> s.log[j].payload == s.log[k].payload
    decreases |events|
  {
    if events != [] {
      var init := events[..|events| - 1];
      NoHonestEquivocation(c, init);
      VotesStayOrdered(c, Exec(c, init), events[|events| - 1]);
    }
    var s := Exec(c, events);
    forall j, k | 0 <= j < |s.log| && 0 <= k < |s.log| && c.Honest(s.log[j].signer) && SameView(s.log[j], s.log[k])
      ensures s.log[j].payload == s.log[k].payload
    {
      assert j == k;
    }
  }

  // ---------------------------------------------------------------- agreement

  /** A certificate holds an honest signer's vote. */
  lemma SharedVoter(c: Committee, log: seq<Vote>, n: nat, r1: nat, p1: Phase, v1: Value, r2: nat, p2: Phase, v2: Value)
    returns (j: nat, k: nat)
    requires c.Valid() && n <= |log|
    requires Certified(c, log, r1, p1, v1) && Certified(c, log[..n], r2, p2, v2)
    ensures j < |log| && k < n && log[j].signer == log[k].signer && c.Honest(log[j].signer)
    ensures IsFor(log[j], r1, p1, v1) && IsFor(log[k], r2, p2, v2)
  {
    var i := HonestInIntersection(c.powers, c.faulty, Signers(log, r1, p1, v1), Signers(log[..n], r2, p2, v2));
    j :| 0 <= j < |log| && IsFor(log[j], r1, p1, v1) && log[j].signer == i;
    k :| 0 <= k < n && IsFor(log[k], r2, p2, v2) && log[k].signer == i;
  }

  /** One view certifies at most one value. */
  lemma OneValuePerView(c: Committee, s: System, round: nat, phase: Phase, v: Value, w: Value)
    requires c.Valid() && |s.replicas| == |c.powers| && VotesOrdered(c, s)
    requires Certified(c, s.log, round, phase, v) && Certified(c, s.log, round, phase, w)
    ensures v == w
  {
    assert s.log[..|s.log|] == s.log;
    var j, k := SharedVoter(c, s.log, |s.log|, round, phase, v, round, phase, w);
    assert j == k;
  }

  /**
   * Once a value has a commit certificate in round r, every propose-vote certificate of round r or
   * later is for that value. Induction on how much of the log the later certificate needs.
   */
  lemma {:induction false} CommitFixesValue(c: Committee, s: System, r: nat, v: Value, n: nat, q: nat, w: Value)
    requires c.Valid() && Inv(c, s) && n <= |s.log| && q >= r
    requires Certified(c, s.log, r, PrecommitVote, v)
    requires Certified(c, s.log[..n], q, ProposeVote, w)
    ensures w == v
    decreases n
  {
    var log := s.log;
    var j, k := SharedVoter(c, log, n, r, PrecommitVote, v, q, ProposeVote, w);
    if q == r {
      assert log == log[..j] + log[j..] && log == log[..n] + log[n..];
      CertificatesPersist(c, log[..j], log[j..], r, ProposeVote, v);
      CertificatesPersist(c, log[..n], log[n..], r, ProposeVote, w);
      OneValuePerView(c, s, r, ProposeVote, v, w);
    } else {
      assert j < k;
      var q': nat :| q' >= r && Carried(c, log, k, q');
      CommitFixesValue(c, s, r, v, k, q', w);
    }
  }

  /** A commit certificate rests on the propose-vote certificate of its own round. */
  lemma CommitNeedsProposeVotes(c: Committee, s: System, r: nat, v: Value)
    requires c.Valid() && Inv(c, s) && Certified(c, s.log, r, PrecommitVote, v)
    ensures Certified(c, s.log, r, ProposeVote, v)
  {
    assert s.log[..|s.log|] == s.log;
    var j, k := SharedVoter(c, s.log, |s.log|, r, PrecommitVote, v, r, PrecommitVote, v);
    assert s.log == s.log[..j] + s.log[j..];
    CertificatesPersist(c, s.log[..j], s.log[j..], r, ProposeVote, v);
  }

  lemma CommitsAgree(c: Committee, s: System, r: nat, v: Value, q: nat, w: Value)
    requires c.Valid() && Inv(c, s) && r <= q
    requires Certified(c, s.log, r, PrecommitVote, v) && Certified(c, s.log, q, PrecommitVote, w)
    ensures v == w
  {
    CommitNeedsProposeVotes(c, s, q, w);
    assert s.log[..|s.log|] == s.log;
    CommitFixesValue(c, s, r, v, |s.log|, q, w);
  }

  /** AGREEMENT: in every justified run no two commit certificates and no two decisions differ. */
  lemma Agreement(c: Committee, events: seq<Event>)
    requires c.Valid() && IsRun(c, events) && JustifiedRun(c, events)
    ensures var s := Exec(c, events);
            && (forall r: nat, q: nat, v, w :: Certified(c, s.log, r, PrecommitVote, v) && Certified(c, s.log, q, PrecommitVote, w) ==> v == w)
            && (forall r: nat, q: nat, v, w :: q >= r && Certified(c, s.log, r, PrecommitVote, v) && Certified(c, s.log, q, ProposeVote, w) ==> v == w)
            && (forall d, e :: 0 <= d < e < |s.decided| ==> s.decided[d] == s.decided[e])
  {
    var s := Exec(c, events);
    RunsKeepInv(c, events);
    forall r: nat, q: nat, v, w | Certified(c, s.log, r, PrecommitVote, v) && Certified(c, s.log, q, PrecommitVote, w)
      ensures v == w
    {
      if r <= q { CommitsAgree(c, s, r, v, q, w); } else { CommitsAgree(c, s, q, w, r, v); }
    }
    forall r: nat, q: nat, v, w | q >= r && Certified(c, s.log, r, PrecommitVote, v) && Certified(c, s.log, q, ProposeVote, w)
      ensures v == w
    {
      assert s.log[..|s.log|] == s.log;
      CommitFixesValue(c, s, r, v, |s.log|, q, w);
    }
    forall d, e | 0 <= d < e < |s.decided| ensures s.decided[d] == s.decided[e] {
      assert Committed(c, s.log, s.decided[d]) && Committed(c, s.log, s.decided[e]);
    }
  }
}
