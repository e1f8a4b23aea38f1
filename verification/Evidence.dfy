/** Double-sign evidence: which signers two conflicting certificates of one view give away. */
module Evidence {
  import opened Quorum
  import opened Options
  import opened Replica
  import Consensus

  datatype Header = Header(height: nat, rootHeight: nat, round: nat, phase: Phase)

  /** A (possibly partial) certificate; `wellSigned` is whether its aggregate signature verifies. */
  datatype Cert = Cert(header: Header, payload: Payload, signers: set<nat>, bare: bool, wellSigned: bool)

  /** A piece of evidence; a missing certificate or header is None. */
  datatype DoubleSign = DoubleSign(voteA: Option<Cert>, voteB: Option<Cert>)

  /** What the root chain answers: committees by root height, the oldest height that counts, open cases. */
  datatype Root = Root(committees: map<nat, seq<nat>>, minHeight: nat, punishable: set<(nat, nat)>)

  datatype DoubleSigner = DoubleSigner(id: nat, heights: seq<nat>)

  predicate CheckBasic(x: DoubleSign)
  {
    x.voteA.Some? && x.voteB.Some? && x.voteA.value.header == x.voteB.value.header
  }

  predicate Check(root: Root, x: DoubleSign)
    requires CheckBasic(x)
  {
    var a, b := x.voteA.value, x.voteB.value;
    && a.header.rootHeight >= root.minHeight
    && a.bare && b.bare
    && a.wellSigned && b.wellSigned
    && a.payload != b.payload
    && a.header.phase.Rank() > Propose.Rank()
  }

  predicate Accepted(root: Root, x: DoubleSign)
  {
    CheckBasic(x) && x.voteA.value.header.rootHeight in root.committees && Check(root, x)
  }

  /** Both certificates are there and their signatures verify. */
  predicate Verified(x: DoubleSign)
  {
    x.voteA.Some? && x.voteB.Some? && x.voteA.value.wellSigned && x.voteB.value.wellSigned
  }

  /** `x` gives away validator `id` at root height `h`. */
  predicate Names(root: Root, x: DoubleSign, h: nat, id: nat)
  {
    && CheckBasic(x) && x.voteA.value.header.rootHeight == h && h in root.committees
    && id in root.committees[h] && id in x.voteA.value.signers && id in x.voteB.value.signers
    && (h, id) in root.punishable
  }

  /** The list names validator `id` at height `h`. */
  ghost predicate Lists(results: seq<DoubleSigner>, h: nat, id: nat)
  {
    exists i :: 0 <= i < |results| && results[i].id == id && h in results[i].heights
  }

  ghost predicate OneEntryEach(results: seq<DoubleSigner>)
  {
    && (forall i, j :: 0 <= i < j < |results| ==> results[i].id != results[j].id)
    && (forall i, m, n :: 0 <= i < |results| && 0 <= m < n < |results[i].heights| ==> results[i].heights[m] != results[i].heights[n])
    && (forall i :: 0 <= i < |results| ==> results[i].heights != [])
  }

  /** Adds one (signer, height) pair to the list, merging with the signer's entry if there is one. */
  method AddDoubleSigner(results: seq<DoubleSigner>, h: nat, id: nat) returns (merged: seq<DoubleSigner>)
    requires OneEntryEach(results)
    ensures OneEntryEach(merged)
    ensures forall h': nat, id': nat :: Lists(merged, h', id') <==> Lists(results, h', id') || (h' == h && id' == id)
  {
    var i := 0;
    while i < |results| && results[i].id != id
      invariant 0 <= i <= |results|
      invariant forall j :: 0 <= j < i ==> results[j].id != id
    {
      i := i + 1;
    }
    if i < |results| {
      var entry := results[i];
      if h !in entry.heights {
        entry := entry.(heights := entry.heights + [h]);
      }
      merged := results[i := entry];
      MergedPairs(results, merged, i, h);
    } else {
      merged := results + [DoubleSigner(id, [h])];
      AppendedPairs(results, h, id);
    }
  }

  lemma MergedPairs(results: seq<DoubleSigner>, merged: seq<DoubleSigner>, i: nat, h: nat)
    requires i < |results| && OneEntryEach(results)
    requires merged == results[i := DoubleSigner(results[i].id, if h in results[i].heights then results[i].heights else results[i].heights + [h])]
    ensures forall h', id' :: Lists(merged, h', id') <==> Lists(results, h', id') || (h' == h && id' == results[i].id)
  {
    forall h', id' ensures Lists(merged, h', id') <==> Lists(results, h', id') || (h' == h && id' == results[i].id) {
      if Lists(results, h', id') {
        var j :| 0 <= j < |results| && results[j].id == id' && h' in results[j].heights;
        assert merged[j].id == id' && h' in merged[j].heights;
      }
      if h' == h && id' == results[i].id {
        assert merged[i].id == id' && h' in merged[i].heights;
      }
      if Lists(merged, h', id') {
        var j :| 0 <= j < |merged| && merged[j].id == id' && h' in merged[j].heights;
        assert j != i ==> results[j] == merged[j];
        assert j == i ==> h' in results[i].heights || h' == h;
      }
    }
  }

  lemma AppendedPairs(results: seq<DoubleSigner>, h: nat, id: nat)
    ensures forall h', id' :: Lists(results + [DoubleSigner(id, [h])], h', id') <==> Lists(results, h', id') || (h' == h && id' == id)
  {
    var merged := results + [DoubleSigner(id, [h])];
    assert merged[|results|].id == id && h in merged[|results|].heights;
    forall h', id' | Lists(results, h', id') ensures Lists(merged, h', id') {
      var j :| 0 <= j < |results| && results[j].id == id' && h' in results[j].heights;
      assert merged[j] == results[j];
    }
  }

  /** GetDoubleSigners: the committee members, in order, whose bit is set in both signatures. */
  method GetDoubleSigners(a: set<nat>, b: set<nat>, committee: seq<nat>) returns (both: seq<nat>)
    ensures forall id :: id in both <==> id in committee && id in a && id in b
  {
    both := [];
    for i := 0 to |committee|
      invariant forall id :: id in both <==> id in committee[..i] && id in a && id in b
    {
      assert committee[..i + 1] == committee[..i] + [committee[i]];
      if committee[i] in a {
        if committee[i] in b {
          both := both + [committee[i]];
        }
      }
    }
    assert committee[..|committee|] == committee;
  }

  /**
   * ACCEPTANCE: a piece is accepted exactly if both certificates are there, bear one header of a known
   * committee that is not too old, carry no block, verify their signatures, sign different payloads, and
   * are for a phase after PROPOSE.
   */
  lemma AcceptedMeans(root: Root, x: DoubleSign)
    ensures Accepted(root, x) <==>
      match x {
        case DoubleSign(Some(Cert(header, payloadA, _, bareA, signedA)), Some(Cert(headerB, payloadB, _, bareB, signedB))) =>
          && header == headerB && payloadA != payloadB
          && header.rootHeight in root.committees && root.minHeight <= header.rootHeight
          && bareA && bareB && signedA && signedB
          && header.phase !in {Election, ElectionVote, Propose}
        case _ => false
      }
  {
    if CheckBasic(x) {
      LatePhases(x.voteA.value.header.phase);
    }
  }

  lemma LatePhases(phase: Phase)
    ensures phase.Rank() > Propose.Rank() <==> phase !in {Election, ElectionVote, Propose}
  {
  }

  /**
   * A list names a validator at a height exactly if one of its pieces has two certificates of that root
   * height that both bear the validator's signature, it sits on the committee, and its case is open.
   */
  lemma NamedMeans(root: Root, dse: seq<DoubleSign>, h: nat, id: nat)
    ensures NamedBy(root, dse, h, id) <==>
      exists x <- dse ::
        match x {
          case DoubleSign(Some(a), Some(b)) =>
            && a.header == b.header && a.header.rootHeight == h && id in a.signers && id in b.signers
            && h in root.committees && id in root.committees[h] && (h, id) in root.punishable
          case _ => false
        }
  {
    if NamedBy(root, dse, h, id) {
      var k :| 0 <= k < |dse| && Names(root, dse[k], h, id);
      assert dse[k] in dse;
    }
    forall x | x in dse ensures Names(root, x, h, id) ==> NamedBy(root, dse, h, id) {
      var k :| 0 <= k < |dse| && dse[k] == x;
    }
  }

  /**
   * ProcessDSE: refuses the whole list if any piece is unacceptable, otherwise names exactly the open
   * (height, signer) pairs of all pieces, with one entry per signer.
   */
  method ProcessDSE(root: Root, dse: seq<DoubleSign>) returns (ok: bool, results: seq<DoubleSigner>)
    ensures ok <==> forall k :: 0 <= k < |dse| ==> Accepted(root, dse[k])
    ensures ok ==> forall k :: 0 <= k < |dse| ==> Verified(dse[k])
    ensures ok ==> OneEntryEach(results)
    ensures ok ==> forall h: nat, id: nat :: Lists(results, h, id) <==> exists k :: 0 <= k < |dse| && Names(root, dse[k], h, id)
  {
    ok, results := true, [];
    for k := 0 to |dse|
      invariant ok && OneEntryEach(results)
      invariant forall n :: 0 <= n < k ==> Accepted(root, dse[n]) && Verified(dse[n])
      invariant forall h: nat, id: nat :: Lists(results, h, id) <==> exists n :: 0 <= n < k && Names(root, dse[n], h, id)
    {
      var x := dse[k];
      if !CheckBasic(x) {
        return false, [];
      }
      var a, b := x.voteA.value, x.voteB.value;
      var height := a.header.rootHeight;
      if height !in root.committees {
        return false, [];
      }
      if !Check(root, x) {
        return false, [];
      }
      AcceptedMeans(root, x);
      var signers := GetDoubleSigners(a.signers, b.signers, root.committees[height]);
      ghost var before := results;
      for i := 0 to |signers|
        invariant OneEntryEach(results)
        invariant forall h: nat, id: nat :: Lists(results, h, id) <==>
          Lists(before, h, id) || (h == height && id in signers[..i] && (h, id) in root.punishable)
      {
        assert signers[..i + 1] == signers[..i] + [signers[i]];
        if (height, signers[i]) in root.punishable {
          results := AddDoubleSigner(results, height, signers[i]);
        }
      }
      assert signers[..|signers|] == signers;
      assert forall h: nat, id: nat :: Names(root, x, h, id) <==> h == height && id in signers && (h, id) in root.punishable;
    }
  }

  ghost predicate NamedBy(root: Root, dse: seq<DoubleSign>, h: nat, id: nat)
  {
    exists k :: 0 <= k < |dse| && Names(root, dse[k], h, id)
  }

  /** The evidence names the claimed signer, at every claimed height. */
  ghost predicate Supported(root: Root, dse: seq<DoubleSign>, claim: DoubleSigner)
  {
    && (exists h: nat :: NamedBy(root, dse, h, claim.id))
    && (forall h <- claim.heights :: NamedBy(root, dse, h, claim.id))
  }

  /** ValidateByzantineEvidence accepts a list of double signers exactly when the evidence supports all of it. */
  method ValidateByzantineEvidence(root: Root, claimed: seq<DoubleSigner>, dse: seq<DoubleSign>) returns (valid: bool)
    ensures valid <==>
      (claimed == [] || ((forall k :: 0 <= k < |dse| ==> Accepted(root, dse[k]))
                         && forall c :: 0 <= c < |claimed| ==> Supported(root, dse, claimed[c])))
    ensures valid && claimed != [] ==> forall k :: 0 <= k < |dse| ==> Verified(dse[k])
  {
    if claimed == [] {
      return true;
    }
    var ok, named := ProcessDSE(root, dse);
    if !ok {
      return false;
    }
    assert forall h: nat, id: nat :: Lists(named, h, id) <==> NamedBy(root, dse, h, id);
    for c := 0 to |claimed|
      invariant forall d :: 0 <= d < c ==> Supported(root, dse, claimed[d])
    {
      var found := exists i | 0 <= i < |named| ::
        named[i].id == claimed[c].id && forall h <- claimed[c].heights :: h in named[i].heights;
      FoundIsSupported(root, dse, named, claimed[c]);
      if !found {
        return false;
      }
    }
    return true;
  }

  lemma FoundIsSupported(root: Root, dse: seq<DoubleSign>, named: seq<DoubleSigner>, claim: DoubleSigner)
    requires OneEntryEach(named)
    requires forall h: nat, id: nat :: Lists(named, h, id) <==> NamedBy(root, dse, h, id)
    ensures Supported(root, dse, claim) <==>
      exists i | 0 <= i < |named| :: named[i].id == claim.id && forall h <- claim.heights :: h in named[i].heights
  {
    if i: int :| 0 <= i < |named| && named[i].id == claim.id && forall h <- claim.heights :: h in named[i].heights {
      assert Lists(named, named[i].heights[0], claim.id);
      forall h | h in claim.heights ensures NamedBy(root, dse, h, claim.id) {
        assert Lists(named, h, claim.id);
      }
    }
    if Supported(root, dse, claim) {
      var h0: nat :| NamedBy(root, dse, h0, claim.id);
      assert Lists(named, h0, claim.id);
      var i :| 0 <= i < |named| && named[i].id == claim.id && h0 in named[i].heights;
      forall h | h in claim.heights ensures h in named[i].heights {
        assert Lists(named, h, claim.id);
      }
    }
  }

  /** Each signer of the certificate has its vote for that payload in the log. */
  ghost predicate SignedIn(log: seq<Vote>, cert: Cert)
  {
    forall i <- cert.signers :: Vote(i, cert.header.round, cert.header.phase, cert.payload) in log
  }

  /** Unforgeability: an aggregate signature that verifies comes from its signers' votes. */
  ghost predicate Unforgeable(log: seq<Vote>)
  {
    forall cert: Cert :: cert.wellSigned ==> SignedIn(log, cert)
  }

  /** SOUNDNESS: if signatures cannot be forged, an accepted piece names faulty validators only, in every run. */
  lemma HonestNeverNamed(c: Consensus.Committee, events: seq<Consensus.Event>, root: Root, x: DoubleSign, h: nat, id: nat)
    requires Consensus.IsRun(c, events) && Unforgeable(Consensus.Exec(c, events).log)
    requires Accepted(root, x) && Names(root, x, h, id)
    ensures !c.Honest(id)
  {
    AcceptedMeans(root, x);
    Consensus.NoHonestEquivocation(c, events);
    var log, a, b := Consensus.Exec(c, events).log, x.voteA.value, x.voteB.value;
    assert SignedIn(log, a) && SignedIn(log, b);
    var j :| 0 <= j < |log| && log[j] == Vote(id, a.header.round, a.header.phase, a.payload);
    var k :| 0 <= k < |log| && log[k] == Vote(id, b.header.round, b.header.phase, b.payload);
    assert Consensus.SameView(log[j], log[k]);
  }

  /** SOUNDNESS of the whole list: nobody on the list ProcessDSE returns for `dse` is correct. */
  lemma HonestNeverListed(c: Consensus.Committee, events: seq<Consensus.Event>, root: Root, dse: seq<DoubleSign>,
                          results: seq<DoubleSigner>)
    requires Consensus.IsRun(c, events) && Unforgeable(Consensus.Exec(c, events).log)
    requires forall k :: 0 <= k < |dse| ==> Accepted(root, dse[k])
    requires OneEntryEach(results)
    requires forall h: nat, id: nat :: Lists(results, h, id) <==> NamedBy(root, dse, h, id)
    ensures forall i :: 0 <= i < |results| ==> !c.Honest(results[i].id)
  {
    forall i | 0 <= i < |results| ensures !c.Honest(results[i].id) {
      var h := results[i].heights[0];
      assert Lists(results, h, results[i].id);
      var k :| 0 <= k < |dse| && Names(root, dse[k], h, results[i].id);
      HonestNeverNamed(c, events, root, dse[k], h, results[i].id);
    }
  }

  /**
   * ACCOUNTABILITY: two conflicting full certificates of a view name more than a third of the power, counting
   * those whose case at that height is already closed.
   */
  lemma ConflictNamesAThird(powers: seq<nat>, root: Root, x: DoubleSign, named: set<nat>)
    requires Accepted(root, x)
    requires Power(powers, x.voteA.value.signers) >= MinimumMaj23(powers)
    requires Power(powers, x.voteB.value.signers) >= MinimumMaj23(powers)
    requires forall i: nat :: i < |powers| ==> i in root.committees[x.voteA.value.header.rootHeight]
    requires forall i: nat :: i < |powers| && (x.voteA.value.header.rootHeight, i) !in root.punishable ==> i in named
    requires forall i: nat :: Names(root, x, x.voteA.value.header.rootHeight, i) ==> i in named
    ensures 3 * Power(powers, named) > TotalPower(powers)
  {
    var both := x.voteA.value.signers * x.voteB.value.signers;
    QuorumIntersection(powers, x.voteA.value.signers, x.voteB.value.signers);
    forall i: nat | i in both && i < |powers| ensures i in named {
      assert (x.voteA.value.header.rootHeight, i) in root.punishable ==> Names(root, x, x.voteA.value.header.rootHeight, i);
    }
    PowerMonotone(powers, both, named);
  }
}
