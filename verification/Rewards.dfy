/** How a block's reward is shared out: payment percents per recipient and chain, collected over many blocks. */
module Rewards {
  import opened Options
  import opened Uint64

  /** A lottery winner with its cut in percent; a lottery without a winner gives None. */
  datatype Winner = Winner(address: nat, cut: nat)

  datatype Entry = Entry(address: nat, chain: nat, percent: nat)

  /** What is left of the proposer's cut, and the recipients so far. */
  datatype Split = Split(cut: nat, entries: seq<Entry>)

  // ---------------------------------------------------------------- one block's recipients

  predicate Matches(e: Entry, address: nat, chain: nat)
  {
    e.address == address && e.chain == chain
  }

  /** addPaymentPercent: adds to the first matching entry, or appends one. */
  function AddPercent(entries: seq<Entry>, address: nat, cut: nat, chain: nat): (r: seq<Entry>)
  {
    if cut == 0 then entries
    else if entries == [] then [Entry(address, chain, cut)]
    else if Matches(entries[0], address, chain) then [entries[0].(percent := entries[0].percent + cut)] + entries[1..]
    else [entries[0]] + AddPercent(entries[1..], address, cut, chain)
  }

  /** AddPaymentPercent: on the root chain, and on this chain when it is nested. */
  function AddOnChains(entries: seq<Entry>, address: nat, cut: nat, root: nat, own: nat): (r: seq<Entry>)
  {
    var onRoot := AddPercent(entries, address, cut, root);
    if root == own then onRoot else AddPercent(onRoot, address, cut, own)
  }

  /** AddRecipient: a winner's cut comes off the proposer's, and is skipped if that has not enough left. */
  function AddRecipient(s: Split, w: Option<Winner>, root: nat, own: nat): (t: Split)
  {
    if w.None? || s.cut < w.value.cut then s
    else Split(s.cut - w.value.cut, AddOnChains(s.entries, w.value.address, w.value.cut, root, own))
  }

  function Winners(s: Split, delegate: Option<Winner>, validator: Option<Winner>, nestedDelegate: Option<Winner>, root: nat, own: nat): (t: Split)
  {
    var s1 := AddRecipient(s, delegate, root, own);
    if root == own then s1
    else AddRecipient(AddRecipient(s1, validator, root, own), nestedDelegate, root, own)
  }

  /** CalculateRewardRecipients */
  function Recipients(proposer: nat, delegate: Option<Winner>, validator: Option<Winner>, nestedDelegate: Option<Winner>,
                      root: nat, own: nat): (entries: seq<Entry>)
  {
    var s := Winners(Split(100, []), delegate, validator, nestedDelegate, root, own);
    AddOnChains(s.entries, proposer, s.cut, root, own)
  }

  /** All percents on one chain. */
  function PercentOn(entries: seq<Entry>, chain: nat): (sum: nat)
  {
    if entries == [] then 0
    else (if entries[0].chain == chain then entries[0].percent else 0) + PercentOn(entries[1..], chain)
  }

  /** What one address gets on one chain. */
  function PercentFor(entries: seq<Entry>, address: nat, chain: nat): (sum: nat)
  {
    if entries == [] then 0
    else (if Matches(entries[0], address, chain) then entries[0].percent else 0) + PercentFor(entries[1..], address, chain)
  }

  /** One positive entry per address and chain, on these chains only. */
  predicate Proper(entries: seq<Entry>, root: nat, own: nat)
  {
    && (forall e <- entries :: e.percent > 0 && (e.chain == root || e.chain == own))
    && (forall i, j :: 0 <= i < j < |entries| ==> !Matches(entries[i], entries[j].address, entries[j].chain))
  }

  lemma {:induction false} AddPercentStaysProper(entries: seq<Entry>, address: nat, cut: nat, chain: nat, root: nat, own: nat)
    requires Proper(entries, root, own) && (chain == root || chain == own)
    ensures var r := AddPercent(entries, address, cut, chain);
            Proper(r, root, own) && forall e <- r :: e in entries || Matches(e, address, chain)
  {
    if cut > 0 && entries != [] {
      var tail := entries[1..];
      assert forall i :: 0 <= i < |tail| ==> tail[i] == entries[i + 1];
      if !Matches(entries[0], address, chain) {
        AddPercentStaysProper(tail, address, cut, chain, root, own);
        forall e | e in AddPercent(tail, address, cut, chain) ensures !Matches(entries[0], e.address, e.chain) {
          if e in tail {
            var i :| 0 <= i < |tail| && tail[i] == e;
            assert entries[i + 1] == e;
          }
        }
      }
    }
  }

  /** Adding a percent raises exactly one address on exactly one chain. */
  lemma {:induction false} AddPercentSums(entries: seq<Entry>, address: nat, cut: nat, chain: nat)
    ensures var r := AddPercent(entries, address, cut, chain);
            && (forall c :: PercentOn(r, c) == PercentOn(entries, c) + if c == chain then cut else 0)
            && (forall a, c :: PercentFor(r, a, c) == PercentFor(entries, a, c) + if a == address && c == chain then cut else 0)
  {
    if cut > 0 && entries != [] {
      var tail, r := entries[1..], AddPercent(entries, address, cut, chain);
      if Matches(entries[0], address, chain) {
        assert r[1..] == tail;
      } else {
        AddPercentSums(tail, address, cut, chain);
        assert r[1..] == AddPercent(tail, address, cut, chain);
      }
    }
  }

  lemma AddOnChainsFacts(entries: seq<Entry>, address: nat, cut: nat, root: nat, own: nat)
    requires Proper(entries, root, own)
    ensures var r := AddOnChains(entries, address, cut, root, own);
            && Proper(r, root, own)
            && PercentOn(r, root) == PercentOn(entries, root) + cut
            && PercentOn(r, own) == PercentOn(entries, own) + cut
            && (forall a :: PercentFor(r, a, root) == PercentFor(entries, a, root) + if a == address then cut else 0)
            && (forall a :: PercentFor(r, a, own) == PercentFor(entries, a, own) + if a == address then cut else 0)
  {
    AddPercentStaysProper(entries, address, cut, root, root, own);
    AddPercentSums(entries, address, cut, root);
    if root != own {
      AddPercentStaysProper(AddPercent(entries, address, cut, root), address, cut, own, root, own);
      AddPercentSums(AddPercent(entries, address, cut, root), address, cut, own);
    }
  }

  /** What the winners have and what the proposer has left always make the whole. */
  predicate Whole(s: Split, root: nat, own: nat)
  {
    Proper(s.entries, root, own) && PercentOn(s.entries, root) + s.cut == 100 && PercentOn(s.entries, own) + s.cut == 100
  }

  /** A winner gets exactly its cut, on both chains, or nothing at all. */
  lemma RecipientGetsItsCut(s: Split, w: Option<Winner>, root: nat, own: nat)
    requires Whole(s, root, own)
    ensures var t := AddRecipient(s, w, root, own);
            && Whole(t, root, own)
            && (forall a :: PercentFor(t.entries, a, root)
                            == PercentFor(s.entries, a, root) + if w.Some? && a == w.value.address then s.cut - t.cut else 0)
            && (forall a :: PercentFor(t.entries, a, own)
                            == PercentFor(s.entries, a, own) + if w.Some? && a == w.value.address then s.cut - t.cut else 0)
    ensures w.Some? ==> s.cut - AddRecipient(s, w, root, own).cut == if w.value.cut <= s.cut then w.value.cut else 0
  {
    if w.Some? && w.value.cut <= s.cut {
      AddOnChainsFacts(s.entries, w.value.address, w.value.cut, root, own);
    }
  }

  /** Everyone has the same percent on both chains. */
  ghost predicate SameOnBoth(entries: seq<Entry>, root: nat, own: nat)
  {
    forall a :: PercentFor(entries, a, root) == PercentFor(entries, a, own)
  }

  lemma WinnersStayWhole(s: Split, delegate: Option<Winner>, validator: Option<Winner>, nestedDelegate: Option<Winner>, root: nat, own: nat)
    requires Whole(s, root, own) && SameOnBoth(s.entries, root, own)
    ensures var t := Winners(s, delegate, validator, nestedDelegate, root, own);
            Whole(t, root, own) && SameOnBoth(t.entries, root, own)
  {
    RecipientGetsItsCut(s, delegate, root, own);
    if root != own {
      var s1 := AddRecipient(s, delegate, root, own);
      RecipientGetsItsCut(s1, validator, root, own);
      RecipientGetsItsCut(AddRecipient(s1, validator, root, own), nestedDelegate, root, own);
    }
  }

  /**
   * REWARD SHARES: whoever wins the lotteries and whatever their cuts, the percents on each rewarded chain
   * add up to exactly 100, with one positive entry per address and chain, and everyone has the same percent on
   * both chains; the proposer gets what the winners leave.
   */
  lemma SharesMakeTheWhole(proposer: nat, delegate: Option<Winner>, validator: Option<Winner>, nestedDelegate: Option<Winner>,
                           root: nat, own: nat)
    ensures var entries := Recipients(proposer, delegate, validator, nestedDelegate, root, own);
            var t := Winners(Split(100, []), delegate, validator, nestedDelegate, root, own);
            && Proper(entries, root, own) && PercentOn(entries, root) == 100 && PercentOn(entries, own) == 100
            && SameOnBoth(entries, root, own)
            && PercentFor(entries, proposer, root) == PercentFor(t.entries, proposer, root) + t.cut
  {
    WinnersStayWhole(Split(100, []), delegate, validator, nestedDelegate, root, own);
    var t := Winners(Split(100, []), delegate, validator, nestedDelegate, root, own);
    AddOnChainsFacts(t.entries, proposer, t.cut, root, own);
  }

  /** A winner takes its cut if the proposer has that much left, and nothing otherwise. */
  function Takes(w: Option<Winner>, left: nat): (cut: nat)
  {
    if w.Some? && w.value.cut <= left then w.value.cut else 0
  }

  function PaidTo(w: Option<Winner>, a: nat, cut: nat): (percent: nat)
  {
    if w.Some? && w.value.address == a then cut else 0
  }

  /**
   * PRECEDENCE: the delegate takes its cut first, then, on a nested chain only, the nested validator and the
   * nested delegate, each if the proposer still has that much left; the proposer gets the rest. Every address
   * has exactly what this comes to on both chains, and nothing on any other.
   */
  lemma WinnersTakeInTurn(proposer: nat, delegate: Option<Winner>, validator: Option<Winner>, nestedDelegate: Option<Winner>,
                          root: nat, own: nat, a: nat, chain: nat)
    ensures var first := Takes(delegate, 100);
            var second := if root == own then 0 else Takes(validator, 100 - first);
            var third := if root == own then 0 else Takes(nestedDelegate, 100 - first - second);
            var due := PaidTo(delegate, a, first) + PaidTo(validator, a, second) + PaidTo(nestedDelegate, a, third)
                       + if a == proposer then 100 - first - second - third else 0;
            PercentFor(Recipients(proposer, delegate, validator, nestedDelegate, root, own), a, chain)
            == if chain == root || chain == own then due else 0
  {
    var t := WinnersLeave(delegate, validator, nestedDelegate, root, own, a);
    AddOnChainsFacts(t.entries, proposer, t.cut, root, own);
    NothingElsewhere(AddOnChains(t.entries, proposer, t.cut, root, own), root, own, a, chain);
  }

  lemma RecipientTakes(s: Split, w: Option<Winner>, root: nat, own: nat, a: nat) returns (t: Split)
    requires Whole(s, root, own)
    ensures t == AddRecipient(s, w, root, own) && Whole(t, root, own) && t.cut == s.cut - Takes(w, s.cut)
    ensures PercentFor(t.entries, a, root) == PercentFor(s.entries, a, root) + PaidTo(w, a, Takes(w, s.cut))
    ensures PercentFor(t.entries, a, own) == PercentFor(s.entries, a, own) + PaidTo(w, a, Takes(w, s.cut))
  {
    t := AddRecipient(s, w, root, own);
    RecipientGetsItsCut(s, w, root, own);
  }

  lemma WinnersLeave(delegate: Option<Winner>, validator: Option<Winner>, nestedDelegate: Option<Winner>, root: nat, own: nat, a: nat)
    returns (t: Split)
    ensures t == Winners(Split(100, []), delegate, validator, nestedDelegate, root, own) && Whole(t, root, own)
    ensures var first := Takes(delegate, 100);
            var second := if root == own then 0 else Takes(validator, 100 - first);
            var third := if root == own then 0 else Takes(nestedDelegate, 100 - first - second);
            && t.cut == 100 - first - second - third
            && PercentFor(t.entries, a, root) == PercentFor(t.entries, a, own)
               == PaidTo(delegate, a, first) + PaidTo(validator, a, second) + PaidTo(nestedDelegate, a, third)
  {
    t := RecipientTakes(Split(100, []), delegate, root, own, a);
    if root != own {
      t := RecipientTakes(t, validator, root, own, a);
      t := RecipientTakes(t, nestedDelegate, root, own, a);
    }
  }

  lemma {:induction false} NothingElsewhere(entries: seq<Entry>, root: nat, own: nat, a: nat, chain: nat)
    requires forall e <- entries :: e.chain == root || e.chain == own
    ensures chain != root && chain != own ==> PercentFor(entries, a, chain) == 0
  {
    if entries != [] {
      assert entries[0] in entries;
      assert forall e <- entries[1..] :: e in entries;
      NothingElsewhere(entries[1..], root, own, a, chain);
    }
  }

  // ---------------------------------------------------------------- collected over blocks

  /** The stubs a committee has collected for its reward pool, over `samples` certificates. */
  datatype Stub = Stub(address: nat, percent: u64)

  datatype Collected = Collected(stubs: seq<Stub>, samples: u64)

  /** Uint64ReducePercentage, applied to every entry for the part of the committee that did not sign. */
  function Reduced(percent: nat, nonSigners: nat): (r: nat)
    ensures r <= percent
  {
    if nonSigners >= 100 || percent == 0 then 0
    else if nonSigners == 0 then percent
    else percent * (100 - nonSigners) / 100
  }

  function ReduceAll(entries: seq<Entry>, nonSigners: nat): (r: seq<Entry>)
    ensures |r| == |entries|
  {
    seq(|entries|, i requires 0 <= i < |entries| => entries[i].(percent := Reduced(entries[i].percent, nonSigners)))
  }

  /** addPercents */
  function AddStub(stubs: seq<Stub>, address: nat, percent: nat): (r: Option<seq<Stub>>)
  {
    if percent == 0 then Some(stubs)
    else if stubs == [] then if percent >= LIMIT then None else Some([Stub(address, percent)])
    else if stubs[0].address == address then
      if stubs[0].percent + percent >= LIMIT then None else Some([Stub(address, stubs[0].percent + percent)] + stubs[1..])
    else
      var rest :- AddStub(stubs[1..], address, percent);
      Some([stubs[0]] + rest)
  }

  function AddStubs(stubs: seq<Stub>, entries: seq<Entry>, chain: nat): (r: Option<seq<Stub>>)
  {
    if entries == [] then Some(stubs)
    else
      var before :- AddStubs(stubs, entries[..|entries| - 1], chain);
      var e := entries[|entries| - 1];
      if e.chain == chain then AddStub(before, e.address, e.percent) else Some(before)
  }

  /** Combine: only percents for this chain count, and every certificate is one sample. */
  function Combine(c: Collected, entries: seq<Entry>, chain: nat): (r: Option<Collected>)
  {
    var stubs :- AddStubs(c.stubs, entries, chain);
    if c.samples + 1 >= LIMIT then None else Some(Collected(stubs, c.samples + 1))
  }

  function SumPercents(stubs: seq<Stub>): (sum: nat)
  {
    if stubs == [] then 0 else stubs[0].percent + SumPercents(stubs[1..])
  }

  /** What one address has collected. */
  function CollectedBy(stubs: seq<Stub>, a: nat): (sum: nat)
  {
    if stubs == [] then 0 else (if stubs[0].address == a then stubs[0].percent else 0) + CollectedBy(stubs[1..], a)
  }

  predicate OnePerAddress(stubs: seq<Stub>)
  {
    forall i, j :: 0 <= i < j < |stubs| ==> stubs[i].address != stubs[j].address
  }

  /** Never more than 100 percent per sample, and one stub per address. */
  predicate Normal(c: Collected)
  {
    OnePerAddress(c.stubs) && SumPercents(c.stubs) <= 100 * c.samples
  }

  lemma {:induction false} AddStubFacts(stubs: seq<Stub>, address: nat, percent: nat)
    requires OnePerAddress(stubs) && AddStub(stubs, address, percent).Some?
    ensures var r := AddStub(stubs, address, percent).value;
            && OnePerAddress(r) && SumPercents(r) == SumPercents(stubs) + percent
            && (forall a :: CollectedBy(r, a) == CollectedBy(stubs, a) + if a == address then percent else 0)
            && (forall s <- r :: s.address == address || s in stubs)
  {
    if percent > 0 && stubs != [] {
      var r, tail := AddStub(stubs, address, percent).value, stubs[1..];
      assert forall i :: 0 <= i < |tail| ==> tail[i] == stubs[i + 1];
      if stubs[0].address == address {
        assert r[1..] == tail;
      } else {
        AddStubFacts(tail, address, percent);
        assert r[1..] == AddStub(tail, address, percent).value;
        forall s | s in r[1..] ensures s.address != stubs[0].address {
          if s in tail {
            var i :| 0 <= i < |tail| && tail[i] == s;
            assert stubs[i + 1] == s;
          }
        }
      }
    }
  }

  lemma {:induction false} PercentOnLast(entries: seq<Entry>, chain: nat)
    requires entries != []
    ensures var n := |entries| - 1;
            PercentOn(entries, chain) == PercentOn(entries[..n], chain) + if entries[n].chain == chain then entries[n].percent else 0
  {
    if |entries| > 1 {
      PercentOnLast(entries[1..], chain);
      assert entries[..|entries| - 1][1..] == entries[1..][..|entries| - 2];
    }
  }

  lemma {:induction false} PercentForLast(entries: seq<Entry>, a: nat, chain: nat)
    requires entries != []
    ensures var n := |entries| - 1;
            PercentFor(entries, a, chain)
            == PercentFor(entries[..n], a, chain) + if Matches(entries[n], a, chain) then entries[n].percent else 0
  {
    if |entries| > 1 {
      PercentForLast(entries[1..], a, chain);
      assert entries[..|entries| - 1][1..] == entries[1..][..|entries| - 2];
    }
  }

  /** Every address collects exactly its percent on this chain. */
  lemma {:induction false} EveryoneCollects(stubs: seq<Stub>, entries: seq<Entry>, chain: nat, a: nat)
    requires OnePerAddress(stubs) && AddStubs(stubs, entries, chain).Some?
    ensures CollectedBy(AddStubs(stubs, entries, chain).value, a) == CollectedBy(stubs, a) + PercentFor(entries, a, chain)
  {
    if entries != [] {
      var init, e := entries[..|entries| - 1], entries[|entries| - 1];
      EveryoneCollects(stubs, init, chain, a);
      AddStubsFacts(stubs, init, chain);
      PercentForLast(entries, a, chain);
      if e.chain == chain {
        AddStubFacts(AddStubs(stubs, init, chain).value, e.address, e.percent);
      }
    }
  }

  lemma {:induction false} AddStubsFacts(stubs: seq<Stub>, entries: seq<Entry>, chain: nat)
    requires OnePerAddress(stubs) && AddStubs(stubs, entries, chain).Some?
    ensures var r := AddStubs(stubs, entries, chain).value;
            OnePerAddress(r) && SumPercents(r) == SumPercents(stubs) + PercentOn(entries, chain)
  {
    if entries != [] {
      var init, e := entries[..|entries| - 1], entries[|entries| - 1];
      AddStubsFacts(stubs, init, chain);
      PercentOnLast(entries, chain);
      if e.chain == chain {
        AddStubFacts(AddStubs(stubs, init, chain).value, e.address, e.percent);
      }
    }
  }

  /** Every entry keeps its address and chain and loses the non-signers' percentage, rounded down. */
  lemma ReduceAllIsLeft(entries: seq<Entry>, nonSigners: nat, i: nat)
    requires i < |entries|
    ensures |ReduceAll(entries, nonSigners)| == |entries|
    ensures var e := ReduceAll(entries, nonSigners)[i];
            && (e.address, e.chain) == (entries[i].address, entries[i].chain)
            && IsLeft(e.percent, entries[i].percent, nonSigners)
  {
    ReducedIsLeft(entries[i].percent, nonSigners);
  }

  lemma ReducedIsLeft(percent: nat, nonSigners: nat)
    ensures IsLeft(Reduced(percent, nonSigners), percent, nonSigners)
  {
    if nonSigners < 100 {
      DivFacts(percent * (100 - nonSigners), 100);
    }
  }

  lemma {:induction false} ReduceAllLowers(entries: seq<Entry>, nonSigners: nat, chain: nat)
    ensures PercentOn(ReduceAll(entries, nonSigners), chain) <= PercentOn(entries, chain)
  {
    if entries != [] {
      assert ReduceAll(entries, nonSigners)[1..] == ReduceAll(entries[1..], nonSigners);
      ReduceAllLowers(entries[1..], nonSigners, chain);
    }
  }

  /** A stub can be raised while the percents of the list, with the addition, fit in 64 bits. */
  lemma {:induction false} AddStubFits(stubs: seq<Stub>, address: nat, percent: nat)
    requires SumPercents(stubs) + percent < LIMIT
    ensures AddStub(stubs, address, percent).Some?
  {
    if stubs != [] && stubs[0].address != address {
      AddStubFits(stubs[1..], address, percent);
    }
  }

  lemma {:induction false} AddStubsFit(stubs: seq<Stub>, entries: seq<Entry>, chain: nat)
    requires OnePerAddress(stubs) && SumPercents(stubs) + PercentOn(entries, chain) < LIMIT
    ensures AddStubs(stubs, entries, chain).Some?
  {
    if entries != [] {
      var init, e := entries[..|entries| - 1], entries[|entries| - 1];
      PercentOnLast(entries, chain);
      AddStubsFit(stubs, init, chain);
      if e.chain == chain {
        AddStubsFacts(stubs, init, chain);
        AddStubFits(AddStubs(stubs, init, chain).value, e.address, e.percent);
      }
    }
  }

  /**
   * COLLECTING: while 100 percent per sample fit in 64 bits, a certificate is always collected: it is one more
   * sample, and every address gains exactly its percent on this chain.
   */
  lemma CombineCollects(c: Collected, entries: seq<Entry>, chain: nat, a: nat)
    requires Normal(c) && PercentOn(entries, chain) <= 100 && 100 * (c.samples + 1) < LIMIT
    ensures Combine(c, entries, chain).Some?
    ensures var d := Combine(c, entries, chain).value;
            d.samples == c.samples + 1 && CollectedBy(d.stubs, a) == CollectedBy(c.stubs, a) + PercentFor(entries, a, chain)
  {
    AddStubsFit(c.stubs, entries, chain);
    EveryoneCollects(c.stubs, entries, chain, a);
  }

  /** Collecting one more certificate, reduced for its non-signers, keeps at most 100 percent per sample. */
  lemma CombineStaysNormal(c: Collected, entries: seq<Entry>, nonSigners: nat, chain: nat)
    requires Normal(c) && PercentOn(entries, chain) <= 100
    requires Combine(c, ReduceAll(entries, nonSigners), chain).Some?
    ensures Normal(Combine(c, ReduceAll(entries, nonSigners), chain).value)
  {
    ReduceAllLowers(entries, nonSigners, chain);
    AddStubsFacts(c.stubs, ReduceAll(entries, nonSigners), chain);
  }

  /** The search for the first match changes exactly that entry, or appends one. */
  lemma {:induction false} AddPercentAt(entries: seq<Entry>, address: nat, cut: nat, chain: nat, i: nat)
    requires cut > 0 && i <= |entries| && forall j :: 0 <= j < i ==> !Matches(entries[j], address, chain)
    requires i < |entries| ==> Matches(entries[i], address, chain)
    ensures AddPercent(entries, address, cut, chain)
            == if i == |entries| then entries + [Entry(address, chain, cut)]
               else entries[i := entries[i].(percent := entries[i].percent + cut)]
  {
    if i > 0 {
      var tail := entries[1..];
      AddPercentAt(tail, address, cut, chain, i - 1);
      if i < |entries| {
        var e := entries[i].(percent := entries[i].percent + cut);
        assert [entries[0]] + tail[i - 1 := e] == entries[i := e];
      } else {
        assert [entries[0]] + (tail + [Entry(address, chain, cut)]) == entries + [Entry(address, chain, cut)];
      }
    } else if entries != [] {
      var e := entries[0].(percent := entries[0].percent + cut);
      assert [e] + entries[1..] == entries[0 := e];
    }
  }

  // ---------------------------------------------------------------- in place

  class Results {
    var cut: nat             // what is left for the proposer
    var entries: seq<Entry>  // the payment percents

    function State(): (s: Split)
      reads this
    {
      Split(cut, entries)
    }

    constructor ()
      ensures State() == Split(100, [])
    {
      cut, entries := 100, [];
    }

    method addPaymentPercent(address: nat, percent: nat, chain: nat)
      modifies this`entries
      ensures entries == AddPercent(old(entries), address, percent, chain)
    {
      if percent == 0 {
        return;
      }
      var i := 0;
      while i < |entries| && !Matches(entries[i], address, chain)
        invariant 0 <= i <= |entries|
        invariant forall j :: 0 <= j < i ==> !Matches(entries[j], address, chain)
      {
        i := i + 1;
      }
      AddPercentAt(entries, address, percent, chain, i);
      if i < |entries| {
        entries := entries[i := entries[i].(percent := entries[i].percent + percent)];
      } else {
        entries := entries + [Entry(address, chain, percent)];
      }
    }

    method AddPaymentPercent(address: nat, percent: nat, root: nat, own: nat)
      modifies this`entries
      ensures entries == AddOnChains(old(entries), address, percent, root, own)
    {
      addPaymentPercent(address, percent, root);
      if root != own {
        addPaymentPercent(address, percent, own);
      }
    }

    method AddRewardRecipient(w: Option<Winner>, root: nat, own: nat)
      modifies this
      ensures State() == AddRecipient(old(State()), w, root, own)
      ensures Whole(old(State()), root, own) ==>
                && Whole(State(), root, own)
                && forall a :: PercentFor(entries, a, root)
                               == PercentFor(old(entries), a, root) + if w.Some? && a == w.value.address then old(cut) - cut else 0
    {
      if Whole(State(), root, own) {
        RecipientGetsItsCut(State(), w, root, own);
      }
      if w.None? || cut < w.value.cut {
        return;
      }
      cut := cut - w.value.cut;
      AddPaymentPercent(w.value.address, w.value.cut, root, own);
    }

    method CalculateRewardRecipients(proposer: nat, delegate: Option<Winner>, validator: Option<Winner>,
                                     nestedDelegate: Option<Winner>, root: nat, own: nat)
      requires State() == Split(100, [])
      modifies this
      ensures entries == Recipients(proposer, delegate, validator, nestedDelegate, root, own)
    {
      AddRewardRecipient(delegate, root, own);
      if root != own {
        AddRewardRecipient(validator, root, own);
        AddRewardRecipient(nestedDelegate, root, own);
      }
      AddPaymentPercent(proposer, cut, root, own);
    }
  }
}
