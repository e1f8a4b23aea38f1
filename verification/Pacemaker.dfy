/** Round synchronisation: the highest round that a third of the voting power reports having reached. */
module PeerRounds {
  import opened Quorum

  /** A pacemaker report: the validator that sent it and the round it is in. */
  datatype Report = Report(validator: nat, round: nat)

  /** Half of the two-thirds majority, as Uint64ReducePercentage(MinimumMaj23, 50) computes it. */
  function Threshold(powers: seq<nat>): (threshold: nat)
  {
    MinimumMaj23(powers) * 50 / 100
  }

  /** The threshold is half of the majority, rounded down. */
  lemma ThresholdIsHalf(powers: seq<nat>, power: nat)
    ensures power >= Threshold(powers) <==> 2 * power + 1 >= MinimumMaj23(powers)
  {
  }

  /**
   * A third, but for the rounding: the threshold is out of reach of every faulty minority below a third,
   * unless the total power leaves a remainder of one.
   */
  lemma FaultyAloneFallShort(powers: seq<nat>, power: nat)
    requires 3 * power < TotalPower(powers)
    ensures power >= Threshold(powers) <==> TotalPower(powers) % 3 == 1 && 3 * power + 1 == TotalPower(powers)
  {
  }

  /** Unless the total power leaves a remainder of one, a correct validator has reached every round that is caught up with. */
  lemma CorrectReachesPeerRound(powers: seq<nat>, reports: map<nat, nat>, faulty: set<nat>, round: nat) returns (v: nat)
    requires 3 * Power(powers, faulty) < TotalPower(powers) && TotalPower(powers) % 3 != 1
    requires round > 0 && IsPeerRound(powers, reports, round)
    ensures v < |powers| && v in reports && v !in faulty && reports[v] >= round
  {
    var reached := From(reports, round);
    if forall i <- reached :: i < |powers| ==> i in faulty {
      PowerMonotone(powers, reached, faulty);
      FaultyAloneFallShort(powers, Power(powers, reached));
      assert false;
    }
    v :| v in reached && v < |powers| && v !in faulty;
  }

  /** With a remainder of one the faulty can do it alone: here one with a quarter of the power sets the round. */
  lemma FaultyCanSetTheRound()
    ensures var powers, faulty, reports := [3, 1], {1}, map[0 := 1, 1 := 7];
            3 * Power(powers, faulty) < TotalPower(powers) && IsPeerRound(powers, reports, 7)
  {
    var powers, reports := [3, 1], map[0 := 1, 1 := 7];
    PowerOfNone([3]);
    assert powers[..1] == [3] && [3][..0] == [];
    assert TotalPower([3]) == 3 && Power([3], {1}) == 0;
    assert From(reports, 7) == {1};
    assert Known(powers, reports, 1) && Reaches(powers, reports, 7);
  }

  /** The validators whose latest report is of this round or a later one. */
  function From(reports: map<nat, nat>, round: nat): (validators: set<nat>)
  {
    set v | v in reports && reports[v] >= round
  }

  predicate Reaches(powers: seq<nat>, reports: map<nat, nat>, round: nat)
  {
    Power(powers, From(reports, round)) >= Threshold(powers)
  }

  predicate Known(powers: seq<nat>, reports: map<nat, nat>, v: nat)
  {
    v in reports && v < |powers|
  }

  /** `round` is the largest reported round that the threshold has reached, or 0 if there is none. */
  ghost predicate IsPeerRound(powers: seq<nat>, reports: map<nat, nat>, round: nat)
  {
    || (round == 0 && forall v: nat :: Known(powers, reports, v) ==> !Reaches(powers, reports, reports[v]))
    || (exists v: nat ::
          && Known(powers, reports, v) && reports[v] == round && Reaches(powers, reports, round)
          && forall w: nat :: Known(powers, reports, w) && reports[w] > round ==> !Reaches(powers, reports, reports[w]))
  }

  predicate Descending(s: seq<Report>)
  {
    forall i, j :: 0 <= i < j < |s| ==> s[i].round >= s[j].round
  }

  function Validators(s: seq<Report>): (vs: set<nat>)
  {
    set i | 0 <= i < |s| :: s[i].validator
  }

  /** `s` lists exactly the reports of the validators in `done`, each once, latest round first. */
  ghost predicate Lists(s: seq<Report>, reports: map<nat, nat>, done: set<nat>)
  {
    && Descending(s)
    && Validators(s) == done
    && (forall i :: 0 <= i < |s| ==> s[i].validator in reports && reports[s[i].validator] == s[i].round)
    && (forall i, j :: 0 <= i < j < |s| ==> s[i].validator != s[j].validator)
  }

  method InsertReport(s: seq<Report>, r: Report, ghost reports: map<nat, nat>, ghost done: set<nat>)
    returns (t: seq<Report>)
    requires Lists(s, reports, done) && r.validator !in done
    requires r.validator in reports && reports[r.validator] == r.round
    ensures Lists(t, reports, done + {r.validator})
  {
    var i := 0;
    while i < |s| && s[i].round >= r.round
      invariant 0 <= i <= |s|
      invariant forall j :: 0 <= j < i ==> s[j].round >= r.round
    {
      i := i + 1;
    }
    t := s[..i] + [r] + s[i..];
    InsertedValidators(s, r, i);
    InsertedInOrder(s, r, i);
  }

  lemma InsertedInOrder(s: seq<Report>, r: Report, i: nat)
    requires i <= |s| && Descending(s) && r.validator !in Validators(s)
    requires forall j, k :: 0 <= j < k < |s| ==> s[j].validator != s[k].validator
    requires (forall j :: 0 <= j < i ==> s[j].round >= r.round) && (i < |s| ==> s[i].round < r.round)
    ensures var t := s[..i] + [r] + s[i..];
            Descending(t) && forall j, k :: 0 <= j < k < |t| ==> t[j].validator != t[k].validator
  {
    assert forall n :: 0 <= n < |s| ==> s[n].validator in Validators(s);
  }

  lemma InsertedValidators(s: seq<Report>, r: Report, i: nat)
    requires i <= |s|
    ensures Validators(s[..i] + [r] + s[i..]) == Validators(s) + {r.validator}
  {
    var t := s[..i] + [r] + s[i..];
    forall v | v in Validators(s) + {r.validator} ensures v in Validators(t) {
      if v in Validators(s) {
        var j :| 0 <= j < |s| && s[j].validator == v;
        assert t[if j < i then j else j + 1].validator == v;
      } else {
        assert t[i].validator == v;
      }
    }
  }

  /** Collects the stored reports, latest round first. */
  method SortReports(reports: map<nat, nat>) returns (sorted: seq<Report>)
    ensures Lists(sorted, reports, reports.Keys)
  {
    sorted := [];
    var left := reports.Keys;
    while left != {}
      invariant left <= reports.Keys
      invariant Lists(sorted, reports, reports.Keys - left)
      decreases |left|
    {
      var v :| v in left;
      sorted := InsertReport(sorted, Report(v, reports[v]), reports, reports.Keys - left);
      assert reports.Keys - left + {v} == reports.Keys - (left - {v});
      left := left - {v};
    }
    assert reports.Keys - left == reports.Keys;
  }

  /** A prefix of the sorted reports holds every report of a strictly later round. */
  lemma LaterReportsComeFirst(sorted: seq<Report>, reports: map<nat, nat>, i: nat, round: nat)
    requires Lists(sorted, reports, reports.Keys) && i <= |sorted|
    requires i < |sorted| ==> sorted[i].round < round
    ensures From(reports, round) <= Validators(sorted[..i])
  {
    forall v | v in From(reports, round) ensures v in Validators(sorted[..i]) {
      assert v in Validators(sorted);
      var j :| 0 <= j < |sorted| && sorted[j].validator == v;
      assert j < i;
      assert sorted[..i][j].validator == v;
    }
  }

  /**
   * The tally of Pacemaker(): walks the reports from the latest round down, summing the power of
   * known validators until a third is reached.
   */
  method TallyPeerRound(powers: seq<nat>, reports: map<nat, nat>) returns (round: nat)
    ensures IsPeerRound(powers, reports, round)
  {
    var sorted := SortReports(reports);
    var total, i := 0, 0;
    PowerOfNone(powers);
    assert Validators(sorted[..0]) == {};
    while i < |sorted|
      invariant 0 <= i <= |sorted|
      invariant total == Power(powers, Validators(sorted[..i]))
      invariant forall j :: 0 <= j < i && sorted[j].validator < |powers| ==> total < Threshold(powers)
    {
      var report := sorted[i];
      NextReport(powers, reports, sorted, i);
      if report.validator < |powers| {
        total := total + powers[report.validator];
        if total >= Threshold(powers) {
          StopsAtPeerRound(powers, reports, sorted, i);
          return report.round;
        }
      }
      i := i + 1;
    }
    NoPeerRound(powers, reports, sorted);
    return 0;
  }

  /** One more report adds the power of its validator, if the validator is known. */
  lemma NextReport(powers: seq<nat>, reports: map<nat, nat>, sorted: seq<Report>, i: nat)
    requires Lists(sorted, reports, reports.Keys) && i < |sorted|
    ensures var v := sorted[i].validator;
            Power(powers, Validators(sorted[..i + 1]))
            == Power(powers, Validators(sorted[..i])) + if v < |powers| then powers[v] else 0
  {
    var v, before := sorted[i].validator, Validators(sorted[..i]);
    assert Validators(sorted[..i + 1]) == before + {v} by {
      assert sorted[..i + 1][i] == sorted[i];
      assert forall j :: 0 <= j < i ==> sorted[..i + 1][j] == sorted[..i][j];
    }
    if v < |powers| {
      assert v !in before;
      PowerInsert(powers, before, v);
    } else {
      PowerMonotone(powers, before, before + {v});
      PowerMonotone(powers, before + {v}, before);
    }
  }

  lemma StopsAtPeerRound(powers: seq<nat>, reports: map<nat, nat>, sorted: seq<Report>, i: nat)
    requires Lists(sorted, reports, reports.Keys) && i < |sorted| && sorted[i].validator < |powers|
    requires Power(powers, Validators(sorted[..i + 1])) >= Threshold(powers)
    requires forall j :: 0 <= j < i && sorted[j].validator < |powers| ==>
               Power(powers, Validators(sorted[..i])) < Threshold(powers)
    ensures IsPeerRound(powers, reports, sorted[i].round)
  {
    var v, round := sorted[i].validator, sorted[i].round;
    PowerMonotone(powers, Validators(sorted[..i + 1]), From(reports, round));
    assert Known(powers, reports, v) && reports[v] == round && Reaches(powers, reports, round);
    forall w: nat | Known(powers, reports, w) && reports[w] > round
      ensures !Reaches(powers, reports, reports[w])
    {
      LaterReportsComeFirst(sorted, reports, i, reports[w]);
      assert w in From(reports, reports[w]);
      var j :| 0 <= j < i && sorted[..i][j].validator == w;
      assert sorted[j].validator < |powers|;
      PowerMonotone(powers, From(reports, reports[w]), Validators(sorted[..i]));
    }
  }

  lemma NoPeerRound(powers: seq<nat>, reports: map<nat, nat>, sorted: seq<Report>)
    requires Lists(sorted, reports, reports.Keys)
    requires forall j :: 0 <= j < |sorted| && sorted[j].validator < |powers| ==>
               Power(powers, Validators(sorted[..|sorted|])) < Threshold(powers)
    ensures IsPeerRound(powers, reports, 0)
  {
    assert sorted[..|sorted|] == sorted;
    forall v: nat | Known(powers, reports, v) ensures !Reaches(powers, reports, reports[v]) {
      assert v in Validators(sorted);
      var j :| 0 <= j < |sorted| && sorted[j].validator == v;
      assert sorted[j].validator < |powers|;
      PowerMonotone(powers, From(reports, reports[v]), Validators(sorted));
    }
  }

  /** At most one round satisfies the specification, so the tally does not depend on map order. */
  lemma PeerRoundIsUnique(powers: seq<nat>, reports: map<nat, nat>, a: nat, b: nat)
    requires IsPeerRound(powers, reports, a) && IsPeerRound(powers, reports, b)
    ensures a == b
  {
  }
}
