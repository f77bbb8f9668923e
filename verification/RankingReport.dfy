/** What a ranking reports, said of the candidates and rules presented: who is ranked and in which
    order, who is rejected and why, what evidence is noted as missing, and when it fails. */
module RankingReport {
  import opened Base
  import opened Model
  import opened Sequences
  import opened Sorting
  import opened Ranking
  import opened RankingLaws
  import opened Totals

  // ----- rules

  predicate BoundsMemoryOrQueue(rule: Rule) {
    rule.field in {"memory.total_bytes", "memory.free_bytes", "queue.depth"}
  }

  /** A bound given as a double or as a negative number cannot be read as unsigned. */
  predicate IllTyped(rule: Rule) {
    BoundsMemoryOrQueue(rule) && (rule.value.Double? || (rule.value.Int? && rule.value.i < 0))
  }

  /** The field is one the evaluator knows, with a value of the kind it takes. */
  predicate Judged(rule: Rule) {
    || (BoundsMemoryOrQueue(rule) && (rule.value.Int? || rule.value.UInt? || rule.value.Double?))
    || (rule.field in {"device.architecture", "capability"} && rule.value.Str?)
    || rule.field in {"device.health", "health"}
  }

  /** The reason given for not meeting a rule. */
  function Complaint(rule: Rule): Violation {
    if rule.field == "memory.total_bytes" then InsufficientTotal
    else if rule.field == "memory.free_bytes" then InsufficientFree
    else if rule.field == "queue.depth" then QueueTooDeep
    else if rule.field == "device.architecture" then ArchitectureMismatch
    else if rule.field == "capability" && rule.value.Str? then MissingCapability(rule.value.s)
    else NotHealthy
  }

  lemma EvaluationIs(c: Cand, rule: Rule)
    ensures EvalConstraint(c, rule) ==
            if IllTyped(rule) then Err(NotUnsigned)
            else if !Judged(rule) then Ok(NotEvaluable(rule.field))
            else if Satisfies(c, rule) then Ok(Satisfied)
            else Ok(Violated(Complaint(rule)))
    ensures !Judged(rule) || IllTyped(rule) ==> Satisfies(c, rule)
  {
  }

  /** How many rules, from the first on, the candidate satisfies. */
  function FirstUnmet(c: Cand, rules: seq<Rule>): (n: nat)
    ensures n <= |rules| && (forall i :: 0 <= i < n ==> Satisfies(c, rules[i]))
    ensures n < |rules| ==> !Satisfies(c, rules[n])
  {
    if rules == [] || !Satisfies(c, rules[0]) then 0 else 1 + FirstUnmet(c, rules[1..])
  }

  predicate SatisfiesAll(c: Cand, rules: seq<Rule>) {
    forall i :: 0 <= i < |rules| ==> Satisfies(c, rules[i])
  }

  /** The fields of the rules satisfied before the first unmet one that could not be judged. */
  function Unjudged(c: Cand, rules: seq<Rule>): seq<Text> {
    MapSeq((r: Rule) => r.field, Filter(NotJudged, rules[..FirstUnmet(c, rules)]))
  }

  predicate NotJudged(rule: Rule) {
    !Judged(rule)
  }

  /** Screening a candidate stops with an exception at the first ill-typed rule it reaches, with a
      rejection at the first rule it does not satisfy, and otherwise lets it pass. */
  lemma {:induction false} ScreenReports(c: Cand, rules: seq<Rule>)
    ensures
      var n := FirstUnmet(c, rules);
      if exists k :: 0 <= k < n && IllTyped(rules[k]) then Screen(c, rules) == Err(NotUnsigned)
      else Screen(c, rules) ==
           Ok(Screening(if n < |rules| then Some(Complaint(rules[n])) else None, Unjudged(c, rules)))
    decreases |rules|
  {
    hide Satisfies, EvalConstraint, IllTyped, Judged, Complaint, Unjudged;
    if rules == [] {
      NothingUnjudged(c, rules);
    } else {
      var r, tail, n := rules[0], rules[1..], FirstUnmet(c, rules);
      EvaluationIs(c, r);
      if Satisfies(c, r) {
        var m := FirstUnmet(c, tail);
        ScreenReports(c, tail);
        UnjudgedCons(c, rules);
        assert [] + Unjudged(c, tail) == Unjudged(c, tail);
        assert forall k :: 0 <= k < |tail| ==> tail[k] == rules[k + 1];
        if k :| 0 <= k < m && IllTyped(tail[k]) {
          assert IllTyped(rules[k + 1]);
        }
        if k :| 0 <= k < n && IllTyped(rules[k]) {
          assert k > 0 ==> IllTyped(tail[k - 1]);
        }
      } else {
        NothingUnjudged(c, rules);
      }
    }
  }

  lemma NothingUnjudged(c: Cand, rules: seq<Rule>)
    requires FirstUnmet(c, rules) == 0
    ensures Unjudged(c, rules) == []
  {
    assert rules[..0] == [];
  }

  lemma UnjudgedCons(c: Cand, rules: seq<Rule>)
    requires rules != [] && Satisfies(c, rules[0])
    ensures Unjudged(c, rules) == (if Judged(rules[0]) then [] else [rules[0].field]) + Unjudged(c, rules[1..])
  {
    hide Satisfies, Judged;
    var tail := rules[1..];
    var m := FirstUnmet(c, tail);
    assert rules[..m + 1] == [rules[0]] + tail[..m];
    FilterCons(NotJudged, rules[0], tail[..m]);
  }

  /** A ranking fails exactly when some candidate satisfies all rules before an ill-typed one. */
  lemma RankingThrows(d: Dec)
    ensures
      var cs, rules := Candidates(d), d.hardConstraints;
      && (Rank(d).Err? <==>
            exists i, k :: 0 <= i < |cs| && 0 <= k < |rules| && IllTyped(rules[k]) && SatisfiesAll(cs[i], rules[..k]))
      && (Rank(d).Err? ==> Rank(d).error == NotUnsigned)
  {
    hide Rank, Screen, Satisfies, IllTyped, Unjudged;
    var cs, rules := Candidates(d), d.hardConstraints;
    RankFails(d);
    RankFailsUnsigned(d);
    if Rank(d).Err? {
      var c :| c in cs && Screen(c, rules).Err?;
      var i :| 0 <= i < |cs| && cs[i] == c;
      ScreenReports(c, rules);
      var k :| 0 <= k < FirstUnmet(c, rules) && IllTyped(rules[k]);
      assert SatisfiesAll(cs[i], rules[..k]);
    }
    if i, k :| 0 <= i < |cs| && 0 <= k < |rules| && IllTyped(rules[k]) && SatisfiesAll(cs[i], rules[..k]) {
      IllTypedIsSatisfied(cs[i], rules[k]);
      FirstUnmetReaches(cs[i], rules, k);
      ScreenReports(cs[i], rules);
      assert cs[i] in cs && Screen(cs[i], rules).Err?;
    }
  }

  lemma FirstUnmetReaches(c: Cand, rules: seq<Rule>, k: nat)
    requires k <= |rules| && SatisfiesAll(c, rules[..k])
    ensures FirstUnmet(c, rules) >= k
  {
    hide Satisfies;
    assert forall i :: 0 <= i < k ==> rules[..k][i] == rules[i];
  }

  lemma IllTypedIsSatisfied(c: Cand, rule: Rule)
    requires IllTyped(rule)
    ensures Satisfies(c, rule)
  {
  }

  lemma RankFailsUnsigned(d: Dec)
    ensures Rank(d).Err? ==> Rank(d).error == NotUnsigned
  {
    hide ScreenAll;
    ScreenAllFailsUnsigned(Candidates(d), d.hardConstraints);
  }

  lemma {:induction false} ScreenAllFailsUnsigned(cs: seq<Cand>, rules: seq<Rule>)
    ensures ScreenAll(cs, rules).Err? ==> ScreenAll(cs, rules).error == NotUnsigned
    decreases |cs|
  {
    hide Screen, IllTyped, Unjudged;
    if cs == [] {
    } else {
      var n := |cs| - 1;
      ScreenAllFailsUnsigned(cs[..n], rules);
      ScreenReports(cs[n], rules);
    }
  }

  // ----- who is ranked

  lemma SurvivingSatisfies(c: Cand, rules: seq<Rule>)
    ensures Survives(c, rules) <==> SatisfiesAll(c, rules)
  {
    hide EvalConstraint, Satisfies, IllTyped, Judged, Complaint;
    forall i | 0 <= i < |rules|
      ensures Violates(c, rules[i]) <==> !Satisfies(c, rules[i])
    {
      EvaluationIs(c, rules[i]);
    }
  }

  /** Each candidate presented that satisfies every rule is ranked, as often as it is presented, and no
      other is; the first is selected, or nil if there is none. */
  lemma RankedExactly(d: Dec)
    requires Rank(d).Ok?
    ensures
      var r, podium := Rank(d).value, Podium(d);
      && |r.ranked| == |podium| && (forall i :: 0 <= i < |podium| ==> r.ranked[i] == podium[i].candidateId)
      && (forall c: Cand :: multiset(podium)[c] ==
            if SatisfiesAll(c, d.hardConstraints) then multiset(Candidates(d))[c] else 0)
      && r.selected == (if r.ranked == [] then 0 else r.ranked[0])
  {
    hide Survives, Before, Rank, SatisfiesAll, Sort;
    var alive := Survivors(Candidates(d), d.hardConstraints);
    RankIsPodium(d);
    BeforeIsStrictWeak();
    SortSorts(alive, Before);
    forall c: Cand
      ensures multiset(Podium(d))[c] ==
              if SatisfiesAll(c, d.hardConstraints) then multiset(Candidates(d))[c] else 0
    {
      FilterCounts(Alive(d.hardConstraints), Candidates(d), c);
      SurvivingSatisfies(c, d.hardConstraints);
    }
  }

  // ----- in which order

  /** A locality benefit, code 5, counts against the cost. */
  function Signed(c: CostComponent<real>): real {
    if c.kind == 5 then -c.cost else c.cost
  }

  /** The signed costs agree up to `k`, where the first list ends or has the smaller one. */
  predicate SplitAt(a: Costs, b: Costs, k: nat) {
    && k <= |a| && k < |b| && (forall i :: 0 <= i < k ==> Signed(a[i]) == Signed(b[i]))
    && (k == |a| || Signed(a[k]) < Signed(b[k]))
  }

  predicate SameSigned(a: Costs, b: Costs) {
    |a| == |b| && forall i :: 0 <= i < |a| ==> Signed(a[i]) == Signed(b[i])
  }

  /** Candidates with costs before those without; then by weighted total, by the signed costs one
      after the other, and by id. */
  ghost predicate InOrder(a: Cand, b: Cand) {
    if a.costs == [] then b.costs == [] && a.candidateId <= b.candidateId
    else
      || b.costs == []
      || exists x, y ::
           && SumsTo(a.costs, x) && SumsTo(b.costs, y)
           && (x < y || (x == y && (  (exists k: nat :: SplitAt(a.costs, b.costs, k))
                                   || (SameSigned(a.costs, b.costs) && a.candidateId <= b.candidateId))))
  }

  lemma {:induction false} LessSplits(a: Costs, b: Costs)
    ensures LexLess(MapSeq(SignedCost, a), MapSeq(SignedCost, b), RealLess) <==> exists k: nat :: SplitAt(a, b, k)
    decreases |a|
  {
    hide MapSeq;
    assert forall c :: SignedCost(c) == Signed(c);
    if b == [] {
      assert MapSeq(SignedCost, b) == [];
    } else if a == [] {
      assert MapSeq(SignedCost, a) == [];
      assert SplitAt(a, b, 0);
    } else {
      MapCons(SignedCost, a);
      MapCons(SignedCost, b);
      LessSplits(a[1..], b[1..]);
      if Signed(a[0]) < Signed(b[0]) {
        assert SplitAt(a, b, 0);
      } else if Signed(a[0]) == Signed(b[0]) {
        if k: nat :| SplitAt(a, b, k) {
          SplitShift(a, b, k - 1);
        }
        if k: nat :| SplitAt(a[1..], b[1..], k) {
          SplitShift(a, b, k);
        }
      }
    }
  }

  lemma SplitShift(a: Costs, b: Costs, k: nat)
    requires a != [] && b != [] && Signed(a[0]) == Signed(b[0])
    ensures SplitAt(a, b, k + 1) <==> SplitAt(a[1..], b[1..], k)
  {
    hide Signed;
    var s, t := a[1..], b[1..];
    assert forall i :: 0 <= i < |s| ==> s[i] == a[i + 1];
    assert forall i :: 0 <= i < |t| ==> t[i] == b[i + 1];
    assert forall i :: 1 <= i < |a| ==> a[i] == s[i - 1];
    assert forall i :: 1 <= i < |b| ==> b[i] == t[i - 1];
  }

  lemma SignaturesAgree(a: Costs, b: Costs)
    ensures MapSeq(SignedCost, a) == MapSeq(SignedCost, b) <==> SameSigned(a, b)
  {
    assert forall c :: SignedCost(c) == Signed(c);
    if MapSeq(SignedCost, a) == MapSeq(SignedCost, b) {
      forall i | 0 <= i < |a|
        ensures Signed(a[i]) == Signed(b[i])
      {
        assert MapSeq(SignedCost, a)[i] == MapSeq(SignedCost, b)[i];
      }
    }
  }

  /** The comparator of the ranking is exactly this order: one candidate goes before another when the
      other may not stand before it. */
  lemma BeforeIsOrder(a: Cand, b: Cand)
    ensures Before(b, a) <==> !InOrder(a, b)
  {
    hide SumOf, SumsTo, SplitAt, SameSigned, LexLess, MapSeq;
    TotalIsWeightedSum(a, Total(a));
    TotalIsWeightedSum(b, Total(b));
    forall x
      ensures SumsTo(a.costs, x) <==> x == Total(a)
      ensures SumsTo(b.costs, x) <==> x == Total(b)
    {
      TotalIsWeightedSum(a, x);
      TotalIsWeightedSum(b, x);
    }
    LessSplits(a.costs, b.costs);
    SignaturesAgree(a.costs, b.costs);
    LexTotal(Signature(a), Signature(b), RealLess);
  }

  /** Whatever is ranked earlier may stand before whatever is ranked later. */
  lemma RankedInOrder(d: Dec, i: nat, j: nat)
    requires i < j < |Podium(d)|
    ensures InOrder(Podium(d)[i], Podium(d)[j])
  {
    hide Survives, Before, InOrder, Filter;
    BeforeIsStrictWeak();
    SortSorts(Survivors(Candidates(d), d.hardConstraints), Before);
    BeforeIsOrder(Podium(d)[i], Podium(d)[j]);
  }

  // ----- who is rejected

  /** With distinct ids, the rejected are the candidates that leave a rule unsatisfied, each for the
      first such rule. */
  lemma RejectedForFirst(d: Dec)
    requires Rank(d).Ok? && DistinctIds(Candidates(d))
    ensures
      var r, cs, rules := Rank(d).value.rejections, Candidates(d), d.hardConstraints;
      && (forall id :: id in r <==> exists i :: 0 <= i < |cs| && cs[i].candidateId == id && !SatisfiesAll(cs[i], rules))
      && forall i, k ::
           0 <= i < |cs| && 0 <= k < |rules| && !Satisfies(cs[i], rules[k]) && SatisfiesAll(cs[i], rules[..k])
           ==> cs[i].candidateId in r && r[cs[i].candidateId] == Complaint(rules[k])
  {
    hide Survives, Screen, Satisfies, Complaint, IllTyped, Unjudged, Arranged, TotalsOf, SatisfiesAll;
    var r, cs, rules := Rank(d).value.rejections, Candidates(d), d.hardConstraints;
    RejectionsHold(cs, rules);
    forall i | 0 <= i < |cs|
      ensures Survives(cs[i], rules) <==> SatisfiesAll(cs[i], rules)
    {
      SurvivingSatisfies(cs[i], rules);
    }
    forall i, k | 0 <= i < |cs| && 0 <= k < |rules| && !Satisfies(cs[i], rules[k]) && SatisfiesAll(cs[i], rules[..k])
      ensures cs[i].candidateId in r && r[cs[i].candidateId] == Complaint(rules[k])
    {
      FirstUnmetIs(cs[i], rules, k);
      ScreenReports(cs[i], rules);
    }
  }

  lemma FirstUnmetIs(c: Cand, rules: seq<Rule>, k: nat)
    requires k < |rules| && !Satisfies(c, rules[k]) && SatisfiesAll(c, rules[..k])
    ensures FirstUnmet(c, rules) == k && !SatisfiesAll(c, rules)
  {
    hide Satisfies;
    FirstUnmetReaches(c, rules, k);
  }

  // ----- what is noted

  /** For each candidate in the order presented, the rules that could not be judged. */
  ghost function Notes(cs: seq<Cand>, rules: seq<Rule>): seq<Missing>
    decreases |cs|
  {
    if cs == [] then []
    else
      var n := |cs| - 1;
      Notes(cs[..n], rules) + MapSeq((f: Text) => Unverifiable(f), Unjudged(cs[n], rules))
  }

  predicate Costless(c: Cand) {
    c.costs == []
  }

  lemma {:induction false} ScreenAllNotes(cs: seq<Cand>, rules: seq<Rule>)
    requires ScreenAll(cs, rules).Ok?
    ensures ScreenAll(cs, rules).value.missing == Notes(cs, rules)
    decreases |cs|
  {
    hide Screen, Unjudged, IllTyped, FirstUnmet;
    if cs == [] {
    } else {
      var n := |cs| - 1;
      ScreenAllNotes(cs[..n], rules);
      ScreenReports(cs[n], rules);
      assert MapSeq(AsUnverifiable, Unjudged(cs[n], rules)) ==
             MapSeq((f: Text) => Unverifiable(f), Unjudged(cs[n], rules));
    }
  }

  lemma {:induction false} CostlessNotes(cs: seq<Cand>)
    ensures WithoutCosts(cs) == MapSeq((c: Cand) => NoCostEvidence(c.candidateId), Filter(Costless, cs))
    decreases |cs|
  {
    if cs == [] {
    } else {
      var n := |cs| - 1;
      CostlessNotes(cs[..n]);
      assert cs == cs[..n] + [cs[n]];
      FilterSnoc(Costless, cs[..n], cs[n]);
    }
  }

  /** The missing evidence: the rules that could not be judged, candidate by candidate; the ranked
      candidates without costs, in ranking order; the fields the candidate set lacks. The note tells
      whether any candidate presented has costs. */
  lemma MissingReported(d: Dec)
    requires Rank(d).Ok?
    ensures
      var r, cs := Rank(d).value, Candidates(d);
      && r.missing == Notes(cs, d.hardConstraints)
                      + MapSeq((c: Cand) => NoCostEvidence(c.candidateId), Filter(Costless, Podium(d)))
                      + MapSeq((f: Text) => FieldMissing(f), d.candidateSet.missingFields)
      && (r.costRanked <==> exists i :: 0 <= i < |cs| && |cs[i].costs| > 0)
  {
    hide Screen, Arranged, TotalsOf, Notes, WithoutCosts, Filter, Survives;
    ScreenAllIsFilter(Candidates(d), d.hardConstraints);
    ScreenAllNotes(Candidates(d), d.hardConstraints);
    CostlessNotes(Podium(d));
    var fields := d.candidateSet.missingFields;
    assert MapSeq(AsFieldMissing, fields) == MapSeq((f: Text) => FieldMissing(f), fields);
  }
}
