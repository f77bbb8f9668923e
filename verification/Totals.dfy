/** Weighted totals: what the total of a list of costs is, how it responds to a change of one weight,
    and what that does to the totals reported and to the order of the candidates. */
module Totals {
  import opened Base
  import opened Model
  import opened Sequences
  import opened Sorting
  import opened Ranking
  import opened RankingLaws

  type Costs = seq<CostComponent<real>>

  /** What one component contributes. */
  function Weighted(c: CostComponent<real>): real {
    c.cost * c.policyWeight
  }

  /** The running sums of the contributions, from 0 on. */
  ghost predicate RunningSums(p: seq<real>, costs: Costs) {
    && |p| == |costs| + 1 && p[0] == 0.0
    && forall i :: 0 <= i < |costs| ==> p[i + 1] == p[i] + Weighted(costs[i])
  }

  /** The total is where the running sums end. */
  ghost predicate SumsTo(costs: Costs, total: real) {
    exists p: seq<real> :: RunningSums(p, costs) && p[|costs|] == total
  }

  lemma {:induction false} SumOfSums(costs: Costs)
    ensures SumsTo(costs, SumOf(costs))
    decreases |costs|
  {
    hide Weighted;
    if costs == [] {
      assert RunningSums([0.0], costs);
    } else {
      var n := |costs| - 1;
      SumOfSums(costs[..n]);
      var p :| RunningSums(p, costs[..n]) && p[n] == SumOf(costs[..n]);
      LastPart(costs);
      var q := p + [SumOf(costs)];
      forall i | 0 <= i < |costs|
        ensures q[i + 1] == q[i] + Weighted(costs[i])
      {
        assert i < n ==> costs[..n][i] == costs[i];
      }
      assert RunningSums(q, costs) && q[|costs|] == SumOf(costs);
    }
  }

  lemma LastPart(costs: Costs)
    requires costs != []
    ensures SumOf(costs) == SumOf(costs[..|costs| - 1]) + Weighted(costs[|costs| - 1])
  {
  }

  lemma {:induction false} SameSums(p: seq<real>, q: seq<real>, costs: Costs, k: nat)
    requires RunningSums(p, costs) && RunningSums(q, costs) && k <= |costs|
    ensures p[k] == q[k]
    decreases k
  {
    hide Weighted;
    if k == 0 {
    } else {
      SameSums(p, q, costs, k - 1);
      assert p[(k - 1) + 1] == p[k - 1] + Weighted(costs[k - 1]);
      assert q[(k - 1) + 1] == q[k - 1] + Weighted(costs[k - 1]);
    }
  }

  /** The total that ranks a candidate is the sum of cost times weight over its components, and no
      other number is. */
  lemma TotalIsWeightedSum(c: Cand, x: real)
    ensures SumsTo(c.costs, x) <==> x == Total(c)
  {
    SumOfSums(c.costs);
    if SumsTo(c.costs, x) {
      var p :| RunningSums(p, c.costs) && p[|c.costs|] == x;
      var q :| RunningSums(q, c.costs) && q[|c.costs|] == Total(c);
      SameSums(p, q, c.costs, |c.costs|);
    }
  }

  // ----- how totals add up

  lemma {:induction false} TotalsAdd(a: Costs, b: Costs)
    ensures SumOf(a + b) == SumOf(a) + SumOf(b)
    decreases |b|
  {
    hide Weighted;
    if b == [] {
      assert a + b == a;
    } else {
      var n := |b| - 1;
      TotalsAdd(a, b[..n]);
      assert (a + b)[..|a + b| - 1] == a + b[..n];
      LastPart(b);
      LastPart(a + b);
    }
  }

  lemma TotalOfOne(c: CostComponent<real>)
    ensures SumOf([]) == 0.0 && SumOf([c]) == Weighted(c)
  {
    assert [c][..0] == [];
    LastPart([c]);
  }

  /** A total falls apart around any of its components. */
  lemma TotalAround(costs: Costs, i: nat)
    requires i < |costs|
    ensures SumOf(costs) == SumOf(costs[..i]) + Weighted(costs[i]) + SumOf(costs[i + 1..])
  {
    hide SumOf, Weighted;
    assert costs == costs[..i] + ([costs[i]] + costs[i + 1..]);
    TotalsAdd(costs[..i], [costs[i]] + costs[i + 1..]);
    TotalsAdd([costs[i]], costs[i + 1..]);
    TotalOfOne(costs[i]);
  }

  /** The list with another weight on component `i`. */
  function Reweighed(costs: Costs, i: nat, w: real): Costs
    requires i < |costs|
  {
    costs[i := costs[i].(policyWeight := w)]
  }

  /** Another weight on one component moves the total by the cost of that component times the change
      of the weight; a component of weight 0 counts for nothing. */
  lemma WeightMovesTotal(costs: Costs, i: nat, w: real)
    requires i < |costs|
    ensures SumOf(Reweighed(costs, i, w)) == SumOf(costs) + costs[i].cost * (w - costs[i].policyWeight)
    ensures costs[i].policyWeight == 0.0 ==> SumOf(costs[..i] + costs[i + 1..]) == SumOf(costs)
  {
    hide SumOf, Weighted;
    var other := Reweighed(costs, i, w);
    TotalAround(costs, i);
    TotalAround(other, i);
    assert other[..i] == costs[..i] && other[i + 1..] == costs[i + 1..];
    WeightedDiffers(costs[i], w);
    TotalsAdd(costs[..i], costs[i + 1..]);
  }

  lemma WeightedDiffers(c: CostComponent<real>, w: real)
    ensures Weighted(c.(policyWeight := w)) == Weighted(c) + c.cost * (w - c.policyWeight)
    ensures c.policyWeight == 0.0 ==> Weighted(c) == 0.0
  {
  }

  /** In whatever order the components are listed, the total is the same. */
  lemma {:induction false} TotalIgnoresOrder(a: Costs, b: Costs)
    requires multiset(a) == multiset(b)
    ensures SumOf(a) == SumOf(b)
    decreases |a|
  {
    hide SumOf, Weighted;
    if a == [] {
      assert |b| == |multiset(b)| == 0;
    } else {
      var x, y := FirstElsewhere(a, b);
      TotalIgnoresOrder(a[1..], x + y);
      TotalAround(a, 0);
      assert a[..0] == [];
      TotalOfOne(a[0]);
      TotalsAdd(x, y);
      TotalsAdd(x, [a[0]] + y);
      TotalsAdd([a[0]], y);
    }
  }

  // ----- the totals reported

  lemma {:induction false} TotalsOfKeys(cs: seq<Cand>)
    ensures forall id :: id in TotalsOf(cs) <==> exists j :: 0 <= j < |cs| && cs[j].candidateId == id
    decreases |cs|
  {
    hide Total;
    if cs == [] {
    } else {
      var n := |cs| - 1;
      TotalsOfKeys(cs[..n]);
      assert forall j :: 0 <= j < n ==> cs[..n][j] == cs[j];
    }
  }

  lemma {:induction false} TotalsOfLast(cs: seq<Cand>, i: nat)
    requires i < |cs| && forall j :: i < j < |cs| ==> cs[j].candidateId != cs[i].candidateId
    ensures cs[i].candidateId in TotalsOf(cs) && TotalsOf(cs)[cs[i].candidateId] == Total(cs[i])
    decreases |cs|
  {
    hide Total;
    var n := |cs| - 1;
    if i < n {
      assert forall j :: 0 <= j < n ==> cs[..n][j] == cs[j];
      TotalsOfLast(cs[..n], i);
    }
  }

  /** A total is reported for exactly the ids ranked, and it is the weighted sum of the costs of the
      candidate ranked last under that id, hence of the only one where ids are distinct. */
  lemma TotalsReported(d: Dec, i: nat)
    requires Rank(d).Ok? && i < |Podium(d)|
    requires forall j :: i < j < |Podium(d)| ==> Podium(d)[j].candidateId != Podium(d)[i].candidateId
    ensures
      var totals, c := Rank(d).value.totals, Podium(d)[i];
      && (forall id :: id in totals <==> id in Rank(d).value.ranked)
      && c.candidateId in totals && SumsTo(c.costs, totals[c.candidateId])
  {
    hide Podium, Rank, TotalsOf, SumsTo, SumOf, MapSeq;
    RankIsPodium(d);
    TotalsOfKeys(Podium(d));
    TotalsOfLast(Podium(d), i);
    TotalIsWeightedSum(Podium(d)[i], Total(Podium(d)[i]));
    RankedIds(Podium(d));
  }

  lemma RankedIds(cs: seq<Cand>)
    ensures forall id :: id in MapSeq(IdOf, cs) <==> exists j :: 0 <= j < |cs| && cs[j].candidateId == id
  {
    forall id | exists j :: 0 <= j < |cs| && cs[j].candidateId == id
      ensures id in MapSeq(IdOf, cs)
    {
      var j :| 0 <= j < |cs| && cs[j].candidateId == id;
      assert MapSeq(IdOf, cs)[j] == id;
    }
  }

  // ----- one weight changed

  function WithWeight(c: Cand, i: nat, w: real): Cand
    requires i < |c.costs|
  {
    c.(costs := Reweighed(c.costs, i, w))
  }

  /** The decision with another weight on component `i` of candidate `k`. */
  function ReweighedDecision(d: Dec, k: nat, i: nat, w: real): Dec
    requires k < |Candidates(d)| && i < |Candidates(d)[k].costs|
  {
    var cs := Candidates(d);
    d.(candidateSet := d.candidateSet.(candidates := cs[k := WithWeight(cs[k], i, w)]))
  }

  /** Rules look at everything but costs. */
  lemma {:induction false} ScreenIgnoresCosts(c: Cand, costs: Costs, rules: seq<Rule>)
    ensures Screen(c.(costs := costs), rules) == Screen(c, rules)
    decreases |rules|
  {
    hide EvalConstraint, Prepend;
    if rules == [] {
    } else {
      EvalIgnoresCosts(c, costs, rules[0]);
      ScreenIgnoresCosts(c, costs, rules[1..]);
    }
  }

  lemma EvalIgnoresCosts(c: Cand, costs: Costs, rule: Rule)
    ensures EvalConstraint(c.(costs := costs), rule) == EvalConstraint(c, rule)
  {
  }

  lemma SurvivesIgnoresCosts(c: Cand, costs: Costs, rules: seq<Rule>)
    ensures Survives(c.(costs := costs), rules) == Survives(c, rules)
  {
    hide EvalConstraint;
    forall rule
      ensures Violates(c.(costs := costs), rule) == Violates(c, rule)
    {
      EvalIgnoresCosts(c, costs, rule);
    }
  }

  lemma ReweighedRanks(d: Dec, k: nat, i: nat, w: real)
    requires k < |Candidates(d)| && i < |Candidates(d)[k].costs|
    ensures Rank(ReweighedDecision(d, k, i, w)).Ok? <==> Rank(d).Ok?
  {
    hide Rank, Screen, WithWeight;
    var e := ReweighedDecision(d, k, i, w);
    var cs, es, rules := Candidates(d), Candidates(e), d.hardConstraints;
    assert es[k] == cs[k].(costs := Reweighed(cs[k].costs, i, w)) by { WithWeightIs(cs[k], i, w); }
    ScreenIgnoresCosts(cs[k], es[k].costs, rules);
    RankFails(d);
    RankFails(e);
    if c :| c in cs && Screen(c, rules).Err? {
      var j :| 0 <= j < |cs| && cs[j] == c;
      assert es[j] in es && Screen(es[j], rules).Err?;
    }
    if c :| c in es && Screen(c, rules).Err? {
      var j :| 0 <= j < |es| && es[j] == c;
      assert cs[j] in cs && Screen(cs[j], rules).Err?;
    }
  }

  lemma WithWeightIs(c: Cand, i: nat, w: real)
    requires i < |c.costs|
    ensures WithWeight(c, i, w) == c.(costs := Reweighed(c.costs, i, w))
  {
  }

  lemma {:induction false} FilterPointwise<T>(p: T -> bool, q: T -> bool, a: seq<T>, b: seq<T>)
    requires |a| == |b|
    requires forall j :: 0 <= j < |a| ==> p(a[j]) == q(b[j]) && (p(a[j]) ==> a[j] == b[j])
    ensures Filter(p, a) == Filter(q, b)
    decreases |a|
  {
    if a == [] {
    } else {
      FilterPointwise(p, q, a[1..], b[1..]);
    }
  }

  /** Another weight on one component of one candidate leaves the relative order of all others. */
  lemma ReweighingLeavesOthers(d: Dec, k: nat, i: nat, w: real)
    requires k < |Candidates(d)| && i < |Candidates(d)[k].costs|
    ensures
      var id := Candidates(d)[k].candidateId;
      Filter(Other(id), Podium(ReweighedDecision(d, k, i, w))) == Filter(Other(id), Podium(d))
  {
    hide Podium, WithWeight, Reweighed;
    var e, id := ReweighedDecision(d, k, i, w), Candidates(d)[k].candidateId;
    WithWeightIs(Candidates(d)[k], i, w);
    FilterPointwise(Other(id), Other(id), Candidates(e), Candidates(d));
    assert Without(e, id) == Without(d, id);
    PodiumWithout(e, id);
    PodiumWithout(d, id);
  }

  lemma PodiumMembers(d: Dec)
    ensures forall j :: 0 <= j < |Podium(d)| ==>
              Podium(d)[j] in Candidates(d) && Survives(Podium(d)[j], d.hardConstraints)
    ensures forall c :: c in Candidates(d) && Survives(c, d.hardConstraints) ==> c in Podium(d)
  {
    hide Survives, Before, Sort;
    var alive := Survivors(Candidates(d), d.hardConstraints);
    BeforeIsStrictWeak();
    SortSorts(alive, Before);
    SameMembers(alive, Podium(d));
    FilterMembers(Alive(d.hardConstraints), Candidates(d));
    forall j | 0 <= j < |Podium(d)|
      ensures Podium(d)[j] in Candidates(d) && Survives(Podium(d)[j], d.hardConstraints)
    {
      assert Podium(d)[j] in alive;
      var m :| 0 <= m < |alive| && alive[m] == Podium(d)[j];
    }
    forall c | c in Candidates(d) && Survives(c, d.hardConstraints)
      ensures c in Podium(d)
    {
      var j :| 0 <= j < |Candidates(d)| && Candidates(d)[j] == c;
      assert Alive(d.hardConstraints)(c);
      assert c in alive;
      var m :| 0 <= m < |alive| && alive[m] == c;
    }
  }

  /** Among distinct candidates a total is reported for each survivor and for no one else. */
  lemma TotalOfCandidate(d: Dec, c: Cand)
    requires Rank(d).Ok? && DistinctIds(Candidates(d)) && c in Candidates(d)
    ensures c.candidateId in Rank(d).value.totals <==> Survives(c, d.hardConstraints)
    ensures Survives(c, d.hardConstraints) ==> Rank(d).value.totals[c.candidateId] == SumOf(c.costs)
  {
    hide Survives, Rank, Podium, SumOf;
    var podium := Podium(d);
    RankIsPodium(d);
    PodiumMembers(d);
    TotalsOfKeys(podium);
    if c.candidateId in Rank(d).value.totals {
      var j :| 0 <= j < |podium| && podium[j].candidateId == c.candidateId;
      OneOfEachId(Candidates(d), podium[j], c);
    }
    if Survives(c, d.hardConstraints) {
      var j := LastWithId(podium, c.candidateId);
      OneOfEachId(Candidates(d), podium[j], c);
      TotalsOfLast(podium, j);
    }
  }

  lemma OneOfEachId(cs: seq<Cand>, a: Cand, b: Cand)
    requires DistinctIds(cs) && a in cs && b in cs && a.candidateId == b.candidateId
    ensures a == b
  {
  }

  lemma {:induction false} LastWithId(cs: seq<Cand>, id: u64) returns (i: nat)
    requires exists c :: c in cs && c.candidateId == id
    ensures i < |cs| && cs[i].candidateId == id
    ensures forall j :: i < j < |cs| ==> cs[j].candidateId != id
    decreases |cs|
  {
    var n := |cs| - 1;
    if cs[n].candidateId == id {
      i := n;
    } else {
      var c :| c in cs && c.candidateId == id;
      assert c in cs[..n];
      i := LastWithId(cs[..n], id);
      assert forall j :: 0 <= j < n ==> cs[..n][j] == cs[j];
    }
  }

  /** Lifted to the ranking: with distinct ids, another weight on one component of one candidate
      fails no ranking and moves no total but that of this candidate, by its cost times the change. */
  lemma WeightMovesReportedTotal(d: Dec, k: nat, i: nat, w: real)
    requires k < |Candidates(d)| && i < |Candidates(d)[k].costs|
    requires DistinctIds(Candidates(d)) && Rank(d).Ok?
    ensures Rank(ReweighedDecision(d, k, i, w)).Ok?
    ensures
      var before, after := Rank(d).value.totals, Rank(ReweighedDecision(d, k, i, w)).value.totals;
      var c := Candidates(d)[k];
      && after.Keys == before.Keys
      && (forall id <- before :: id != c.candidateId ==> after[id] == before[id])
      && (c.candidateId in before ==>
            after[c.candidateId] == before[c.candidateId] + c.costs[i].cost * (w - c.costs[i].policyWeight))
  {
    hide Rank, Survives, SumOf, WithWeight, Podium;
    var e := ReweighedDecision(d, k, i, w);
    var cs, es := Candidates(d), Candidates(e);
    ReweighedRanks(d, k, i, w);
    var before, after := Rank(d).value.totals, Rank(e).value.totals;
    WithWeightIs(cs[k], i, w);
    SurvivesIgnoresCosts(cs[k], es[k].costs, d.hardConstraints);
    WeightMovesTotal(cs[k].costs, i, w);
    forall j | 0 <= j < |cs|
      ensures cs[j].candidateId in after <==> cs[j].candidateId in before
      ensures cs[j].candidateId in after ==> after[cs[j].candidateId] == SumOf(es[j].costs)
      ensures cs[j].candidateId in before ==> before[cs[j].candidateId] == SumOf(cs[j].costs)
    {
      TotalOfCandidate(d, cs[j]);
      TotalOfCandidate(e, es[j]);
    }
    TotalsArePresented(d);
    TotalsArePresented(e);
  }

  lemma TotalsArePresented(d: Dec)
    requires Rank(d).Ok?
    ensures forall id <- Rank(d).value.totals ::
              exists j :: 0 <= j < |Candidates(d)| && Candidates(d)[j].candidateId == id
  {
    hide Rank, Podium, Survives;
    var podium := Podium(d);
    RankIsPodium(d);
    PodiumMembers(d);
    TotalsOfKeys(podium);
    forall id <- Rank(d).value.totals
      ensures exists j :: 0 <= j < |Candidates(d)| && Candidates(d)[j].candidateId == id
    {
      var j :| 0 <= j < |podium| && podium[j].candidateId == id;
      assert podium[j] in Candidates(d);
    }
  }

  // ----- totals and order

  /** Of two ranked candidates with costs the one of lower weighted total comes first. */
  lemma CheaperFirst(d: Dec, i: nat, j: nat, x: real, y: real)
    requires i < |Podium(d)| && j < |Podium(d)|
    requires Podium(d)[i].costs != [] && Podium(d)[j].costs != []
    requires SumsTo(Podium(d)[i].costs, x) && SumsTo(Podium(d)[j].costs, y) && x < y
    ensures i < j
  {
    hide Podium, SumsTo, SumOf;
    TotalIsWeightedSum(Podium(d)[i], x);
    TotalIsWeightedSum(Podium(d)[j], y);
    if j < i {
      PodiumOrder(d, j, i);
    }
  }

  lemma Difference(x: real, v: real, w: real)
    ensures x * (v - w) == x * v - x * w
  {
  }

  /** Two ranked candidates whose costs differ in one weight: the one whose weight makes that
      component cheaper comes first. */
  lemma LighterFirst(d: Dec, i: nat, j: nat, k: nat, w: real)
    requires i < |Podium(d)| && j < |Podium(d)| && k < |Podium(d)[j].costs|
    requires Podium(d)[i].costs == Reweighed(Podium(d)[j].costs, k, w)
    requires Podium(d)[j].costs[k].cost * w < Podium(d)[j].costs[k].cost * Podium(d)[j].costs[k].policyWeight
    ensures i < j
  {
    hide Podium, SumsTo, SumOf;
    var a, b := Podium(d)[i], Podium(d)[j];
    WeightMovesTotal(b.costs, k, w);
    Difference(b.costs[k].cost, w, b.costs[k].policyWeight);
    TotalIsWeightedSum(a, Total(a));
    TotalIsWeightedSum(b, Total(b));
    CheaperFirst(d, i, j, Total(a), Total(b));
  }
}
