/** How rankings respond to changes of their input: presentation, rules, candidates. */
module RankingLaws {
  import opened Base
  import opened Model
  import opened Sequences
  import opened Sorting
  import opened Ranking

  function Candidates(d: Dec): seq<Cand> {
    d.candidateSet.candidates
  }

  function Survivors(cs: seq<Cand>, rules: seq<Rule>): seq<Cand> {
    Filter(Alive(rules), cs)
  }

  /** The surviving candidates in ranking order. */
  function Podium(d: Dec): seq<Cand> {
    Arranged(Survivors(Candidates(d), d.hardConstraints))
  }

  /** The reported ranking, selection and totals are those of the podium. */
  lemma RankIsPodium(d: Dec)
    requires Rank(d).Ok?
    ensures
      var r := Rank(d).value;
      && r.ranked == MapSeq(IdOf, Podium(d)) && r.totals == TotalsOf(Podium(d))
      && r.selected == if Podium(d) == [] then 0 else Podium(d)[0].candidateId
  {
    hide Screen, Sort, MapSeq, Survives;
    ScreenAllIsFilter(Candidates(d), d.hardConstraints);
  }

  lemma RankFails(d: Dec)
    ensures Rank(d).Err? <==> exists c :: c in Candidates(d) && Screen(c, d.hardConstraints).Err?
  {
    hide Screen, Sort, Survives;
    var cs := Candidates(d);
    ScreenAllIsFilter(cs, d.hardConstraints);
    if i :| 0 <= i < |cs| && Screen(cs[i], d.hardConstraints).Err? {
      assert cs[i] in cs;
    }
  }

  /** The head of an arrangement precedes or ties with everything in it. */
  lemma HeadIsBest(alive: seq<Cand>)
    requires alive != []
    ensures Arranged(alive) != [] && Arranged(alive)[0] in alive
    ensures forall b :: b in alive ==> !Before(b, Arranged(alive)[0])
  {
    hide Before;
    var podium := Arranged(alive);
    BeforeIsStrictWeak();
    SortSorts(alive, Before);
    SameMembers(alive, podium);
    assert |podium| == |multiset(podium)| == |alive|;
    assert podium[0] in podium;
    forall b | b in alive
      ensures !Before(b, podium[0])
    {
      LeastFirst(podium, b, Before);
    }
  }

  predicate Best(c: Cand, alive: seq<Cand>) {
    c in alive && forall b :: b in alive ==> !Before(b, c)
  }

  /** The selection is the id of a survivor that no other survivor precedes, and all such survivors
      have that id. It is nil if and only if nothing survives or a best survivor carries the nil
      id; with non-zero ids, if and only if nothing survives. */
  lemma SelectedIsBest(d: Dec)
    requires Rank(d).Ok?
    ensures
      var alive := Survivors(Candidates(d), d.hardConstraints);
      && (alive != [] ==> exists c :: Best(c, alive) && c.candidateId == Rank(d).value.selected)
      && (forall c :: Best(c, alive) ==> c.candidateId == Rank(d).value.selected)
      && (Rank(d).value.selected == 0 <==> alive == [] || exists c :: Best(c, alive) && c.candidateId == 0)
      && ((forall c :: c in alive ==> c.candidateId != 0) ==> (Rank(d).value.selected == 0 <==> alive == []))
  {
    hide Survives, Before, Screen, MapSeq, Rank, Sort, TotalsOf;
    var alive := Survivors(Candidates(d), d.hardConstraints);
    RankIsPodium(d);
    if alive == [] {
      NothingToArrange();
    } else {
      HeadIsBest(alive);
      assert Best(Podium(d)[0], alive);
      forall c | Best(c, alive)
        ensures c.candidateId == Podium(d)[0].candidateId
      {
        BeforeTotal(c, Podium(d)[0]);
      }
    }
  }

  lemma NothingToArrange()
    ensures Arranged([]) == []
  {
  }

  /** In ranking order candidates with cost evidence come first, dearer ones never before cheaper
      ones; equal totals are ordered by the cost vectors and, those being equal too, by id. */
  lemma PodiumOrder(d: Dec, i: nat, j: nat)
    requires i < j < |Podium(d)|
    ensures
      var a, b := Podium(d)[i], Podium(d)[j];
      && (HasCosts(b) ==> HasCosts(a) && Total(a) <= Total(b))
      && (HasCosts(b) && Total(a) == Total(b) ==> !LexLess(Signature(b), Signature(a), RealLess))
      && (HasCosts(b) && Total(a) == Total(b) && Signature(a) == Signature(b) ==> a.candidateId <= b.candidateId)
      && (!HasCosts(a) ==> a.candidateId <= b.candidateId)
  {
    hide Survives, Total, Signature, LexLess, Filter;
    BeforeIsStrictWeak();
    SortSorts(Survivors(Candidates(d), d.hardConstraints), Before);
    var a, b := Podium(d)[i], Podium(d)[j];
    assert !Before(b, a);
    LexTotal(Signature(a), Signature(b), RealLess);
  }

  /** The bound a numeric rule states, if it can be read as one. */
  function BoundOf(v: Value<real>): Option<nat> {
    match v
    case UInt(u) => Some(u)
    case Int(i) => if i >= 0 then Some(i) else None
    case _ => None
  }

  /** What it means for a candidate to meet a rule that can be judged. Health is a code: 1 stands for
      healthy, 2 for degraded. */
  predicate Satisfies(c: Cand, rule: Rule) {
    var f, v, bound := rule.field, rule.value, BoundOf(rule.value);
    && (f == "memory.total_bytes" && bound.Some? ==> c.memory.totalBytes >= bound.value)
    && (f == "memory.free_bytes" && bound.Some? ==> c.memory.freeBytes >= bound.value)
    && (f == "queue.depth" && bound.Some? ==> c.queue.depth <= bound.value)
    && (f == "device.architecture" && v.Str? ==> c.architecture == v.s)
    && (f == "capability" && v.Str? ==> v.s in c.capabilities)
    && (f == "device.health" || f == "health" ==> c.health == 1 || c.health == 2)
  }

  /** Every ranked candidate is one of those presented and satisfies every hard constraint. */
  lemma RankedSatisfyAll(d: Dec, i: nat, k: nat)
    requires i < |Podium(d)| && k < |d.hardConstraints|
    ensures Podium(d)[i] in Candidates(d) && Satisfies(Podium(d)[i], d.hardConstraints[k])
  {
    hide Sort, Before, Filter;
    var alive := Survivors(Candidates(d), d.hardConstraints);
    BeforeIsStrictWeak();
    SortSorts(alive, Before);
    SameMembers(alive, Podium(d));
    FilterMembers(Alive(d.hardConstraints), Candidates(d));
    var c := Podium(d)[i];
    assert c in alive;
    var j :| 0 <= j < |alive| && alive[j] == c;
    assert Survives(c, d.hardConstraints);
    NotViolatedIsSatisfied(c, d.hardConstraints[k]);
  }

  /** Violating a rule is failing to satisfy it, in both directions. */
  lemma NotViolatedIsSatisfied(c: Cand, rule: Rule)
    ensures !Violates(c, rule) <==> Satisfies(c, rule)
  {
  }

  // ----- presentation

  predicate SameId(a: Cand, b: Cand) {
    a.candidateId == b.candidateId
  }

  lemma DistinctPermutes(cs1: seq<Cand>, cs2: seq<Cand>)
    requires multiset(cs1) == multiset(cs2) && DistinctIds(cs1)
    ensures DistinctIds(cs2)
  {
    assert !Clashing(cs1, SameId);
    ClashingPermutes(cs1, cs2, SameId);
    assert forall i, j :: 0 <= i < j < |cs2| ==> !SameId(cs2[i], cs2[j]);
  }

  lemma SameMembers<T>(s: seq<T>, t: seq<T>)
    requires multiset(s) == multiset(t)
    ensures forall i :: 0 <= i < |s| ==> s[i] in t
    ensures forall i :: 0 <= i < |t| ==> t[i] in s
  {
    assert forall i :: 0 <= i < |s| ==> s[i] in multiset(s);
    assert forall i :: 0 <= i < |t| ==> t[i] in multiset(t);
  }

  lemma PodiumPermutes(d1: Dec, d2: Dec)
    requires d1.hardConstraints == d2.hardConstraints && multiset(Candidates(d1)) == multiset(Candidates(d2))
    requires DistinctIds(Candidates(d1))
    ensures Podium(d1) == Podium(d2)
  {
    hide Survives, Before;
    var p := Alive(d1.hardConstraints);
    FilterPermutes(p, Candidates(d1), Candidates(d2));
    BeforeIsStrictWeak();
    DistinctIsTotal(Candidates(d1));
    FilterMembers(p, Candidates(d1));
    var alive := Survivors(Candidates(d1), d1.hardConstraints);
    assert forall a :: a in alive ==> a in Candidates(d1);
    assert TotalOn(alive, Before);
    SortOfPermutation(Survivors(Candidates(d1), d1.hardConstraints),
      Survivors(Candidates(d2), d2.hardConstraints), Before);
  }

  lemma RejectionsPermute(cs1: seq<Cand>, cs2: seq<Cand>, rules: seq<Rule>)
    requires multiset(cs1) == multiset(cs2) && DistinctIds(cs1)
    requires ScreenAll(cs1, rules).Ok? && ScreenAll(cs2, rules).Ok?
    ensures ScreenAll(cs1, rules).value.rejections == ScreenAll(cs2, rules).value.rejections
  {
    hide Survives, Screen, ScreenAll;
    DistinctPermutes(cs1, cs2);
    SameMembers(cs1, cs2);
    RejectionsHold(cs1, rules);
    RejectionsHold(cs2, rules);
    var r1, r2 := ScreenAll(cs1, rules).value.rejections, ScreenAll(cs2, rules).value.rejections;
    forall id
      ensures id in r1 <==> id in r2
      ensures id in r1 && id in r2 ==> r1[id] == r2[id]
    {
      if id in r1 {
        var i :| 0 <= i < |cs1| && cs1[i].candidateId == id && !Survives(cs1[i], rules);
        assert cs1[i] in cs2;
        var j :| 0 <= j < |cs2| && cs2[j] == cs1[i];
      }
      if id in r2 {
        var j :| 0 <= j < |cs2| && cs2[j].candidateId == id && !Survives(cs2[j], rules);
        assert cs2[j] in cs1;
        var i :| 0 <= i < |cs1| && cs1[i] == cs2[j];
      }
    }
  }

  /** Presentation independence: with distinct ids, listing the candidates in any other order gives
      the same ranking, selection, totals and rejections, and fails exactly alike. */
  lemma PresentationIndependent(d1: Dec, d2: Dec)
    requires d1.hardConstraints == d2.hardConstraints && multiset(Candidates(d1)) == multiset(Candidates(d2))
    requires DistinctIds(Candidates(d1))
    ensures Rank(d1).Ok? <==> Rank(d2).Ok?
    ensures Rank(d1).Ok? ==>
              var r1, r2 := Rank(d1).value, Rank(d2).value;
              r1.ranked == r2.ranked && r1.selected == r2.selected && r1.totals == r2.totals
              && r1.rejections == r2.rejections
  {
    hide Survives, Screen, ScreenAll, Podium, TotalsOf, WithoutCosts, Arranged, MapSeq;
    RankFails(d1);
    RankFails(d2);
    SameMembers(Candidates(d1), Candidates(d2));
    if Rank(d1).Ok? {
      RankIsPodium(d1);
      RankIsPodium(d2);
      PodiumPermutes(d1, d2);
      RejectionsPermute(Candidates(d1), Candidates(d2), d1.hardConstraints);
    }
  }

  // ----- rules

  function WithRule(d: Dec, k: nat, rule: Rule): Dec
    requires k <= |d.hardConstraints|
  {
    d.(hardConstraints := d.hardConstraints[..k] + [rule] + d.hardConstraints[k..])
  }

  function Meets(rule: Rule): Cand -> bool {
    c => !Violates(c, rule)
  }

  lemma SurvivesWithRule(c: Cand, rules: seq<Rule>, k: nat, rule: Rule)
    requires k <= |rules|
    ensures Survives(c, rules[..k] + [rule] + rules[k..]) <==> Survives(c, rules) && !Violates(c, rule)
  {
    hide Violates;
    var more := rules[..k] + [rule] + rules[k..];
    assert forall i :: 0 <= i < k ==> more[i] == rules[i];
    assert forall i :: k <= i < |rules| ==> rules[i] == more[i + 1];
    assert more[k] == rule;
  }

  /** An extra hard constraint, wherever it is put, only takes its violators out: the others keep
      their places. */
  lemma AddedRuleOnlyFilters(d: Dec, k: nat, rule: Rule)
    requires k <= |d.hardConstraints| && Rank(d).Ok? && Rank(WithRule(d, k, rule)).Ok?
    ensures Podium(WithRule(d, k, rule)) == Filter(Meets(rule), Podium(d))
    ensures Rank(d).value.ranked == MapSeq(IdOf, Podium(d))
    ensures Rank(WithRule(d, k, rule)).value.ranked == MapSeq(IdOf, Filter(Meets(rule), Podium(d)))
  {
    hide Survives, Violates, Before, Rank;
    var rules, more := d.hardConstraints, WithRule(d, k, rule).hardConstraints;
    var cs := Candidates(d);
    RankIsPodium(d);
    RankIsPodium(WithRule(d, k, rule));
    BeforeIsStrictWeak();
    FilterSort(Meets(rule), Survivors(cs, rules), Before);
    forall i | 0 <= i < |cs|
      ensures Alive(more)(cs[i]) == (Alive(rules)(cs[i]) && Meets(rule)(cs[i]))
    {
      SurvivesWithRule(cs[i], rules, k, rule);
    }
    FilterFilter(Meets(rule), Alive(rules), Alive(more), cs);
  }

  /** Passing a prefix of the extended list means passing the corresponding prefix of the old. */
  lemma PrefixWithRule(c: Cand, rules: seq<Rule>, k: nat, rule: Rule, j: nat)
    requires k <= |rules| && j <= |rules| && j != k
    requires Survives(c, (rules[..k] + [rule] + rules[k..])[..j])
    ensures var i := if j < k then j else j - 1;
            (rules[..k] + [rule] + rules[k..])[j] == rules[i] && Survives(c, rules[..i])
  {
    hide Violates;
    var more := rules[..k] + [rule] + rules[k..];
    if j < k {
      assert more[..j] == rules[..j];
    } else {
      assert more[..j] == rules[..j - 1][..k] + [rule] + rules[..j - 1][k..];
      SurvivesWithRule(c, rules[..j - 1], k, rule);
    }
  }

  /** A well-typed extra constraint never makes the ranking fail. */
  lemma AddedRuleDoesNotThrow(d: Dec, k: nat, rule: Rule)
    requires k <= |d.hardConstraints| && Rank(d).Ok? && WellTyped(rule)
    ensures Rank(WithRule(d, k, rule)).Ok?
  {
    hide Screen, Survives, WellTyped, Rank, Violates;
    var rules, more := d.hardConstraints, WithRule(d, k, rule).hardConstraints;
    RankFails(d);
    RankFails(WithRule(d, k, rule));
    forall c | c in Candidates(d)
      ensures Screen(c, more).Ok?
    {
      ScreenIsSurvival(c, rules);
      ScreenIsSurvival(c, more);
      if j :| 0 <= j < |more| && !WellTyped(more[j]) && Survives(c, more[..j]) {
        PrefixWithRule(c, rules, k, rule, j);
      }
    }
  }

  lemma SurvivesPermutes(c: Cand, rules1: seq<Rule>, rules2: seq<Rule>)
    requires multiset(rules1) == multiset(rules2)
    ensures Survives(c, rules1) ==> Survives(c, rules2)
  {
    hide Violates;
    SameMembers(rules1, rules2);
    if Survives(c, rules1) {
      forall i | 0 <= i < |rules2|
        ensures !Violates(c, rules2[i])
      {
        assert rules2[i] in rules1;
      }
    }
  }

  /** With well-typed rules a ranking never fails. */
  lemma WellTypedRulesRank(d: Dec)
    requires forall i :: 0 <= i < |d.hardConstraints| ==> WellTyped(d.hardConstraints[i])
    ensures Rank(d).Ok?
  {
    hide Screen, Survives, WellTyped, Rank;
    RankFails(d);
    forall c | c in Candidates(d)
      ensures Screen(c, d.hardConstraints).Ok?
    {
      ScreenIsSurvival(c, d.hardConstraints);
    }
  }

  /** The order in which hard constraints are listed does not matter to the ranking, as long as it
      does not fail; and with well-typed rules it does not. */
  lemma RuleOrderIrrelevant(d1: Dec, d2: Dec)
    requires Candidates(d1) == Candidates(d2) && multiset(d1.hardConstraints) == multiset(d2.hardConstraints)
    ensures (forall r :: r in d1.hardConstraints ==> WellTyped(r)) ==> Rank(d1).Ok? && Rank(d2).Ok?
    ensures Rank(d1).Ok? && Rank(d2).Ok? ==>
              var r1, r2 := Rank(d1).value, Rank(d2).value;
              r1.ranked == r2.ranked && r1.selected == r2.selected && r1.totals == r2.totals
  {
    hide Survives, Rank, Arranged, TotalsOf, MapSeq, WellTyped;
    var cs := Candidates(d1);
    SameMembers(d1.hardConstraints, d2.hardConstraints);
    if forall r :: r in d1.hardConstraints ==> WellTyped(r) {
      WellTypedRulesRank(d1);
      WellTypedRulesRank(d2);
    }
    if Rank(d1).Ok? && Rank(d2).Ok? {
      RankIsPodium(d1);
      RankIsPodium(d2);
      forall i | 0 <= i < |cs|
        ensures Survives(cs[i], d1.hardConstraints) == Survives(cs[i], d2.hardConstraints)
      {
        SurvivesPermutes(cs[i], d1.hardConstraints, d2.hardConstraints);
        SurvivesPermutes(cs[i], d2.hardConstraints, d1.hardConstraints);
      }
      FilterSame(Alive(d1.hardConstraints), Alive(d2.hardConstraints), cs);
    }
  }

  function WithRules(d: Dec, rules: seq<Rule>): Dec {
    d.(hardConstraints := rules)
  }

  /** An ill-typed rule put first makes the ranking of any candidate fail. */
  lemma IllTypedFirstThrows(d: Dec, rule: Rule, rest: seq<Rule>)
    requires Candidates(d) != [] && !WellTyped(rule)
    ensures Rank(WithRules(d, [rule] + rest)).Err?
  {
    hide Screen, WellTyped, Rank;
    var rules, c := [rule] + rest, Candidates(d)[0];
    RankFails(WithRules(d, rules));
    ScreenIsSurvival(c, rules);
    assert !WellTyped(rules[0]) && Survives(c, rules[..0]);
    assert c in Candidates(WithRules(d, rules));
  }

  /** The order of the hard constraints can make a ranking fail: none of their orders does if and
      only if there is nothing to rank or every rule is well-typed. */
  lemma EveryOrderRanks(d: Dec)
    ensures
      (forall rs: seq<Rule> :: multiset(rs) == multiset(d.hardConstraints) ==> Rank(WithRules(d, rs)).Ok?)
      <==> Candidates(d) == [] || forall r :: r in d.hardConstraints ==> WellTyped(r)
  {
    hide WellTyped, Rank, Screen;
    var rules := d.hardConstraints;
    if Candidates(d) == [] || forall r :: r in rules ==> WellTyped(r) {
      forall rs: seq<Rule> | multiset(rs) == multiset(rules)
        ensures Rank(WithRules(d, rs)).Ok?
      {
        if Candidates(d) == [] {
          RankFails(WithRules(d, rs));
        } else {
          SameMembers(rs, rules);
          WellTypedRulesRank(WithRules(d, rs));
        }
      }
    } else {
      var r :| r in rules && !WellTyped(r);
      var k :| 0 <= k < |rules| && rules[k] == r;
      var rest := rules[..k] + rules[k + 1..];
      assert rules == rules[..k] + [r] + rules[k + 1..];
      assert multiset([r] + rest) == multiset(rules);
      IllTypedFirstThrows(d, r, rest);
    }
  }

  // ----- inputs that show what fails

  function NoProvenance(): Provenance {
    Provenance(0, 0, 0, 0, 0, 0, Timestamp(0, 0, 0), 0, 0, 0, [], [], [])
  }

  /** A candidate of id 0 that has no memory, an empty queue and no costs. */
  function NilCandidate(): Cand {
    Candidate(0, 1, 1, 1, [], [], HEALTH_HEALTHY, MemoryDescriptor(0, 0, 0, 0, 0.0),
              QueueDescriptor([], 0, 0, 0, 0, 0, 0), [], [], 0.0, None, None)
  }

  function NilDecision(rules: seq<Rule>): Dec {
    Decision(1, 1, 1, 1, 0, 0, 0, 0, 0, 0, 0, 0, CandidateSet([NilCandidate()], true, false, 0, [], []), 0, [], rules,
             [], [], [], 0, [], [], [], Confidence(0, 0.0, 0.0, []), 0, 0, NoProvenance(), None, 0)
  }

  function NeedsMemory(): Rule {
    Constraint(0, 0, "memory.total_bytes", UInt(1), [], 0, NoProvenance())
  }

  function BoundsQueueByDouble(): Rule {
    Constraint(0, 0, "queue.depth", Double(1.5), [], 0, NoProvenance())
  }

  /** The nil id is not reserved: one candidate of id 0, under no rules, survives and is selected
      as nil. */
  lemma NilIsSelected()
    ensures
      var d := NilDecision([]);
      && Survivors(Candidates(d), d.hardConstraints) == [NilCandidate()]
      && Rank(d).Ok? && Rank(d).value.selected == 0 && Rank(d).value.ranked == [0]
  {
    hide Rank, NilCandidate, NilDecision, Survivors;
    NilParts();
    SoleCandidate(NilDecision([]), NilCandidate());
  }

  lemma NilParts()
    ensures Candidates(NilDecision([])) == [NilCandidate()] && NilDecision([]).hardConstraints == []
    ensures NilCandidate().candidateId == 0
  {
  }

  /** A sole candidate under no rules is ranked alone and selected. */
  lemma SoleCandidate(d: Dec, c: Cand)
    requires Candidates(d) == [c] && d.hardConstraints == []
    ensures Survivors(Candidates(d), d.hardConstraints) == [c]
    ensures Rank(d).Ok? && Rank(d).value.selected == c.candidateId && Rank(d).value.ranked == [c.candidateId]
  {
    hide Before, Rank, TotalsOf, Violates;
    WellTypedRulesRank(d);
    RankIsPodium(d);
    assert Alive(d.hardConstraints)(c);
    FilterCons(Alive(d.hardConstraints), c, []);
    assert [c] + [] == [c] && [c][1..] == [];
    NothingToArrange();
    assert Arranged([c]) == [c];
    assert MapSeq(IdOf, [c]) == [c.candidateId];
  }

  /** A rule the candidate violates and one that throws: with the violated one first the ranking
      succeeds, with the other first it fails. */
  lemma SwappedRulesThrow()
    ensures Rank(NilDecision([NeedsMemory(), BoundsQueueByDouble()])).Ok?
    ensures Rank(NilDecision([BoundsQueueByDouble(), NeedsMemory()])).Err?
  {
    hide Screen, Rank;
    var needs, bounds := NeedsMemory(), BoundsQueueByDouble();
    var rules := [needs, bounds];
    SampleRules();
    RankFails(NilDecision(rules));
    ScreenIsSurvival(NilCandidate(), rules);
    assert rules[..1][0] == needs;
    assert !Survives(NilCandidate(), rules[..1]);
    IllTypedFirstThrows(NilDecision([]), bounds, [needs]);
    assert [bounds] + [needs] == [bounds, needs];
  }

  lemma SampleRules()
    ensures Violates(NilCandidate(), NeedsMemory()) && WellTyped(NeedsMemory()) && !WellTyped(BoundsQueueByDouble())
  {
  }

  // ----- candidates

  function Other(id: u64): Cand -> bool {
    c => IdOf(c) != id
  }

  /** The decision without the candidates of that id. */
  function Without(d: Dec, id: u64): Dec {
    d.(candidateSet := d.candidateSet.(candidates := Filter(Other(id), Candidates(d))))
  }

  lemma PodiumWithout(d: Dec, id: u64)
    ensures Podium(Without(d, id)) == Filter(Other(id), Podium(d))
  {
    hide Survives, Before;
    var q := Alive(d.hardConstraints);
    var both := c => q(c) && Other(id)(c);
    BeforeIsStrictWeak();
    FilterSort(Other(id), Survivors(Candidates(d), d.hardConstraints), Before);
    FilterFilter(Other(id), q, both, Candidates(d));
    FilterFilter(q, Other(id), both, Candidates(d));
  }

  /** Deleting a candidate that was not selected never changes the selection, and leaves the
      others in place. */
  lemma DeletionKeepsSelection(d: Dec, id: u64)
    requires Rank(d).Ok? && id != Rank(d).value.selected
    ensures Rank(Without(d, id)).Ok? && Rank(Without(d, id)).value.selected == Rank(d).value.selected
    ensures Rank(Without(d, id)).value.ranked == MapSeq(IdOf, Filter(Other(id), Podium(d)))
  {
    hide Survives, Screen, Rank, Arranged, TotalsOf;
    RankFails(d);
    RankFails(Without(d, id));
    FilterMembers(Other(id), Candidates(d));
    assert forall c :: c in Candidates(Without(d, id)) ==> c in Candidates(d);
    RankIsPodium(d);
    RankIsPodium(Without(d, id));
    PodiumWithout(d, id);
  }
}
