/** Ranking the candidates of a decision: hard constraints filter, then weighted cost, the vector
    of costs and the candidate id order what is left. Costs are real numbers here. */
module Ranking {
  import opened Base
  import opened Model
  import opened Sequences
  import opened Sorting

  type Cand = Candidate<real>
  type Rule = Constraint<real>
  type Dec = Decision<real>

  datatype Violation =
    | InsufficientTotal | InsufficientFree | QueueTooDeep | ArchitectureMismatch
    | MissingCapability(capability: Text) | NotHealthy

  datatype Eval = Satisfied | Violated(why: Violation) | NotEvaluable(field: Text)

  /** Exceptions: a value read as unsigned that is not, and a number outside its target type. */
  datatype Thrown = NotUnsigned | OutOfRange

  // ----- one hard constraint

  predicate Numeric(v: Value<real>) {
    v.Int? || v.UInt? || v.Double?
  }

  /** Only unsigned and non-negative integers can be read as unsigned. */
  function AsUint(v: Value<real>): Result<u64, Thrown> {
    match v
    case UInt(u) => Ok(u)
    case Int(i) => if i < 0 then Err(NotUnsigned) else Ok(i)
    case _ => Err(NotUnsigned)
  }

  function Bound(bad: bool, why: Violation): Eval {
    if bad then Violated(why) else Satisfied
  }

  function EvalConstraint(c: Cand, rule: Rule): Result<Eval, Thrown> {
    var f, v := rule.field, rule.value;
    if f == "memory.total_bytes" && Numeric(v) then
      var n :- AsUint(v);
      Ok(Bound(c.memory.totalBytes < n, InsufficientTotal))
    else if f == "memory.free_bytes" && Numeric(v) then
      var n :- AsUint(v);
      Ok(Bound(c.memory.freeBytes < n, InsufficientFree))
    else if f == "queue.depth" && Numeric(v) then
      var n :- AsUint(v);
      Ok(Bound(c.queue.depth > n, QueueTooDeep))
    else if f == "device.architecture" && v.Str? then Ok(Bound(c.architecture != v.s, ArchitectureMismatch))
    else if f == "capability" && v.Str? then Ok(Bound(v.s !in c.capabilities, MissingCapability(v.s)))
    else if f == "device.health" || f == "health" then
      Ok(Bound(c.health != HEALTH_HEALTHY && c.health != HEALTH_DEGRADED, NotHealthy))
    else Ok(NotEvaluable(f))
  }

  /** A numeric rule bounds by a number that is neither a double nor negative. */
  predicate WellTyped(rule: Rule) {
    rule.field == "memory.total_bytes" || rule.field == "memory.free_bytes" || rule.field == "queue.depth"
    ==> !rule.value.Double? && !(rule.value.Int? && rule.value.i < 0)
  }

  /** Whether a rule throws depends on the rule alone. */
  lemma ThrowsIffIllTyped(c: Cand, rule: Rule)
    ensures EvalConstraint(c, rule).Err? <==> !WellTyped(rule)
  {
  }

  predicate Violates(c: Cand, rule: Rule) {
    EvalConstraint(c, rule).Ok? && EvalConstraint(c, rule).value.Violated?
  }

  // ----- comparing candidates

  function SumOf(costs: seq<CostComponent<real>>): real {
    if costs == [] then 0.0
    else
      var n := |costs| - 1;
      SumOf(costs[..n]) + costs[n].cost * costs[n].policyWeight
  }

  function Total(c: Cand): real {
    SumOf(c.costs)
  }

  method WeightedTotal(c: Cand) returns (s: real)
    ensures s == Total(c)
  {
    s := 0.0;
    for i := 0 to |c.costs|
      invariant s == SumOf(c.costs[..i])
    {
      assert c.costs[..i + 1][..i] == c.costs[..i];
      s := s + c.costs[i].cost * c.costs[i].policyWeight;
    }
    assert c.costs[..|c.costs|] == c.costs;
  }

  function SignedCost(cost: CostComponent<real>): real {
    if cost.kind == COST_STATE_LOCALITY_BENEFIT then -cost.cost else cost.cost
  }

  /** The costs in order, a benefit counting negatively. */
  function Signature(c: Cand): seq<real> {
    MapSeq(SignedCost, c.costs)
  }

  method CostSignature(c: Cand) returns (v: seq<real>)
    ensures v == Signature(c)
  {
    v := [];
    for i := 0 to |c.costs|
      invariant v == MapSeq(SignedCost, c.costs[..i])
    {
      if c.costs[i].kind == COST_STATE_LOCALITY_BENEFIT {
        v := v + [-c.costs[i].cost];
      } else {
        v := v + [c.costs[i].cost];
      }
    }
    assert c.costs[..|c.costs|] == c.costs;
  }

  predicate RealLess(x: real, y: real) {
    x < y
  }

  predicate CostLess(a: Cand, b: Cand) {
    if Total(a) != Total(b) then Total(a) < Total(b)
    else if Signature(a) != Signature(b) then LexLess(Signature(a), Signature(b), RealLess)
    else a.candidateId < b.candidateId
  }

  predicate HasCosts(c: Cand) {
    c.costs != []
  }

  /** The comparator of the ranking: with cost evidence before without, then by cost, then by id. */
  predicate Before(a: Cand, b: Cand) {
    if HasCosts(a) != HasCosts(b) then HasCosts(a)
    else if !HasCosts(a) then a.candidateId < b.candidateId
    else if CostLess(a, b) then true
    else if CostLess(b, a) then false
    else a.candidateId < b.candidateId
  }

  /** What the comparator looks at. */
  predicate SameKey(a: Cand, b: Cand) {
    && a.candidateId == b.candidateId && HasCosts(a) == HasCosts(b)
    && (HasCosts(a) ==> Total(a) == Total(b) && Signature(a) == Signature(b))
  }

  lemma BeforeTransitive(a: Cand, b: Cand, c: Cand)
    requires Before(a, b) && Before(b, c)
    ensures Before(a, c)
  {
    hide Total, Signature;
    LexTotal(Signature(a), Signature(b), RealLess);
    LexTotal(Signature(b), Signature(c), RealLess);
    LexTotal(Signature(a), Signature(c), RealLess);
    if LexLess(Signature(a), Signature(b), RealLess) && LexLess(Signature(b), Signature(c), RealLess) {
      LexTransitive(Signature(a), Signature(b), Signature(c), RealLess);
    }
  }

  lemma BeforeTotal(a: Cand, b: Cand)
    ensures !(Before(a, b) && Before(b, a))
    ensures !Before(a, b) && !Before(b, a) ==> SameKey(a, b)
  {
    hide Total, Signature;
    LexTotal(Signature(a), Signature(b), RealLess);
  }

  lemma SameKeySameOrder(a: Cand, b: Cand, c: Cand)
    requires SameKey(a, b)
    ensures Before(a, c) == Before(b, c) && Before(c, a) == Before(c, b)
  {
    hide Total, Signature, LexLess;
  }

  /** The comparator is a strict weak order, and ties only candidates of the same id. */
  lemma BeforeIsStrictWeak()
    ensures StrictWeak(Before)
  {
    hide Before;
    forall a
      ensures !Before(a, a)
    {
      BeforeTotal(a, a);
    }
    forall a, b, c | Before(a, b) && Before(b, c)
      ensures Before(a, c)
    {
      BeforeTransitive(a, b, c);
    }
    forall a, b, c | Before(a, b)
      ensures Before(a, c) || Before(c, b)
    {
      if !Before(a, c) && !Before(c, a) {
        BeforeTotal(a, c);
        SameKeySameOrder(a, c, b);
      } else if Before(c, a) {
        BeforeTransitive(c, a, b);
      }
    }
  }

  predicate DistinctIds(cs: seq<Cand>) {
    forall i, j :: 0 <= i < j < |cs| ==> cs[i].candidateId != cs[j].candidateId
  }

  lemma DistinctIsTotal(cs: seq<Cand>)
    requires DistinctIds(cs)
    ensures TotalOn(cs, Before)
  {
    hide Before;
    forall a, b | a in cs && b in cs && a != b
      ensures Before(a, b) || Before(b, a)
    {
      BeforeTotal(a, b);
    }
  }

  // ----- screening

  /** Why a candidate is rejected, if it is, and the fields that could not be judged before. */
  datatype Screening = Screening(rejected: Option<Violation>, unverifiable: seq<Text>)

  function Prepend(fields: seq<Text>, r: Result<Screening, Thrown>): Result<Screening, Thrown> {
    match r
    case Err(e) => Err(e)
    case Ok(s) => Ok(s.(unverifiable := fields + s.unverifiable))
  }

  lemma PrependLaws(fields: seq<Text>, more: seq<Text>, r: Result<Screening, Thrown>)
    ensures Prepend([], r) == r && Prepend(fields, Prepend(more, r)) == Prepend(fields + more, r)
  {
    if r.Ok? {
      assert [] + r.value.unverifiable == r.value.unverifiable;
      assert fields + (more + r.value.unverifiable) == fields + more + r.value.unverifiable;
    }
  }

  lemma PrependNothing(fields: seq<Text>, r: Result<Screening, Thrown>)
    requires r.Ok? ==> r.value.unverifiable == []
    ensures Prepend(fields, r) == if r.Ok? then Ok(r.value.(unverifiable := fields)) else r
  {
    assert fields + [] == fields;
  }

  /** The rules in order, up to the first violation. */
  function Screen(c: Cand, rules: seq<Rule>): Result<Screening, Thrown>
    decreases |rules|
  {
    if rules == [] then Ok(Screening(None, []))
    else
      match EvalConstraint(c, rules[0])
      case Err(e) => Err(e)
      case Ok(Violated(why)) => Ok(Screening(Some(why), []))
      case Ok(NotEvaluable(f)) => Prepend([f], Screen(c, rules[1..]))
      case Ok(Satisfied) => Screen(c, rules[1..])
  }

  method ScreenCandidate(c: Cand, rules: seq<Rule>) returns (r: Result<Screening, Thrown>)
    ensures r == Screen(c, rules)
  {
    hide EvalConstraint, Prepend;
    var unverifiable: seq<Text> := [];
    var i := 0;
    assert rules[0..] == rules;
    PrependLaws([], [], Screen(c, rules));
    while i < |rules|
      invariant 0 <= i <= |rules|
      invariant Screen(c, rules) == Prepend(unverifiable, Screen(c, rules[i..]))
    {
      var tail := rules[i + 1..];
      assert rules[i..][1..] == tail;
      var e := EvalConstraint(c, rules[i]);
      if e.Err? {
        PrependNothing(unverifiable, Err(e.error));
        return Err(e.error);
      }
      if e.value.Violated? {
        PrependNothing(unverifiable, Ok(Screening(Some(e.value.why), [])));
        return Ok(Screening(Some(e.value.why), unverifiable));
      }
      if e.value.NotEvaluable? {
        PrependLaws(unverifiable, [e.value.field], Screen(c, tail));
        unverifiable := unverifiable + [e.value.field];
      }
      i := i + 1;
    }
    PrependNothing(unverifiable, Ok(Screening(None, [])));
    return Ok(Screening(None, unverifiable));
  }

  /** The candidate meets every rule that can be judged. */
  predicate Survives(c: Cand, rules: seq<Rule>) {
    forall i :: 0 <= i < |rules| ==> !Violates(c, rules[i])
  }

  function Alive(rules: seq<Rule>): Cand -> bool {
    c => Survives(c, rules)
  }

  /** Screening throws exactly when an ill-typed rule comes before the first violated one;
      otherwise it rejects exactly the candidates that violate some rule. */
  lemma {:induction false} ScreenIsSurvival(c: Cand, rules: seq<Rule>)
    ensures Screen(c, rules).Err? <==> exists k :: 0 <= k < |rules| && !WellTyped(rules[k]) && Survives(c, rules[..k])
    ensures Screen(c, rules).Ok? ==> (Screen(c, rules).value.rejected.None? <==> Survives(c, rules))
    decreases |rules|
  {
    hide EvalConstraint, WellTyped;
    if rules == [] {
    } else {
      var tail := rules[1..];
      ThrowsIffIllTyped(c, rules[0]);
      ScreenIsSurvival(c, tail);
      assert forall i :: 0 <= i < |tail| ==> tail[i] == rules[i + 1];
      assert Survives(c, rules) <==> !Violates(c, rules[0]) && Survives(c, tail);
      forall k | 0 <= k < |tail|
        ensures Survives(c, rules[..k + 1]) <==> !Violates(c, rules[0]) && Survives(c, tail[..k])
      {
        assert forall i :: 0 <= i < k ==> tail[..k][i] == rules[..k + 1][i + 1];
      }
      assert Survives(c, rules[..0]);
      if Screen(c, tail).Err? && !Violates(c, rules[0]) && WellTyped(rules[0]) {
        var k :| 0 <= k < |tail| && !WellTyped(tail[k]) && Survives(c, tail[..k]);
        assert !WellTyped(rules[k + 1]) && Survives(c, rules[..k + 1]);
      }
      if k :| 0 <= k < |rules| && !WellTyped(rules[k]) && Survives(c, rules[..k]) {
        if k > 0 {
          assert !WellTyped(tail[k - 1]) && Survives(c, tail[..k - 1]);
        }
      }
    }
  }

  // ----- ranking

  datatype Missing =
    | Unverifiable(field: Text)
    | NoCostEvidence(candidateId: u64)
    | FieldMissing(field: Text)
    | EmptyCandidateSet

  /** `costRanked` selects the note: whether any candidate carries costs. */
  datatype RankingResult = RankingResult(
    ranked: seq<u64>, selected: u64, totals: map<u64, real>, rejections: map<u64, Violation>,
    missing: seq<Missing>, costRanked: bool)

  datatype Screened = Screened(survivors: seq<Cand>, rejections: map<u64, Violation>, missing: seq<Missing>)

  function AsUnverifiable(f: Text): Missing {
    Unverifiable(f)
  }

  function AsFieldMissing(f: Text): Missing {
    FieldMissing(f)
  }

  function Sift(acc: Screened, c: Cand, s: Screening): Screened {
    var acc := acc.(missing := acc.missing + MapSeq(AsUnverifiable, s.unverifiable));
    if s.rejected.Some? then acc.(rejections := acc.rejections[c.candidateId := s.rejected.value])
    else acc.(survivors := acc.survivors + [c])
  }

  /** All candidates in presentation order; the first exception ends it. */
  function ScreenAll(cs: seq<Cand>, rules: seq<Rule>): Result<Screened, Thrown>
    decreases |cs|
  {
    if cs == [] then Ok(Screened([], map[], []))
    else
      var n := |cs| - 1;
      var acc :- ScreenAll(cs[..n], rules);
      var s :- Screen(cs[n], rules);
      Ok(Sift(acc, cs[n], s))
  }

  function IdOf(c: Cand): u64 {
    c.candidateId
  }

  function TotalsOf(cs: seq<Cand>): map<u64, real> {
    if cs == [] then map[]
    else
      var n := |cs| - 1;
      TotalsOf(cs[..n])[cs[n].candidateId := Total(cs[n])]
  }

  function WithoutCosts(cs: seq<Cand>): seq<Missing> {
    if cs == [] then []
    else
      var n := |cs| - 1;
      WithoutCosts(cs[..n]) + if HasCosts(cs[n]) then [] else [NoCostEvidence(cs[n].candidateId)]
  }

  predicate AnyCosts(cs: seq<Cand>) {
    exists i :: 0 <= i < |cs| && HasCosts(cs[i])
  }

  function Arranged(survivors: seq<Cand>): seq<Cand> {
    Sort(survivors, Before)
  }

  function Rank(d: Dec): Result<RankingResult, Thrown> {
    var cs := d.candidateSet.candidates;
    var s :- ScreenAll(cs, d.hardConstraints);
    var arranged := Arranged(s.survivors);
    Ok(RankingResult(
         MapSeq(IdOf, arranged), if arranged == [] then 0 else arranged[0].candidateId,
         TotalsOf(arranged), s.rejections,
         s.missing + WithoutCosts(arranged) + MapSeq(AsFieldMissing, d.candidateSet.missingFields), AnyCosts(cs)))
  }

  method ScreenCandidates(cs: seq<Cand>, rules: seq<Rule>) returns (res: Result<Screened, Thrown>, hasCosts: bool)
    ensures res == ScreenAll(cs, rules)
    ensures res.Ok? ==> (hasCosts <==> AnyCosts(cs))
  {
    hide Screen, HasCosts, Sift;
    var acc := Screened([], map[], []);
    hasCosts := false;
    for i := 0 to |cs|
      invariant ScreenAll(cs[..i], rules) == Ok(acc)
      invariant hasCosts <==> AnyCosts(cs[..i])
    {
      assert cs[..i + 1][..i] == cs[..i];
      if HasCosts(cs[i]) {
        hasCosts := true;
      }
      var screening := ScreenCandidate(cs[i], rules);
      if screening.Err? {
        ScreenAllStops(cs, rules, i + 1);
        return Err(screening.error), hasCosts;
      }
      acc := Sift(acc, cs[i], screening.value);
    }
    assert cs[..|cs|] == cs;
    return Ok(acc), hasCosts;
  }

  method RankCandidates(d: Dec) returns (res: Result<RankingResult, Thrown>)
    ensures res == Rank(d)
  {
    hide Screen, Sort, Before, HasCosts, MapSeq, ScreenAll, AnyCosts;
    var screened, hasCosts := ScreenCandidates(d.candidateSet.candidates, d.hardConstraints);
    var acc :- screened;
    var arranged := Arranged(acc.survivors);
    var ranked: seq<u64>, totals: map<u64, real>, missing := [], map[], acc.missing;
    NothingArranged(acc.missing);
    for i := 0 to |arranged|
      invariant ranked == MapSeq(IdOf, arranged[..i]) && totals == TotalsOf(arranged[..i])
      invariant missing == acc.missing + WithoutCosts(arranged[..i])
    {
      assert arranged[..i + 1][..i] == arranged[..i];
      MapSnoc(IdOf, arranged[..i], arranged[i]);
      assert arranged[..i] + [arranged[i]] == arranged[..i + 1];
      ranked := ranked + [arranged[i].candidateId];
      var total := WeightedTotal(arranged[i]);
      totals := totals[arranged[i].candidateId := total];
      if !HasCosts(arranged[i]) {
        missing := missing + [NoCostEvidence(arranged[i].candidateId)];
      }
    }
    assert arranged[..|arranged|] == arranged;
    var selected := if arranged == [] then 0 else arranged[0].candidateId;
    missing := missing + MapSeq(AsFieldMissing, d.candidateSet.missingFields);
    return Ok(RankingResult(ranked, selected, totals, acc.rejections, missing, hasCosts));
  }

  lemma NothingArranged(missing: seq<Missing>)
    ensures MapSeq(IdOf, []) == [] && missing == missing + WithoutCosts([])
  {
  }

  lemma {:induction false} ScreenAllStops(cs: seq<Cand>, rules: seq<Rule>, n: nat)
    requires n <= |cs| && ScreenAll(cs[..n], rules).Err?
    ensures ScreenAll(cs, rules) == ScreenAll(cs[..n], rules)
    decreases |cs| - n
  {
    hide Screen;
    if n < |cs| {
      assert cs[..n + 1][..n] == cs[..n];
      ScreenAllStops(cs, rules, n + 1);
    } else {
      assert cs[..n] == cs;
    }
  }

  // ----- what the ranking is

  /** Ranking fails exactly when some candidate reaches an ill-typed rule; otherwise the
      survivors are those that violate nothing, and each rejected candidate has its reason. */
  lemma {:induction false} ScreenAllIsFilter(cs: seq<Cand>, rules: seq<Rule>)
    ensures ScreenAll(cs, rules).Ok? <==> forall i :: 0 <= i < |cs| ==> Screen(cs[i], rules).Ok?
    ensures ScreenAll(cs, rules).Ok? ==> ScreenAll(cs, rules).value.survivors == Filter(Alive(rules), cs)
    decreases |cs|
  {
    hide Screen, Survives;
    if cs == [] {
    } else {
      var n := |cs| - 1;
      ScreenAllIsFilter(cs[..n], rules);
      ScreenIsSurvival(cs[n], rules);
      FilterSnoc(Alive(rules), cs[..n], cs[n]);
      assert cs == cs[..n] + [cs[n]];
      assert ScreenAll(cs, rules).Ok? ==> forall i :: 0 <= i < n ==> cs[..n][i] == cs[i];
    }
  }

  lemma {:induction false} RejectionsHold(cs: seq<Cand>, rules: seq<Rule>)
    requires DistinctIds(cs) && ScreenAll(cs, rules).Ok?
    ensures
      var r := ScreenAll(cs, rules).value.rejections;
      && (forall id :: id in r <==> exists i :: 0 <= i < |cs| && cs[i].candidateId == id && !Survives(cs[i], rules))
      && forall i :: 0 <= i < |cs| && !Survives(cs[i], rules) ==>
         Screen(cs[i], rules).Ok? && Screen(cs[i], rules).value.rejected == Some(r[cs[i].candidateId])
    decreases |cs|
  {
    hide Screen, Survives;
    if cs == [] {
    } else {
      var n := |cs| - 1;
      RejectionsHold(cs[..n], rules);
      ScreenIsSurvival(cs[n], rules);
      assert forall i :: 0 <= i < n ==> cs[..n][i] == cs[i];
    }
  }
}
