/** What-if rankings over a copy of the candidates, and replay of a recorded decision. Doubles are
    exact reals here; a conversion whose value the target type cannot hold is reported as a failure. */
module Counterfactual {
  import opened Base
  import opened Decimal
  import opened Model
  import opened Sequences
  import opened Sorting
  import opened Ranking
  import opened RankingLaws

  datatype Change = Change(field: Text, newValue: Value<real>, relative: bool)

  // ----- the target of a change

  /** The position of the last colon. */
  function LastColon(s: Text): Option<nat>
    decreases |s|
  {
    if s == [] then None
    else if s[|s| - 1] == ':' then Some(|s| - 1)
    else LastColon(s[..|s| - 1])
  }

  /** "name:digits" addresses one candidate; anything else addresses all. An id too large for its
      type throws. */
  function Target(field: Text): Result<(Option<u64>, Text), Thrown> {
    match LastColon(field)
    case None => Ok((None, field))
    case Some(p) =>
      LastColonIsColon(field);
      var tail: Text := field[p + 1..];
      if tail == [] || !AllDigits(tail) then Ok((None, field))
      else if DecimalValue(tail) >= TWO64 then Err(OutOfRange)
      else Ok((Some(DecimalValue(tail)), field[..p]))
  }

  lemma {:induction false} LastColonIsColon(s: Text)
    ensures match LastColon(s)
            case None => forall i :: 0 <= i < |s| ==> s[i] != ':'
            case Some(p) => p < |s| && s[p] == ':' && forall i :: p < i < |s| ==> s[i] != ':'
    decreases |s|
  {
    if s == [] {
    } else {
      LastColonIsColon(s[..|s| - 1]);
    }
  }

  // ----- conversions

  function AsReal(v: Value<real>): real {
    match v
    case Double(d) => d
    case Int(i) => i as real
    case UInt(u) => u as real
    case _ => 0.0
  }

  /** Toward zero. */
  function Truncate(x: real): int {
    if x >= 0.0 then x.Floor else -(-x).Floor
  }

  function Clamped(x: real): Result<u64, Thrown> {
    if x <= 0.0 then Ok(0)
    else if x.Floor >= TWO64 then Err(OutOfRange)
    else Ok(x.Floor)
  }

  /** A 32-bit value seen as a signed one. */
  function AsInt32(n: u32): int {
    if n < TWO32 / 2 then n else n - TWO32
  }

  function DepthAfter(n: int): Result<u32, Thrown> {
    if n >= TWO32 / 2 || n < -(TWO32 / 2) then Err(OutOfRange)
    else if n < 0 then Ok(0)
    else Ok(n)
  }

  function SetFree(m: MemoryDescriptor<real>, free: u64): MemoryDescriptor<real> {
    m.(freeBytes := free, usedBytes := if m.totalBytes > free then m.totalBytes - free else 0)
  }

  function SetTransfer(x: real): CostComponent<real> -> CostComponent<real> {
    (c: CostComponent<real>) => if c.kind == COST_TRANSFER then c.(cost := x) else c
  }

  // ----- changes

  /** The named input of one candidate, perturbed; an unknown name does nothing. */
  function Perturb(c: Cand, name: Text, x: real, relative: bool): Result<Cand, Thrown> {
    if name == "memory.free_bytes" then
      var free :- Clamped(if relative then c.memory.freeBytes as real + x else x);
      Ok(c.(memory := SetFree(c.memory, free)))
    else if name == "queue.depth" then
      var step := Truncate(x);
      if step >= TWO32 / 2 || step < -(TWO32 / 2) then Err(OutOfRange)
      else
        var depth :- DepthAfter(if relative then AsInt32(c.queue.depth) + step else step);
        Ok(c.(queue := c.queue.(depth := depth)))
    else if name == "memory.total_bytes" then
      var total :- Clamped(x);
      Ok(c.(memory := c.memory.(totalBytes := total)))
    else if name == "transfer_cost" then Ok(c.(costs := MapSeq(SetTransfer(x), c.costs)))
    else Ok(c)
  }

  function ApplyChange(c: Cand, ch: Change): Result<Cand, Thrown> {
    var (id, name) :- Target(ch.field);
    if id.Some? && c.candidateId != id.value then Ok(c)
    else Perturb(c, name, AsReal(ch.newValue), ch.relative)
  }

  /** All changes to one candidate, in order. */
  function ApplyChanges(c: Cand, changes: seq<Change>): Result<Cand, Thrown>
    decreases |changes|
  {
    if changes == [] then Ok(c)
    else
      var n := |changes| - 1;
      var d :- ApplyChanges(c, changes[..n]);
      ApplyChange(d, changes[n])
  }

  function ChangedCandidates(cs: seq<Cand>, changes: seq<Change>): (r: Result<seq<Cand>, Thrown>)
    ensures r.Ok? ==> |r.value| == |cs|
    decreases |cs|
  {
    if cs == [] then Ok([])
    else
      var n := |cs| - 1;
      var front :- ChangedCandidates(cs[..n], changes);
      var c :- ApplyChanges(cs[n], changes);
      Ok(front + [c])
  }

  function ChangedDecision(d: Dec, changes: seq<Change>): Result<Dec, Thrown> {
    var cs :- ChangedCandidates(Candidates(d), changes);
    Ok(d.(candidateSet := d.candidateSet.(candidates := cs)))
  }

  datatype WhatIf = WhatIf(ranking: seq<u64>, decision: u64, decisionChanged: bool)

  function CounterfactualOf(d: Dec, changes: seq<Change>): Result<WhatIf, Thrown> {
    var changed :- ChangedDecision(d, changes);
    var r :- Rank(changed);
    Ok(WhatIf(r.ranked, r.selected, r.selected != d.selectedCandidate))
  }

  method ChangeCosts(costs: seq<CostComponent<real>>, x: real) returns (out: seq<CostComponent<real>>)
    ensures out == MapSeq(SetTransfer(x), costs)
  {
    out := [];
    for i := 0 to |costs|
      invariant out == MapSeq(SetTransfer(x), costs[..i])
    {
      MapSnoc(SetTransfer(x), costs[..i], costs[i]);
      assert costs[..i] + [costs[i]] == costs[..i + 1];
      if costs[i].kind == COST_TRANSFER {
        out := out + [costs[i].(cost := x)];
      } else {
        out := out + [costs[i]];
      }
    }
    assert costs[..|costs|] == costs;
  }

  /** One change on one candidate of the copy. */
  method ChangeCandidate(cand: Cand, ch: Change) returns (res: Result<Cand, Thrown>)
    ensures res == ApplyChange(cand, ch)
  {
    hide LastColon, MapSeq;
    var t :- Target(ch.field);
    if t.0.Some? && cand.candidateId != t.0.value { return Ok(cand); }
    var target, dv := t.1, AsReal(ch.newValue);
    if target == "memory.free_bytes" {
      var free :- Clamped(if ch.relative then cand.memory.freeBytes as real + dv else dv);
      var used := if cand.memory.totalBytes > free then cand.memory.totalBytes - free else 0;
      return Ok(cand.(memory := cand.memory.(freeBytes := free, usedBytes := used)));
    } else if target == "queue.depth" {
      var step := Truncate(dv);
      if step >= TWO32 / 2 || step < -(TWO32 / 2) { return Err(OutOfRange); }
      var depth :- DepthAfter(if ch.relative then AsInt32(cand.queue.depth) + step else step);
      return Ok(cand.(queue := cand.queue.(depth := depth)));
    } else if target == "memory.total_bytes" {
      var total :- Clamped(dv);
      return Ok(cand.(memory := cand.memory.(totalBytes := total)));
    } else if target == "transfer_cost" {
      var costs := ChangeCosts(cand.costs, dv);
      return Ok(cand.(costs := costs));
    }
    return Ok(cand);
  }

  /** Applies every change to every candidate of a copy and ranks the copy. */
  method WhatIfRanking(base: Dec, changes: seq<Change>) returns (res: Result<WhatIf, Thrown>)
    ensures res == CounterfactualOf(base, changes)
  {
    hide ApplyChange, Rank;
    var cs := Candidates(base);
    var changed: seq<Cand> := [];
    for i := 0 to |cs|
      invariant ChangedCandidates(cs[..i], changes) == Ok(changed)
    {
      assert cs[..i + 1][..i] == cs[..i];
      var cand := cs[i];
      for j := 0 to |changes|
        invariant ApplyChanges(cs[i], changes[..j]) == Ok(cand)
      {
        assert changes[..j + 1][..j] == changes[..j];
        var next := ChangeCandidate(cand, changes[j]);
        if next.Err? {
          ChangesStop(cs[i], changes, j + 1);
          CandidatesStop(cs, changes, i + 1);
          return Err(next.error);
        }
        cand := next.value;
      }
      assert changes[..|changes|] == changes;
      changed := changed + [cand];
    }
    assert cs[..|cs|] == cs;
    var ranking := RankCandidates(base.(candidateSet := base.candidateSet.(candidates := changed)));
    var r :- ranking;
    return Ok(WhatIf(r.ranked, r.selected, r.selected != base.selectedCandidate));
  }

  lemma {:induction false} ChangesStop(c: Cand, changes: seq<Change>, n: nat)
    requires n <= |changes| && ApplyChanges(c, changes[..n]).Err?
    ensures ApplyChanges(c, changes) == ApplyChanges(c, changes[..n])
    decreases |changes| - n
  {
    hide ApplyChange;
    if n < |changes| {
      assert changes[..n + 1][..n] == changes[..n];
      ChangesStop(c, changes, n + 1);
    } else {
      assert changes[..n] == changes;
    }
  }

  lemma {:induction false} CandidatesStop(cs: seq<Cand>, changes: seq<Change>, n: nat)
    requires n <= |cs| && ChangedCandidates(cs[..n], changes).Err?
    ensures ChangedCandidates(cs, changes) == ChangedCandidates(cs[..n], changes)
    decreases |cs| - n
  {
    hide ApplyChanges;
    if n < |cs| {
      assert cs[..n + 1][..n] == cs[..n];
      CandidatesStop(cs, changes, n + 1);
    } else {
      assert cs[..n] == cs;
    }
  }

  // ----- laws

  /** No change leaves the base ranking. */
  lemma {:induction false} NoChangesNoEffect(cs: seq<Cand>)
    ensures ChangedCandidates(cs, []) == Ok(cs)
    decreases |cs|
  {
    if cs == [] {
    } else {
      NoChangesNoEffect(cs[..|cs| - 1]);
      assert cs == cs[..|cs| - 1] + [cs[|cs| - 1]];
    }
  }

  lemma NoChangesBaseRanking(d: Dec)
    ensures CounterfactualOf(d, []).Ok? <==> Rank(d).Ok?
    ensures Rank(d).Ok? ==> CounterfactualOf(d, []).value.ranking == Rank(d).value.ranked
    ensures Rank(d).Ok? ==> CounterfactualOf(d, []).value.decision == Rank(d).value.selected
  {
    hide Rank;
    NoChangesNoEffect(Candidates(d));
    assert d.(candidateSet := d.candidateSet.(candidates := Candidates(d))) == d;
  }

  /** Every change is addressed to candidate `id` alone. */
  predicate ScopedTo(changes: seq<Change>, id: u64) {
    forall i :: 0 <= i < |changes| ==> Target(changes[i].field).Ok? && Target(changes[i].field).value.0 == Some(id)
  }

  lemma PerturbKeepsId(c: Cand, name: Text, x: real, relative: bool)
    ensures Perturb(c, name, x, relative).Ok? ==> Perturb(c, name, x, relative).value.candidateId == c.candidateId
  {
    hide MapSeq;
  }

  lemma {:induction false} ChangesKeepId(c: Cand, changes: seq<Change>)
    ensures ApplyChanges(c, changes).Ok? ==> ApplyChanges(c, changes).value.candidateId == c.candidateId
    decreases |changes|
  {
    hide Perturb, Target, AsReal;
    if changes == [] {
    } else {
      var n := |changes| - 1;
      ChangesKeepId(c, changes[..n]);
      var r := ApplyChanges(c, changes[..n]);
      if r.Ok? && Target(changes[n].field).Ok? {
        PerturbKeepsId(r.value, Target(changes[n].field).value.1, AsReal(changes[n].newValue), changes[n].relative);
      }
    }
  }

  lemma {:induction false} OthersUntouched(c: Cand, changes: seq<Change>, id: u64)
    requires ScopedTo(changes, id) && c.candidateId != id
    ensures ApplyChanges(c, changes) == Ok(c)
    decreases |changes|
  {
    hide Perturb, Target;
    if changes == [] {
    } else {
      var n := |changes| - 1;
      assert forall i :: 0 <= i < n ==> changes[..n][i] == changes[i];
      OthersUntouched(c, changes[..n], id);
    }
  }

  lemma {:induction false} OtherCandidatesUntouched(cs: seq<Cand>, changes: seq<Change>, id: u64)
    requires ScopedTo(changes, id) && ChangedCandidates(cs, changes).Ok?
    ensures Filter(Other(id), ChangedCandidates(cs, changes).value) == Filter(Other(id), cs)
    decreases |cs|
  {
    hide ApplyChanges, ScopedTo;
    if cs == [] {
    } else {
      var n := |cs| - 1;
      var front := ChangedCandidates(cs[..n], changes).value;
      var c := ApplyChanges(cs[n], changes).value;
      OtherCandidatesUntouched(cs[..n], changes, id);
      ChangesKeepId(cs[n], changes);
      if cs[n].candidateId != id {
        OthersUntouched(cs[n], changes, id);
      }
      FilterSnoc(Other(id), front, c);
      FilterSnoc(Other(id), cs[..n], cs[n]);
      assert cs == cs[..n] + [cs[n]];
    }
  }

  function NotId(id: u64): u64 -> bool {
    (x: u64) => x != id
  }

  /** Non-interference: changes addressed to one candidate leave all others ranked as they were,
      and everything about them: the ranking returned and that of the decision itself differ only
      in where they list that candidate. */
  lemma ScopedChangesLeaveOthers(d: Dec, changes: seq<Change>, id: u64)
    requires ScopedTo(changes, id) && ChangedDecision(d, changes).Ok?
    ensures Filter(Other(id), Podium(ChangedDecision(d, changes).value)) == Filter(Other(id), Podium(d))
    ensures CounterfactualOf(d, changes).Ok? && Rank(d).Ok? ==>
              Filter(NotId(id), CounterfactualOf(d, changes).value.ranking) == Filter(NotId(id), Rank(d).value.ranked)
  {
    hide ScopedTo, Podium, ChangedCandidates, Rank;
    var changed := ChangedDecision(d, changes).value;
    OtherCandidatesUntouched(Candidates(d), changes, id);
    assert Without(changed, id) == Without(d, id);
    PodiumWithout(changed, id);
    PodiumWithout(d, id);
    if CounterfactualOf(d, changes).Ok? && Rank(d).Ok? {
      RankIsPodium(changed);
      RankIsPodium(d);
      MapFilter(IdOf, NotId(id), Other(id), Podium(changed));
      MapFilter(IdOf, NotId(id), Other(id), Podium(d));
    }
  }

  /** No change touches costs. */
  predicate NoTransferCost(changes: seq<Change>) {
    forall i :: 0 <= i < |changes| && Target(changes[i].field).Ok? ==>
      Target(changes[i].field).value.1 != "transfer_cost"
  }

  lemma PerturbKeepsCosts(c: Cand, name: Text, x: real, relative: bool)
    requires name != "transfer_cost"
    ensures Perturb(c, name, x, relative).Ok? ==> Perturb(c, name, x, relative).value.costs == c.costs
  {
  }

  lemma {:induction false} ChangesKeepCosts(c: Cand, changes: seq<Change>)
    requires NoTransferCost(changes)
    ensures ApplyChanges(c, changes).Ok? ==> ApplyChanges(c, changes).value.costs == c.costs
    decreases |changes|
  {
    hide Perturb, Target, AsReal;
    if changes == [] {
    } else {
      var n := |changes| - 1;
      assert forall i :: 0 <= i < n ==> changes[..n][i] == changes[i];
      ChangesKeepCosts(c, changes[..n]);
      var r := ApplyChanges(c, changes[..n]);
      if r.Ok? && Target(changes[n].field).Ok? {
        PerturbKeepsCosts(r.value, Target(changes[n].field).value.1, AsReal(changes[n].newValue), changes[n].relative);
      }
    }
  }

  /** The candidate after the changes. */
  function Changed(changes: seq<Change>): Cand -> Cand {
    (c: Cand) => if ApplyChanges(c, changes).Ok? then ApplyChanges(c, changes).value else c
  }

  function AliveAfter(changes: seq<Change>, rules: seq<Rule>): Cand -> bool {
    (c: Cand) => Survives(Changed(changes)(c), rules)
  }

  lemma {:induction false} ChangedCandidatesMap(cs: seq<Cand>, changes: seq<Change>)
    requires ChangedCandidates(cs, changes).Ok?
    ensures ChangedCandidates(cs, changes).value == MapSeq(Changed(changes), cs)
    decreases |cs|
  {
    hide ApplyChanges;
    if cs == [] {
    } else {
      var n := |cs| - 1;
      ChangedCandidatesMap(cs[..n], changes);
      MapSnoc(Changed(changes), cs[..n], cs[n]);
      assert cs == cs[..n] + [cs[n]];
    }
  }

  /** The comparator sees nothing of a change that leaves costs and id alone. */
  lemma ChangedComparesAlike(changes: seq<Change>, a: Cand, b: Cand)
    requires NoTransferCost(changes)
    ensures Before(Changed(changes)(a), Changed(changes)(b)) == Before(a, b)
    ensures IdOf(Changed(changes)(a)) == IdOf(a)
  {
    hide ApplyChanges, LexLess, MapSeq, SumOf, NoTransferCost;
    ChangesKeepCosts(a, changes);
    ChangesKeepCosts(b, changes);
    ChangesKeepId(a, changes);
    ChangesKeepId(b, changes);
  }

  /** The ranking after such changes arranges, by the old comparison, those that survive now. */
  lemma RankingAfter(d: Dec, changes: seq<Change>)
    requires NoTransferCost(changes) && ChangedDecision(d, changes).Ok?
    ensures MapSeq(IdOf, Podium(ChangedDecision(d, changes).value)) ==
            MapSeq(IdOf, Arranged(Filter(AliveAfter(changes, d.hardConstraints), Candidates(d))))
  {
    hide ApplyChanges, Survives, Before, MapSeq, Filter, Sort, NoTransferCost, ChangedCandidates;
    var cs, rules, f := Candidates(d), d.hardConstraints, Changed(changes);
    ChangedCandidatesMap(cs, changes);
    MapFilter(f, Alive(rules), AliveAfter(changes, rules), cs);
    var alive := Filter(AliveAfter(changes, rules), cs);
    forall a, b
      ensures Before(f(a), f(b)) == Before(a, b)
    {
      ChangedComparesAlike(changes, a, b);
    }
    MapSort(f, alive, Before, Before);
    var podium := Sort(alive, Before);
    forall i | 0 <= i < |podium|
      ensures IdOf(podium[i]) == IdOf(f(podium[i]))
    {
      ChangedComparesAlike(changes, podium[i], podium[i]);
    }
    MapMap(f, IdOf, IdOf, podium);
  }

  function ListedIn(ids: seq<u64>): u64 -> bool {
    id => id in ids
  }

  lemma ArrangedMembers(alive: seq<Cand>)
    ensures forall i :: 0 <= i < |Arranged(alive)| ==> Arranged(alive)[i] in alive
    ensures forall i :: 0 <= i < |alive| ==> alive[i] in Arranged(alive)
  {
    hide Before;
    BeforeIsStrictWeak();
    SortSorts(alive, Before);
    SameMembers(alive, Arranged(alive));
  }

  /** Among distinct candidates, a candidate is listed in an arrangement of those satisfying `q`
      exactly when it satisfies `q`. */
  lemma ListedMeansChosen(cs: seq<Cand>, q: Cand -> bool, c: Cand)
    requires DistinctIds(cs) && c in cs
    ensures ListedIn(MapSeq(IdOf, Arranged(Filter(q, cs))))(IdOf(c)) <==> q(c)
  {
    hide Sort, Before;
    var chosen := Filter(q, cs);
    var podium := Arranged(chosen);
    var ids := MapSeq(IdOf, podium);
    FilterMembers(q, cs);
    ArrangedMembers(chosen);
    if q(c) {
      var i :| 0 <= i < |cs| && cs[i] == c;
      assert c in chosen;
      var j :| 0 <= j < |chosen| && chosen[j] == c;
      var k :| 0 <= k < |podium| && podium[k] == c;
      assert ids[k] == IdOf(c);
    }
    if IdOf(c) in ids {
      var k :| 0 <= k < |ids| && ids[k] == IdOf(c);
      assert podium[k] in chosen;
      var j :| 0 <= j < |chosen| && chosen[j] == podium[k];
      assert chosen[j] in cs && q(chosen[j]);
      SameIdSame(cs, c, chosen[j]);
    }
  }

  lemma SameIdSame(cs: seq<Cand>, a: Cand, b: Cand)
    requires DistinctIds(cs) && a in cs && b in cs && IdOf(a) == IdOf(b)
    ensures a == b
  {
  }

  /** The part of one ranking that another lists too is the joint selection, arranged. */
  lemma CommonPart(cs: seq<Cand>, p: Cand -> bool, q: Cand -> bool, both: Cand -> bool)
    requires DistinctIds(cs) && forall i :: 0 <= i < |cs| ==> both(cs[i]) == (p(cs[i]) && q(cs[i]))
    ensures Filter(ListedIn(MapSeq(IdOf, Arranged(Filter(q, cs)))), MapSeq(IdOf, Arranged(Filter(p, cs)))) ==
            MapSeq(IdOf, Arranged(Filter(both, cs)))
  {
    hide Before, MapSeq, DistinctIds, ListedIn;
    var listed, podium := ListedIn(MapSeq(IdOf, Arranged(Filter(q, cs)))), Arranged(Filter(p, cs));
    ArrangedMembers(Filter(p, cs));
    FilterMembers(p, cs);
    forall i | 0 <= i < |podium|
      ensures q(podium[i]) == listed(IdOf(podium[i]))
    {
      assert podium[i] in Filter(p, cs);
      var j :| 0 <= j < |Filter(p, cs)| && Filter(p, cs)[j] == podium[i];
      ListedMeansChosen(cs, q, podium[i]);
    }
    MapFilter(IdOf, listed, q, podium);
    BeforeIsStrictWeak();
    FilterSort(q, Filter(p, cs), Before);
    FilterFilter(q, p, both, cs);
  }

  /** Memory and queue changes never reorder two candidates that survive both before and after:
      with distinct ids, what the two rankings have in common they list in the same order. */
  lemma NoReordering(d: Dec, changes: seq<Change>)
    requires NoTransferCost(changes) && DistinctIds(Candidates(d))
    requires Rank(d).Ok? && CounterfactualOf(d, changes).Ok?
    ensures
      var before, after := Rank(d).value.ranked, CounterfactualOf(d, changes).value.ranking;
      Filter(ListedIn(after), before) == Filter(ListedIn(before), after)
  {
    hide Rank, Podium, Arranged, Filter, MapSeq, Alive, AliveAfter, NoTransferCost, ChangedDecision, DistinctIds;
    var cs, p, q := Candidates(d), Alive(d.hardConstraints), AliveAfter(changes, d.hardConstraints);
    RankIsPodium(d);
    RankIsPodium(ChangedDecision(d, changes).value);
    RankingAfter(d, changes);
    var both := (c: Cand) => p(c) && q(c);
    CommonPart(cs, p, q, both);
    CommonPart(cs, q, p, both);
    PodiumIs(d);
  }

  lemma PodiumIs(d: Dec)
    ensures Podium(d) == Arranged(Filter(Alive(d.hardConstraints), Candidates(d)))
  {
  }

  /** Changing free memory keeps the books: used plus free is the total, or nothing is used when
      more is free than there is. */
  lemma FreeMemoryConserved(c: Cand, x: real, relative: bool)
    ensures
      var r := Perturb(c, "memory.free_bytes", x, relative);
      r.Ok? ==>
        var m := r.value.memory;
        && m.totalBytes == c.memory.totalBytes
        && (m.freeBytes <= m.totalBytes ==> m.usedBytes + m.freeBytes == m.totalBytes)
        && (m.freeBytes > m.totalBytes ==> m.usedBytes == 0)
  {
    hide MapSeq;
  }

  // ----- replay

  datatype Mismatch = SelectedDiffers(expected: u64, actual: u64) | EmptyInsteadOfCandidates

  datatype Replay = Replay(reproduced: bool, selected: u64, mismatches: seq<Mismatch>, missing: seq<Missing>)

  /** The report on a recorded decision: it names the recorded selection, and an empty candidate
      set is never reproduced. */
  function ReplayOf(d: Dec): Result<Replay, Thrown> {
    var r :- Rank(d);
    var same, empty := r.selected == d.selectedCandidate, Candidates(d) == [];
    Ok(Replay(same && !empty, d.selectedCandidate,
              if !same then [SelectedDiffers(d.selectedCandidate, r.selected)]
              else if empty then [EmptyInsteadOfCandidates]
              else [],
              r.missing + MapSeq(AsFieldMissing, d.candidateSet.missingFields)
              + if empty then [EmptyCandidateSet] else []))
  }

  method ReplayDecision(d: Dec) returns (res: Result<Replay, Thrown>)
    ensures res == ReplayOf(d)
  {
    hide Rank, MapSeq;
    var ranking := RankCandidates(d);
    var r :- ranking;
    var reproduced := r.selected == d.selectedCandidate;
    var mismatches := [];
    if !reproduced {
      mismatches := [SelectedDiffers(d.selectedCandidate, r.selected)];
    }
    var missing := r.missing + MapSeq(AsFieldMissing, d.candidateSet.missingFields);
    assert missing + [] == missing;
    if Candidates(d) == [] {
      reproduced := false;
      missing := missing + [EmptyCandidateSet];
      if mismatches == [] {
        mismatches := [EmptyInsteadOfCandidates];
      }
    }
    return Ok(Replay(reproduced, d.selectedCandidate, mismatches, missing));
  }

  /** A decision with distinct candidates is reproduced exactly when it has candidates and its
      recorded selection is the best survivor, or nil if nothing survives. */
  lemma ReproducedIffBest(d: Dec)
    requires DistinctIds(Candidates(d)) && ReplayOf(d).Ok?
    ensures
      var alive := Survivors(Candidates(d), d.hardConstraints);
      var best := if alive == [] then d.selectedCandidate == 0
                  else exists c :: Best(c, alive) && c.candidateId == d.selectedCandidate;
      && (ReplayOf(d).value.reproduced <==> (Candidates(d) != [] && best))
      && (ReplayOf(d).value.reproduced <==> ReplayOf(d).value.mismatches == [])
  {
    hide Rank, Survivors, Best, MapSeq, DistinctIds;
    SelectedIsBest(d);
  }

  /** Replaying does not depend on the order in which the candidates were recorded. */
  lemma ReplayIndependent(d1: Dec, d2: Dec)
    requires d1.(candidateSet := d2.candidateSet) == d2 && multiset(Candidates(d1)) == multiset(Candidates(d2))
    requires DistinctIds(Candidates(d1))
    ensures ReplayOf(d1).Ok? <==> ReplayOf(d2).Ok?
    ensures ReplayOf(d1).Ok? ==>
              ReplayOf(d1).value.reproduced == ReplayOf(d2).value.reproduced
              && ReplayOf(d1).value.mismatches == ReplayOf(d2).value.mismatches
  {
    hide Rank, MapSeq, DistinctIds;
    PresentationIndependent(d1, d2);
    assert |multiset(Candidates(d1))| == |Candidates(d1)| && |multiset(Candidates(d2))| == |Candidates(d2)|;
  }
}
