/** What changed inputs and replays mean, said of the texts that name the inputs, of the numbers and
    of the candidates: whom a change addresses, what it does to a candidate, what is ranked then, and
    what a replay reports. */
module CounterfactualReport {
  import opened Base
  import opened Decimal
  import opened Model
  import opened Sequences
  import opened Ranking
  import opened RankingLaws
  import opened RankingReport
  import opened Counterfactual

  // ----- whom a change addresses

  /** The field is `name:digits`, with the colon at `p`; a digit has a code from 48 to 57. */
  predicate AddressAt(field: Text, p: nat): (r: bool)
    ensures r ==> p < |field|
  {
    && p + 1 < |field| && field[p] == ':'
    && forall i :: p < i < |field| ==> 48 <= field[i] as int <= 57
  }

  ghost predicate Addressed(field: Text) {
    exists p: nat :: AddressAt(field, p)
  }

  /** The number behind the colon at `p`. */
  function Address(field: Text, p: nat): int
    requires p < |field|
  {
    PlaceValue(field[p + 1..])
  }

  lemma AddressIsLast(field: Text, p: nat)
    requires AddressAt(field, p)
    ensures LastColon(field) == Some(p)
    ensures field[p + 1..] != [] && AllDigits(field[p + 1..]) && DecimalValue(field[p + 1..]) == Address(field, p)
  {
    hide LastColon;
    LastColonIsColon(field);
    DecimalIsPlaceValue(field[p + 1..]);
  }

  /** A name with an address means the candidate of that id; any other field means every candidate. */
  lemma TargetIs(field: Text)
    ensures !Addressed(field) ==> Target(field) == Ok((None, field))
    ensures forall p: nat :: AddressAt(field, p) ==>
              Target(field) == if Address(field, p) < TWO64 then Ok((Some(Address(field, p)), field[..p]))
                               else Err(OutOfRange)
  {
    hide LastColon, AddressAt, DecimalValue, PlaceValue;
    forall p: nat | AddressAt(field, p)
      ensures Target(field) == if Address(field, p) < TWO64 then Ok((Some(Address(field, p)), field[..p]))
                               else Err(OutOfRange)
    {
      AddressIsLast(field, p);
    }
    if !Addressed(field) {
      NoAddress(field);
    }
  }

  lemma NoAddress(field: Text)
    requires !Addressed(field)
    ensures LastColon(field).Some? ==>
              var p := LastColon(field).value;
              p < |field| && (field[p + 1..] == [] || !AllDigits(field[p + 1..]))
  {
    hide LastColon, AddressAt;
    LastColonIsColon(field);
    if LastColon(field).Some? {
      var p := LastColon(field).value;
      if field[p + 1..] != [] && AllDigits(field[p + 1..]) {
        DigitsAreAddress(field, p);
      }
    }
  }

  lemma DigitsAreAddress(field: Text, p: nat)
    requires p + 1 < |field| && field[p] == ':' && AllDigits(field[p + 1..])
    ensures AddressAt(field, p)
  {
    var tail := field[p + 1..];
    assert forall i :: p < i < |field| ==> field[i] == tail[i - (p + 1)];
  }

  // ----- what a change does

  /** `n` is the real number with its fraction cut off. */
  predicate Whole(n: int, x: real) {
    && (x >= 0.0 ==> n as real <= x < n as real + 1.0)
    && (x <= 0.0 ==> n as real - 1.0 < x <= n as real)
  }

  /** The number as a size in memory: nothing below 0, and the fraction cut off. */
  predicate Size(n: u64, x: real) {
    Whole(n, if x < 0.0 then 0.0 else x)
  }

  /** The number asked for; a value that is none counts as 0. */
  function Asked(v: Value<real>): real {
    if v.Double? then v.d
    else if v.Int? then v.i as real
    else if v.UInt? then v.u as real
    else 0.0
  }

  /** What one of the named inputs set to a number, or moved by it, makes of a candidate. What is used
      follows what is free; a depth is computed in signed 32-bit numbers; a result that its type
      cannot hold fails; an unknown name changes nothing. */
  ghost predicate Effect(c: Cand, name: Text, x: real, relative: bool, r: Result<Cand, Thrown>) {
    if name == "memory.free_bytes" then
      var y := if relative then c.memory.freeBytes as real + x else x;
      if y >= 18446744073709551616.0 then r == Err(OutOfRange)
      else
        exists f: u64, u: u64 ::
          && Size(f, y) && (u + f == c.memory.totalBytes || (u == 0 && f >= c.memory.totalBytes))
          && r == Ok(c.(memory := c.memory.(freeBytes := f, usedBytes := u)))
    else if name == "queue.depth" then
      var signed := if c.queue.depth < 0x8000_0000 then c.queue.depth else c.queue.depth - 0x1_0000_0000;
      exists step: int ::
        && Whole(step, x)
        && var n := if relative then signed + step else step;
           r == if -0x8000_0000 <= step < 0x8000_0000 && -0x8000_0000 <= n < 0x8000_0000
                then Ok(c.(queue := c.queue.(depth := if n < 0 then 0 else n)))
                else Err(OutOfRange)
    else if name == "memory.total_bytes" then
      if x >= 18446744073709551616.0 then r == Err(OutOfRange)
      else exists f: u64 :: Size(f, x) && r == Ok(c.(memory := c.memory.(totalBytes := f)))
    else if name == "transfer_cost" then
      && r.Ok? && r.value == c.(costs := r.value.costs) && |r.value.costs| == |c.costs|
      && forall k :: 0 <= k < |c.costs| ==>
           r.value.costs[k] == if c.costs[k].kind == 3 then c.costs[k].(cost := x) else c.costs[k]
    else r == Ok(c)
  }

  lemma WholeIsUnique(m: int, n: int, x: real)
    requires Whole(m, x) && Whole(n, x)
    ensures m == n
  {
  }

  lemma TruncateIsWhole(x: real)
    ensures Whole(Truncate(x), x)
  {
  }

  lemma ClampedIsSize(x: real)
    ensures if x >= 18446744073709551616.0 then Clamped(x) == Err(OutOfRange)
            else Clamped(x).Ok? && Size(Clamped(x).value, x)
  {
    assert x > 0.0 ==> x.Floor as real <= x < x.Floor as real + 1.0;
  }

  lemma FreeEffect(c: Cand, x: real, relative: bool)
    ensures Effect(c, "memory.free_bytes", x, relative, Perturb(c, "memory.free_bytes", x, relative))
  {
    hide Clamped, Size;
    var y := if relative then c.memory.freeBytes as real + x else x;
    ClampedIsSize(y);
    if y < 18446744073709551616.0 {
      var f := Clamped(y).value;
      var u := SetFree(c.memory, f).usedBytes;
      assert u + f == c.memory.totalBytes || (u == 0 && f >= c.memory.totalBytes);
    }
  }

  lemma DepthEffect(c: Cand, x: real, relative: bool)
    ensures Effect(c, "queue.depth", x, relative, Perturb(c, "queue.depth", x, relative))
  {
    hide Truncate, Whole;
    TruncateIsWhole(x);
  }

  lemma TotalEffect(c: Cand, x: real, relative: bool)
    ensures Effect(c, "memory.total_bytes", x, relative, Perturb(c, "memory.total_bytes", x, relative))
  {
    hide Clamped, Size;
    ClampedIsSize(x);
  }

  lemma TransferEffect(c: Cand, x: real, relative: bool)
    ensures Effect(c, "transfer_cost", x, relative, Perturb(c, "transfer_cost", x, relative))
  {
  }

  lemma PerturbHasEffect(c: Cand, name: Text, x: real, relative: bool)
    ensures Effect(c, name, x, relative, Perturb(c, name, x, relative))
  {
    if name == "memory.free_bytes" {
      FreeEffect(c, x, relative);
    } else if name == "queue.depth" {
      DepthEffect(c, x, relative);
    } else if name == "memory.total_bytes" {
      TotalEffect(c, x, relative);
    } else if name == "transfer_cost" {
      TransferEffect(c, x, relative);
    }
  }

  /** The description leaves one result only. */
  lemma EffectIsUnique(c: Cand, name: Text, x: real, relative: bool, r: Result<Cand, Thrown>, s: Result<Cand, Thrown>)
    requires Effect(c, name, x, relative, r) && Effect(c, name, x, relative, s)
    ensures r == s
  {
    hide Whole;
    forall m, n, y | Whole(m, y) && Whole(n, y)
      ensures m == n
    {
      WholeIsUnique(m, n, y);
    }
    if name == "transfer_cost" {
      assert r.value.costs == s.value.costs;
    }
  }

  /** What a change makes of a candidate: nothing if it is addressed to another, a failure if its
      address is no 64-bit number, and else the effect of the name it gives. */
  ghost predicate ChangeGives(c: Cand, ch: Change, r: Result<Cand, Thrown>) {
    && (!Addressed(ch.field) ==> Effect(c, ch.field, Asked(ch.newValue), ch.relative, r))
    && forall p: nat :: AddressAt(ch.field, p) ==>
         if Address(ch.field, p) >= 0x1_0000_0000_0000_0000 then r == Err(OutOfRange)
         else if Address(ch.field, p) != c.candidateId then r == Ok(c)
         else Effect(c, ch.field[..p], Asked(ch.newValue), ch.relative, r)
  }

  /** A change does exactly that. */
  lemma ChangeIs(c: Cand, ch: Change, r: Result<Cand, Thrown>)
    ensures ChangeGives(c, ch, r) <==> r == ApplyChange(c, ch)
  {
    hide Target, Perturb, Effect, AddressAt, Address;
    TargetIs(ch.field);
    var x := AsReal(ch.newValue);
    assert x == Asked(ch.newValue);
    if p: nat :| AddressAt(ch.field, p) {
      AddressIsLast(ch.field, p);
      forall q: nat | AddressAt(ch.field, q)
        ensures q == p
      {
        AddressIsLast(ch.field, q);
      }
      PerturbHasEffect(c, ch.field[..p], x, ch.relative);
      if Effect(c, ch.field[..p], x, ch.relative, r) {
        EffectIsUnique(c, ch.field[..p], x, ch.relative, r, Perturb(c, ch.field[..p], x, ch.relative));
      }
    } else {
      PerturbHasEffect(c, ch.field, x, ch.relative);
      if Effect(c, ch.field, x, ch.relative, r) {
        EffectIsUnique(c, ch.field, x, ch.relative, r, Perturb(c, ch.field, x, ch.relative));
      }
    }
  }

  // ----- names with an address

  /** The text of the field that addresses a name to one candidate. */
  function AddressedTo(name: Text, id: u64): Chars {
    name + [':'] + Digits(id)
  }

  lemma AddressOfDigits(name: Text, id: u64, field: Text)
    requires field == AddressedTo(name, id)
    ensures AddressAt(field, |name|) && field[..|name|] == name && Address(field, |name|) == id
  {
    hide Digits;
    DigitsRead(id);
    assert field[|name| + 1..] == Digits(id);
    DigitsAreAddress(field, |name|);
    DecimalIsPlaceValue(Digits(id));
  }

  /** For every name without an address of its own and every 64-bit id: the field `name:id` changes the
      candidate of that id exactly as the bare name does, and no other candidate. */
  lemma AddressedAsBare(c: Cand, name: Text, id: u64, field: Text, v: Value<real>, relative: bool)
    requires !Addressed(name) && field == AddressedTo(name, id)
    ensures ApplyChange(c, Change(field, v, relative)) ==
            if c.candidateId == id then ApplyChange(c, Change(name, v, relative)) else Ok(c)
  {
    hide Target, Perturb, AddressAt, Address;
    AddressOfDigits(name, id, field);
    TargetIs(field);
    TargetIs(name);
  }

  /** The change is addressed, and to that id. */
  ghost predicate AimsAt(ch: Change, id: u64) {
    exists p: nat :: AddressAt(ch.field, p) && Address(ch.field, p) == id
  }

  /** Changes whose fields read `name:id` leave everyone but that candidate ranked as before. */
  lemma AimedLeaveOthers(d: Dec, changes: seq<Change>, id: u64)
    requires ChangedDecision(d, changes).Ok? && forall i :: 0 <= i < |changes| ==> AimsAt(changes[i], id)
    ensures Filter(Other(id), Podium(ChangedDecision(d, changes).value)) == Filter(Other(id), Podium(d))
    ensures CounterfactualOf(d, changes).Ok? && Rank(d).Ok? ==>
              Filter(NotId(id), CounterfactualOf(d, changes).value.ranking) == Filter(NotId(id), Rank(d).value.ranked)
  {
    hide Target, AddressAt, Address, Podium, ChangedDecision, CounterfactualOf, Rank;
    forall i | 0 <= i < |changes|
      ensures Target(changes[i].field).Ok? && Target(changes[i].field).value.0 == Some(id)
    {
      TargetIs(changes[i].field);
    }
    ScopedChangesLeaveOthers(d, changes, id);
  }

  /** The field names the transfer cost, with or without an address. */
  ghost predicate NamesTransferCost(field: Text) {
    field == "transfer_cost" || exists p: nat :: AddressAt(field, p) && field[..p] == "transfer_cost"
  }

  /** As long as no field names the transfer cost, whoever is ranked before and after is ranked in the
      same order. */
  lemma OtherNamesKeepOrder(d: Dec, changes: seq<Change>)
    requires DistinctIds(Candidates(d)) && Rank(d).Ok? && CounterfactualOf(d, changes).Ok?
    requires forall i :: 0 <= i < |changes| ==> !NamesTransferCost(changes[i].field)
    ensures
      var before, after := Rank(d).value.ranked, CounterfactualOf(d, changes).value.ranking;
      Filter(ListedIn(after), before) == Filter(ListedIn(before), after)
  {
    hide Target, AddressAt, CounterfactualOf, Rank, DistinctIds;
    forall i | 0 <= i < |changes| && Target(changes[i].field).Ok?
      ensures Target(changes[i].field).value.1 != "transfer_cost"
    {
      TargetIs(changes[i].field);
    }
    NoReordering(d, changes);
  }

  // ----- all changes

  /** The candidate passes through `t` as the changes are made one after the other. */
  ghost predicate Passes(t: seq<Cand>, changes: seq<Change>) {
    |t| == |changes| + 1 && forall j :: 0 <= j < |changes| ==> ChangeGives(t[j], changes[j], Ok(t[j + 1]))
  }

  /** The changes, each applied to what the ones before it left, make `e` of the candidate. */
  ghost predicate Becomes(c: Cand, changes: seq<Change>, e: Cand) {
    exists t: seq<Cand> :: Passes(t, changes) && t[0] == c && t[|changes|] == e
  }

  lemma {:induction false} ChangesInTurn(c: Cand, changes: seq<Change>, e: Cand)
    ensures Becomes(c, changes, e) <==> ApplyChanges(c, changes) == Ok(e)
    decreases |changes|
  {
    hide ChangeGives, ApplyChange;
    if changes == [] {
      assert Passes([c], changes);
    } else {
      var n := |changes| - 1;
      if ApplyChanges(c, changes) == Ok(e) {
        var f := ApplyChanges(c, changes[..n]).value;
        ChangesInTurn(c, changes[..n], f);
        var t :| Passes(t, changes[..n]) && t[0] == c && t[n] == f;
        ChangeIs(f, changes[n], Ok(e));
        PassesOn(t, changes, e);
      }
      if Becomes(c, changes, e) {
        var t :| Passes(t, changes) && t[0] == c && t[|changes|] == e;
        assert ChangeGives(t[n], changes[n], Ok(t[n + 1]));
        ChangeIs(t[n], changes[n], Ok(e));
        PassesBefore(t, changes);
        ChangesInTurn(c, changes[..n], t[n]);
      }
    }
  }

  lemma PassesOn(t: seq<Cand>, changes: seq<Change>, e: Cand)
    requires changes != [] && Passes(t, changes[..|changes| - 1])
    requires ChangeGives(t[|changes| - 1], changes[|changes| - 1], Ok(e))
    ensures Passes(t + [e], changes)
  {
    hide ChangeGives;
    var n := |changes| - 1;
    assert forall j :: 0 <= j < n ==> changes[..n][j] == changes[j];
  }

  lemma PassesBefore(t: seq<Cand>, changes: seq<Change>)
    requires changes != [] && Passes(t, changes)
    ensures Passes(t[..|changes|], changes[..|changes| - 1])
  {
    hide ChangeGives;
    var n := |changes| - 1;
    forall j | 0 <= j < n
      ensures ChangeGives(t[..n + 1][j], changes[..n][j], Ok(t[..n + 1][j + 1]))
    {
      assert ChangeGives(t[j], changes[j], Ok(t[j + 1]));
    }
  }

  /** The decision with each candidate as the changes make it. */
  ghost predicate DecisionBecomes(d: Dec, changes: seq<Change>, e: Dec) {
    && e == d.(candidateSet := d.candidateSet.(candidates := Candidates(e)))
    && |Candidates(e)| == |Candidates(d)|
    && forall i :: 0 <= i < |Candidates(d)| ==> Becomes(Candidates(d)[i], changes, Candidates(e)[i])
  }

  lemma {:induction false} CandidatesBecome(cs: seq<Cand>, changes: seq<Change>, es: seq<Cand>)
    ensures ChangedCandidates(cs, changes) == Ok(es) <==>
            |es| == |cs| && forall i :: 0 <= i < |cs| ==> ApplyChanges(cs[i], changes) == Ok(es[i])
    decreases |cs|
  {
    hide ApplyChanges;
    if cs == [] {
    } else {
      var n := |cs| - 1;
      assert forall i :: 0 <= i < n ==> cs[..n][i] == cs[i];
      if ChangedCandidates(cs, changes) == Ok(es) {
        CandidatesBecome(cs[..n], changes, es[..n]);
      } else if |es| == |cs| {
        CandidatesBecome(cs[..n], changes, es[..n]);
        assert es == es[..n] + [es[n]];
      }
    }
  }

  lemma DecisionChanges(d: Dec, changes: seq<Change>, e: Dec)
    ensures DecisionBecomes(d, changes, e) <==> ChangedDecision(d, changes) == Ok(e)
  {
    hide ApplyChanges, Becomes, ChangedCandidates;
    CandidatesBecome(Candidates(d), changes, Candidates(e));
    forall i | 0 <= i < |Candidates(d)| && |Candidates(e)| == |Candidates(d)|
      ensures Becomes(Candidates(d)[i], changes, Candidates(e)[i]) <==>
              ApplyChanges(Candidates(d)[i], changes) == Ok(Candidates(e)[i])
    {
      ChangesInTurn(Candidates(d)[i], changes, Candidates(e)[i]);
    }
  }

  /** A what-if succeeds exactly when every candidate can be changed and the changed decision ranks; it
      reports that ranking, and whether its selection is another than the one recorded. */
  lemma WhatIfIs(d: Dec, changes: seq<Change>)
    ensures CounterfactualOf(d, changes).Ok? <==> exists e :: DecisionBecomes(d, changes, e) && Rank(e).Ok?
    ensures forall e :: CounterfactualOf(d, changes).Ok? && DecisionBecomes(d, changes, e) ==>
              var w := CounterfactualOf(d, changes).value;
              && Rank(e).Ok? && w.ranking == Rank(e).value.ranked && w.decision == Rank(e).value.selected
              && (w.decisionChanged <==> Rank(e).value.selected != d.selectedCandidate)
  {
    hide Rank, DecisionBecomes, ChangedDecision;
    forall e
      ensures DecisionBecomes(d, changes, e) <==> ChangedDecision(d, changes) == Ok(e)
    {
      DecisionChanges(d, changes, e);
    }
  }

  // ----- replay

  /** A replay fails with the ranking. Otherwise it tells the selection recorded; reproduces it exactly
      if there are candidates and the ranking selects the same; names as mismatch either the recorded
      and the new selection, where they differ, or the empty set; and lists what the ranking misses,
      the missing fields of the candidate set once more, and an empty set. */
  lemma ReplayIs(d: Dec)
    ensures ReplayOf(d).Ok? <==> Rank(d).Ok?
    ensures ReplayOf(d).Ok? ==>
              var p, selected, fields := ReplayOf(d).value, Rank(d).value.selected, d.candidateSet.missingFields;
              && p.selected == d.selectedCandidate
              && (p.reproduced <==> |Candidates(d)| > 0 && selected == d.selectedCandidate)
              && |p.mismatches| <= 1
              && (forall x, y :: SelectedDiffers(x, y) in p.mismatches <==>
                    x == d.selectedCandidate && y == selected && x != y)
              && (EmptyInsteadOfCandidates in p.mismatches <==> |Candidates(d)| == 0 && selected == d.selectedCandidate)
              && p.missing == Notes(Candidates(d), d.hardConstraints)
                              + MapSeq((c: Cand) => NoCostEvidence(c.candidateId), Filter(Costless, Podium(d)))
                              + MapSeq((f: Text) => FieldMissing(f), fields)
                              + MapSeq((f: Text) => FieldMissing(f), fields)
                              + (if |Candidates(d)| == 0 then [EmptyCandidateSet] else [])
  {
    hide Rank, Notes, Podium, Filter;
    if Rank(d).Ok? {
      MissingReported(d);
      var fields := d.candidateSet.missingFields;
      assert MapSeq(AsFieldMissing, fields) == MapSeq((f: Text) => FieldMissing(f), fields);
    }
  }
}
