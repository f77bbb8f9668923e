/** What is admitted, stated on the fields and numbers themselves: for observations, decisions and
    outcomes the checks in their order with the reason each gives, what an admitted record changes,
    and what coordinator epochs guarantee over a run. */
module Admission {
  import opened Base
  import opened Model
  import opened Sequences
  import opened Indexes
  import opened Store
  import opened Runs
  import opened AuthorityLaws
  import opened Accounting
  import opened RecoveredRecords

  /** A reason to reject and whether it applies. */
  datatype Check = Check(applies: bool, why: Rejection)

  /** The first reason that applies. */
  function FirstOf(checks: seq<Check>): Option<Rejection> {
    if checks == [] then None
    else if checks[0].applies then Some(checks[0].why)
    else FirstOf(checks[1..])
  }

  /** The verdict: the first reason that applies, or acceptance under the next event number. */
  function Verdict(checks: seq<Check>, events: nat): Reply {
    match FirstOf(checks)
    case Some(why) => Rejected(why, events)
    case None => Accepted(events + 1)
  }

  /** Nothing applies exactly when each does not, and otherwise the reason is that of the first that
      does. */
  lemma {:induction false} FirstOfHolds(checks: seq<Check>)
    ensures FirstOf(checks) == None <==> forall i :: 0 <= i < |checks| ==> !checks[i].applies
    ensures FirstOf(checks).Some? ==>
              exists k :: && 0 <= k < |checks| && checks[k].applies && FirstOf(checks) == Some(checks[k].why)
                          && forall i :: 0 <= i < k ==> !checks[i].applies
    decreases |checks|
  {
    if checks == [] {
    } else {
      var tail := checks[1..];
      FirstOfHolds(tail);
      assert forall i :: 0 <= i < |tail| ==> tail[i] == checks[i + 1];
      if !checks[0].applies && FirstOf(tail).Some? {
        var k :| && 0 <= k < |tail| && tail[k].applies && FirstOf(tail) == Some(tail[k].why)
                 && forall i :: 0 <= i < k ==> !tail[i].applies;
        assert checks[k + 1] == tail[k];
        assert forall i :: 0 < i < k + 1 ==> checks[i] == tail[i - 1];
      }
    }
  }

  // ----- epochs

  /** The check is on, both epochs are known, and the record's lies behind the one in force. */
  predicate Behind(cfg: Config, inForce: u64, epoch: u64) {
    cfg.staleEpoch && 0 < epoch < inForce
  }

  // ----- observations

  /** An infinity or NaN: all eleven exponent bits of the double are set. */
  predicate NonFinite(v: Value<Pattern>) {
    v.Double? && v.d / 0x10_0000_0000_0000 % 0x800 == 0x7FF
  }

  /** A memory size above the largest signed 64-bit number. */
  predicate Oversized(m: Measurement<Pattern>) {
    && m.normalizedField in {"memory.free_bytes", "memory.used_bytes", "memory.total_bytes"}
    && m.value.UInt? && m.value.u >= 0x8000_0000_0000_0000
  }

  predicate Faulty(m: Measurement<Pattern>) {
    NonFinite(m.value) || Oversized(m)
  }

  predicate FirstFaultAt(fields: seq<Measurement<Pattern>>, k: nat) {
    k < |fields| && Faulty(fields[k]) && forall i :: 0 <= i < k ==> !Faulty(fields[i])
  }

  /** The first faulty field is one that is not finite, or one that is oversized. */
  ghost predicate FirstIsNonFinite(fields: seq<Measurement<Pattern>>) {
    exists k: nat :: FirstFaultAt(fields, k) && NonFinite(fields[k].value)
  }

  ghost predicate FirstIsOversized(fields: seq<Measurement<Pattern>>) {
    exists k: nat :: FirstFaultAt(fields, k) && !NonFinite(fields[k].value)
  }

  /** The generation trusted and the boot trusted within it, 0 while there is none. */
  function Generation(a: Authority, id: u64): u64 {
    if id in a.generation then a.generation[id] else 0
  }

  function Boot(a: Authority, id: u64): u64 {
    if id in a.boot then a.boot[id] else 0
  }

  ghost function EarlyChecks(cfg: Config, s: State, o: Obs): seq<Check> {
    var trusted, boot := Generation(s.authority, o.sourceId), Boot(s.authority, o.sourceId);
    [ Check(o.observationId == 0, InvalidObservationId),
      Check(o.sourceId == 0, InvalidSourceId),
      Check(o.sourceGeneration == 0, ZeroSourceGeneration),
      Check(o.observationGeneration == 0, ZeroObservationGeneration),
      Check(exists i :: 0 <= i < |s.observed.log| && s.observed.log[i].observationId == o.observationId,
            DuplicateObservationId),
      Check(cfg.staleGeneration && o.sourceGeneration < trusted, StaleSourceGeneration),
      Check(cfg.staleBoot && o.sourceGeneration == trusted && boot != 0 && o.workerBoot != boot, StaleWorkerBoot) ]
  }

  ghost function LateChecks(cfg: Config, s: State, o: Obs): seq<Check> {
    [ Check(Behind(cfg, s.coordinator, o.coordinatorEpoch), StaleCoordinatorEpoch),
      Check(FirstIsNonFinite(o.fields), NonFiniteEvidence),
      Check(FirstIsOversized(o.fields), ImpossibleMemory) ]
  }

  lemma {:induction false} FieldsFaultIs(fields: seq<Measurement<Pattern>>)
    ensures FieldsFault(fields) ==
            if FirstIsNonFinite(fields) then Some(NonFiniteEvidence)
            else if FirstIsOversized(fields) then Some(ImpossibleMemory)
            else None
    ensures FieldsFault(fields) == None <==> forall i :: 0 <= i < |fields| ==> !Faulty(fields[i])
    decreases |fields|
  {
    hide NonFinite, Oversized, FieldFault;
    if fields == [] {
    } else {
      var tail := fields[1..];
      FieldFaultIs(fields[0]);
      FieldsFaultIs(tail);
      assert forall i :: 0 <= i < |tail| ==> tail[i] == fields[i + 1];
      if Faulty(fields[0]) {
        assert FirstFaultAt(fields, 0);
        assert forall k: nat :: FirstFaultAt(fields, k) ==> k == 0;
      } else {
        forall k: nat
          ensures FirstFaultAt(fields, k + 1) <==> FirstFaultAt(tail, k)
        {
          ShiftFirst(fields, k);
        }
        assert forall k: nat :: FirstFaultAt(fields, k) ==> k > 0 && FirstFaultAt(fields, (k - 1) + 1);
        assert forall k: nat :: FirstFaultAt(tail, k) ==> FirstFaultAt(fields, k + 1) && fields[k + 1] == tail[k];
      }
    }
  }

  lemma FieldFaultIs(m: Measurement<Pattern>)
    ensures FieldFault(m) ==
            if NonFinite(m.value) then Some(NonFiniteEvidence)
            else if Oversized(m) then Some(ImpossibleMemory)
            else None
  {
  }

  lemma ShiftFirst(fields: seq<Measurement<Pattern>>, k: nat)
    requires fields != [] && !Faulty(fields[0])
    ensures FirstFaultAt(fields, k + 1) <==> FirstFaultAt(fields[1..], k)
  {
    hide Faulty;
    var tail := fields[1..];
    assert forall i :: 0 <= i < |tail| ==> tail[i] == fields[i + 1];
    assert forall i :: 1 <= i < |fields| ==> fields[i] == tail[i - 1];
  }

  lemma KnownObservation(l: ObsLog, id: u64)
    requires ObsIndexed(l)
    ensures id in l.byId <==> exists i :: 0 <= i < |l.log| && l.log[i].observationId == id
  {
    hide Agrees;
    if id in l.byId {
      assert l.log[l.byId[id]].observationId == id;
    }
  }

  /** The answer to an observation: the first reason in this order that applies, else acceptance. */
  lemma ObservationVerdict(cfg: Config, s: State, o: Obs)
    requires Indexed(s)
    ensures Ingest(cfg, s, o).1 == Verdict(EarlyChecks(cfg, s, o) + LateChecks(cfg, s, o), s.events)
    ensures FirstOf(EarlyChecks(cfg, s, o)).None? <==>
            Malformed(s.observed, o).None? && Unauthorized(cfg, s.authority, o).None?
  {
    hide IndexObs, FieldsFault, ObsIndexed, DecIndexed, FirstIsNonFinite, FirstIsOversized, Authorize, FirstOf;
    KnownObservation(s.observed, o.observationId);
    FieldsFaultIs(o.fields);
    UnfoldEarly(EarlyChecks(cfg, s, o), LateChecks(cfg, s, o));
  }

  lemma UnfoldEarly(e: seq<Check>, l: seq<Check>)
    requires |e| == 7 && |l| == 3
    ensures FirstOf(e + l) ==
            if FirstOf(e).Some? then FirstOf(e)
            else if l[0].applies then Some(l[0].why)
            else if l[1].applies then Some(l[1].why)
            else if l[2].applies then Some(l[2].why)
            else None
    ensures FirstOf(e) ==
            if e[0].applies then Some(e[0].why)
            else if e[1].applies then Some(e[1].why)
            else if e[2].applies then Some(e[2].why)
            else if e[3].applies then Some(e[3].why)
            else if e[4].applies then Some(e[4].why)
            else if e[5].applies then Some(e[5].why)
            else if e[6].applies then Some(e[6].why)
            else None
  {
    Unfold(e, 0);
    Unfold(e, 1);
    Unfold(e, 2);
    Unfold(e, 3);
    Unfold(e, 4);
    Unfold(e, 5);
    Unfold(e, 6);
    Unfold(l, 0);
    Unfold(l, 1);
    Unfold(l, 2);
    FirstOfConcat(e, l);
  }

  lemma {:induction false} FirstOfConcat(a: seq<Check>, b: seq<Check>)
    ensures FirstOf(a + b) == if FirstOf(a).Some? then FirstOf(a) else FirstOf(b)
    decreases |a|
  {
    if a == [] {
      assert a + b == b;
    } else {
      assert (a + b)[0] == a[0] && (a + b)[1..] == a[1..] + b;
      FirstOfConcat(a[1..], b);
    }
  }

  lemma Unfold(c: seq<Check>, k: nat)
    requires k < |c|
    ensures FirstOf(c[k..]) == if c[k].applies then Some(c[k].why) else FirstOf(c[k + 1..])
    ensures c[0..] == c && FirstOf(c[|c|..]) == None
  {
    assert c[k..][1..] == c[k + 1..];
  }

  /** Exactly which observations are logged. */
  lemma ObservationAccepted(cfg: Config, s: State, o: Obs)
    requires Indexed(s)
    ensures
      var trusted, boot := Generation(s.authority, o.sourceId), Boot(s.authority, o.sourceId);
      Ingest(cfg, s, o).1.Accepted? <==>
        && o.observationId != 0 && o.sourceId != 0 && o.sourceGeneration != 0 && o.observationGeneration != 0
        && (forall i :: 0 <= i < |s.observed.log| ==> s.observed.log[i].observationId != o.observationId)
        && (!cfg.staleGeneration || o.sourceGeneration >= trusted)
        && (!cfg.staleBoot || o.sourceGeneration != trusted || boot == 0 || o.workerBoot == boot)
        && (!cfg.staleEpoch || s.coordinator == 0 || o.coordinatorEpoch == 0 || o.coordinatorEpoch >= s.coordinator)
        && forall i :: 0 <= i < |o.fields| ==> !Faulty(o.fields[i])
  {
    hide IndexObs, FieldsFault, ObsIndexed, DecIndexed, Authorize, Faulty;
    KnownObservation(s.observed, o.observationId);
    FieldsFaultIs(o.fields);
  }

  /** What an observation changes. Its source is believed once the early checks pass, whatever the
      late ones say; the record is logged as correlated if nothing applies. */
  lemma ObservationEffect(cfg: Config, s: State, o: Obs)
    requires Indexed(s)
    ensures
      var (t, reply) := Ingest(cfg, s, o);
      var believed := FirstOf(EarlyChecks(cfg, s, o)).None?;
      var trusted, boot := Generation(s.authority, o.sourceId), Boot(s.authority, o.sourceId);
      && (forall id: u64 :: Generation(t.authority, id) ==
            if believed && id == o.sourceId && o.sourceGeneration > trusted then o.sourceGeneration
            else Generation(s.authority, id))
      && (forall id: u64 :: Boot(t.authority, id) ==
            if believed && id == o.sourceId && (o.sourceGeneration > trusted || boot == 0) then o.workerBoot
            else Boot(s.authority, id))
      && t.superseded == s.superseded + (if believed && 0 < trusted < o.sourceGeneration then 1 else 0)
      && t.observed.log == s.observed.log + (if reply.Accepted? then [o.(lifecycle := 2)] else [])
      && t.events == s.events + (if reply.Accepted? then 1 else 0)
      && t.rejected == s.rejected + (if reply.Accepted? then 0 else 1)
      && t.decided == s.decided && t.outcomes == s.outcomes && t.sources == s.sources && t.coordinator == s.coordinator
  {
    hide IndexObs, ObsIndexed, DecIndexed, Malformed, Unauthorized, LateFault, Authorize, FirstOf, EarlyChecks;
    ObservationVerdict(cfg, s, o);
    BelievedChanges(s.authority, o);
  }

  lemma BelievedChanges(a: Authority, o: Obs)
    ensures
      var b, trusted, boot := Authorize(a, o), Generation(a, o.sourceId), Boot(a, o.sourceId);
      && (forall id: u64 :: Generation(b, id) ==
            if id == o.sourceId && o.sourceGeneration > trusted then o.sourceGeneration else Generation(a, id))
      && (forall id: u64 :: Boot(b, id) ==
            if id == o.sourceId && (o.sourceGeneration > trusted || boot == 0) then o.workerBoot else Boot(a, id))
      && (Supersedes(a, o) <==> 0 < trusted < o.sourceGeneration)
  {
  }

  /** A registration raises the generation or, for a source unknown so far, sets it; either way the
      boot is forgotten. Otherwise authority stays; the descriptor is replaced in any case. */
  lemma RegistrationEffect(s: State, d: SourceDescriptor)
    ensures
      var t := Register(s, d);
      var news := d.sourceId !in s.authority.generation || d.generation > Generation(s.authority, d.sourceId);
      && (forall id: u64 :: Generation(t.authority, id) ==
            if news && id == d.sourceId then d.generation else Generation(s.authority, id))
      && (forall id: u64 :: Boot(t.authority, id) ==
            if news && id == d.sourceId then 0 else Boot(s.authority, id))
      && t.sources.Keys == s.sources.Keys + {d.sourceId}
      && (forall id <- t.sources :: t.sources[id] == if id == d.sourceId then d else s.sources[id])
      && t == s.(authority := t.authority, sources := t.sources)
  {
  }

  // ----- decisions

  predicate Infinite(d: Pattern) {
    d / 0x10_0000_0000_0000 % 0x800 == 0x7FF
  }

  predicate InfiniteCost(c: CostComponent<Pattern>) {
    Infinite(c.cost) || Infinite(c.policyWeight)
  }

  /** A total, a cost, a weight or a score somewhere in the decision is not finite. */
  predicate InfiniteSomewhere(d: Dec) {
    var cs := d.candidateSet.candidates;
    || (exists i :: 0 <= i < |cs| && Infinite(cs[i].totalCost))
    || (exists i, k :: 0 <= i < |cs| && 0 <= k < |cs[i].costs| && InfiniteCost(cs[i].costs[k]))
    || (exists k :: 0 <= k < |d.costComponents| && InfiniteCost(d.costComponents[k]))
    || (exists k :: 0 <= k < |d.scoreComponents| && Infinite(d.scoreComponents[k].value))
  }

  /** A candidate that tells its total memory, but more used or more free. */
  predicate Overcommitted(c: Candidate<Pattern>) {
    c.memory.totalBytes > 0 && (c.memory.usedBytes > c.memory.totalBytes || c.memory.freeBytes > c.memory.totalBytes)
  }

  ghost function DecisionChecks(cfg: Config, s: State, d: Dec): seq<Check> {
    var log, cs := s.decided.log, d.candidateSet.candidates;
    var complete := d.candidateSet.complete;
    [ Check(d.decisionId == 0, InvalidDecisionId),
      Check(exists i :: 0 <= i < |log| && log[i].decisionId == d.decisionId, DuplicateDecisionId),
      Check(d.attemptId != 0 && exists i :: 0 <= i < |log| && log[i].attemptId == d.attemptId, DuplicateAttempt),
      Check(d.placementGeneration == 0, ZeroPlacementGeneration),
      Check(d.selectedCandidate == 0, InvalidSelectedCandidate),
      Check(complete && |cs| == 0, EmptyCompleteSet),
      Check(complete && forall i :: 0 <= i < |cs| ==> cs[i].candidateId != d.selectedCandidate, SelectedAbsent),
      Check(complete && d.candidateSet.reconstructed, CompleteAndReconstructed),
      Check(InfiniteSomewhere(d), NonFiniteCost),
      Check(exists i :: 0 <= i < |cs| && Overcommitted(cs[i]), ImpossibleMemory),
      Check(Behind(cfg, s.coordinator, d.provenance.coordinatorEpoch), StaleCoordinatorEpoch) ]
  }

  lemma FiniteIsNotInfinite()
    ensures forall p: Pattern :: Finite(p) <==> !Infinite(p)
  {
  }

  lemma InfinityFound(d: Dec)
    ensures FiniteCosts(d) <==> !InfiniteSomewhere(d)
  {
    hide Finite, Infinite;
    FiniteIsNotInfinite();
  }

  lemma KnownAttempt(l: DecLog, d: Dec)
    requires DecIndexed(l) && d.decisionId !in l.byId
    ensures AttemptTaken(l, d) <==>
            d.attemptId != 0 && exists i :: 0 <= i < |l.log| && l.log[i].attemptId == d.attemptId
  {
    hide Agrees;
    if AttemptTaken(l, d) {
      var at := TakenIsLogged(l, d);
    }
    assert Find(l.index.attempt, d.attemptId) == Latest(Attempts(l.log), d.attemptId);
    LatestExact(Attempts(l.log), d.attemptId);
    if d.attemptId != 0 && exists i :: 0 <= i < |l.log| && l.log[i].attemptId == d.attemptId {
      var i :| 0 <= i < |l.log| && l.log[i].attemptId == d.attemptId;
      assert Attempts(l.log)[i] == Some(d.attemptId);
    }
  }

  /** The answer to a decision: the first reason in this order that applies, else acceptance. */
  lemma DecisionVerdict(cfg: Config, s: State, d: Dec)
    requires Indexed(s)
    ensures IngestDecision(cfg, s, d).1 == Verdict(DecisionChecks(cfg, s, d), s.events)
  {
    hide IndexDec, ObsIndexed, DecIndexed, AttemptTaken, FiniteCosts, InfiniteSomewhere, FirstOf;
    KnownIsLogged(s.decided, d.decisionId);
    KnownDecision(s.decided, d.decisionId);
    if d.decisionId !in s.decided.byId {
      KnownAttempt(s.decided, d);
    }
    InfinityFound(d);
    UnfoldEleven(DecisionChecks(cfg, s, d));
  }

  lemma KnownDecision(l: DecLog, id: u64)
    requires DecIndexed(l)
    ensures id in l.byId <==> exists i :: 0 <= i < |l.log| && l.log[i].decisionId == id
  {
    hide Agrees, Remembers;
    if id in l.byId {
      assert l.log[l.byId[id]].decisionId == id;
    }
  }

  lemma UnfoldEleven(c: seq<Check>)
    requires |c| == 11
    ensures FirstOf(c) ==
            if c[0].applies then Some(c[0].why)
            else if c[1].applies then Some(c[1].why)
            else if c[2].applies then Some(c[2].why)
            else if c[3].applies then Some(c[3].why)
            else if c[4].applies then Some(c[4].why)
            else if c[5].applies then Some(c[5].why)
            else if c[6].applies then Some(c[6].why)
            else if c[7].applies then Some(c[7].why)
            else if c[8].applies then Some(c[8].why)
            else if c[9].applies then Some(c[9].why)
            else if c[10].applies then Some(c[10].why)
            else None
  {
    Unfold(c, 0);
    Unfold(c, 1);
    Unfold(c, 2);
    Unfold(c, 3);
    Unfold(c, 4);
    Unfold(c, 5);
    Unfold(c, 6);
    Unfold(c, 7);
    Unfold(c, 8);
    Unfold(c, 9);
    Unfold(c, 10);
  }

  /** Exactly which decisions are logged. */
  lemma DecisionAccepted(cfg: Config, s: State, d: Dec)
    requires Indexed(s)
    ensures
      var log, cs := s.decided.log, d.candidateSet.candidates;
      var epoch := d.provenance.coordinatorEpoch;
      IngestDecision(cfg, s, d).1.Accepted? <==>
        && d.decisionId != 0 && d.placementGeneration != 0 && d.selectedCandidate != 0
        && (forall i :: 0 <= i < |log| ==> log[i].decisionId != d.decisionId)
        && (d.attemptId == 0 || forall i :: 0 <= i < |log| ==> log[i].attemptId != d.attemptId)
        && (d.candidateSet.complete ==>
              !d.candidateSet.reconstructed && exists i :: 0 <= i < |cs| && cs[i].candidateId == d.selectedCandidate)
        && !InfiniteSomewhere(d) && (forall i :: 0 <= i < |cs| ==> !Overcommitted(cs[i]))
        && (!cfg.staleEpoch || s.coordinator == 0 || epoch == 0 || epoch >= s.coordinator)
  {
    hide IndexDec, ObsIndexed, DecIndexed, FirstOf, InfiniteSomewhere, IngestDecision;
    DecisionVerdict(cfg, s, d);
    UnfoldEleven(DecisionChecks(cfg, s, d));
  }

  /** An accepted decision is logged as it is and counted as an event; a rejected one only counts as
      a rejection. */
  lemma DecisionEffect(cfg: Config, s: State, d: Dec)
    ensures
      var (t, reply) := IngestDecision(cfg, s, d);
      if reply.Accepted? then
        && t.decided.log == s.decided.log + [d] && t == s.(decided := t.decided, events := s.events + 1)
      else
        t == s.(rejected := s.rejected + 1)
  {
    hide IndexDec, DecisionFault;
  }

  // ----- outcomes

  ghost function OutcomeChecks(s: State, o: Outcome): seq<Check> {
    var log := s.decided.log;
    [ Check(o.decisionId == 0, InvalidOutcomeDecisionId),
      Check(forall i :: 0 <= i < |log| ==> log[i].decisionId != o.decisionId, OutcomeBeforeDecision),
      Check(o.decisionId in s.outcomes, DuplicateOutcome),
      Check(exists i :: && 0 <= i < |log| && log[i].decisionId == o.decisionId
                        && log[i].attemptId != 0 && o.attemptId != 0 && log[i].attemptId != o.attemptId,
            OutcomeWrongGeneration),
      Check(o.disposition == 0, UnknownDisposition) ]
  }

  lemma KnownAttemptOf(l: DecLog, o: Outcome)
    requires DecIndexed(l)
    ensures DecisionOf(l, o.decisionId).None? <==> forall i :: 0 <= i < |l.log| ==> l.log[i].decisionId != o.decisionId
    ensures DecisionOf(l, o.decisionId).Some? ==>
              (!Compatible(o, DecisionOf(l, o.decisionId).value) <==>
               exists i :: && 0 <= i < |l.log| && l.log[i].decisionId == o.decisionId
                           && l.log[i].attemptId != 0 && o.attemptId != 0 && l.log[i].attemptId != o.attemptId)
  {
    hide Agrees, Remembers;
    KnownDecision(l, o.decisionId);
    if DecisionOf(l, o.decisionId).Some? {
      var at := l.byId[o.decisionId];
      assert forall i :: 0 <= i < |l.log| && l.log[i].decisionId == o.decisionId ==> i == at;
    }
  }

  /** The answer to an outcome: the first reason in this order that applies, else acceptance, which
      files it under its decision. */
  lemma OutcomeVerdict(s: State, o: Outcome)
    requires Indexed(s)
    ensures
      var (t, reply) := IngestOutcome(s, o);
      && reply == Verdict(OutcomeChecks(s, o), s.events)
      && t == if reply.Accepted? then s.(outcomes := s.outcomes[o.decisionId := o], events := s.events + 1)
              else s.(rejected := s.rejected + 1)
  {
    hide ObsIndexed, DecIndexed, DecisionOf, Compatible, FirstOf;
    KnownAttemptOf(s.decided, o);
    UnfoldFive(OutcomeChecks(s, o));
  }

  lemma UnfoldFive(c: seq<Check>)
    requires |c| == 5
    ensures FirstOf(c) ==
            if c[0].applies then Some(c[0].why)
            else if c[1].applies then Some(c[1].why)
            else if c[2].applies then Some(c[2].why)
            else if c[3].applies then Some(c[3].why)
            else if c[4].applies then Some(c[4].why)
            else None
  {
    Unfold(c, 0);
    Unfold(c, 1);
    Unfold(c, 2);
    Unfold(c, 3);
    Unfold(c, 4);
  }

  // ----- coordinator epochs over a run

  /** The epoch in force after the calls: the last one set. */
  function EpochInForce(start: u64, calls: seq<Call>): u64
    decreases |calls|
  {
    if calls == [] then start
    else
      var n := |calls| - 1;
      if calls[n].CoordinatorEpoch? then calls[n].epoch else EpochInForce(start, calls[..n])
  }

  lemma {:induction false} RunSnoc(cfg: Config, s: State, calls: seq<Call>, c: Call)
    ensures Run(cfg, s, calls + [c]) == Step(cfg, Run(cfg, s, calls), c)
    decreases |calls|
  {
    hide Step;
    if calls == [] {
      assert [] + [c] == [c] && [c][1..] == [];
    } else {
      assert (calls + [c])[0] == calls[0] && (calls + [c])[1..] == calls[1..] + [c];
      RunSnoc(cfg, Step(cfg, s, calls[0]), calls[1..], c);
    }
  }

  lemma StepSetsEpoch(cfg: Config, s: State, c: Call)
    requires !c.Restore?
    ensures Step(cfg, s, c).coordinator == if c.CoordinatorEpoch? then c.epoch else s.coordinator
  {
    hide IndexObs, IndexDec, Malformed, Unauthorized, LateFault, DecisionFault, OutcomeFault, Authorize, Enrol;
  }

  lemma {:induction false} RunSetsEpoch(cfg: Config, s: State, calls: seq<Call>)
    requires NoRestore(calls)
    ensures Run(cfg, s, calls).coordinator == EpochInForce(s.coordinator, calls)
    decreases |calls|
  {
    hide Step;
    if calls == [] {
    } else {
      var n := |calls| - 1;
      assert calls == calls[..n] + [calls[n]];
      RunSnoc(cfg, s, calls[..n], calls[n]);
      RunSetsEpoch(cfg, s, calls[..n]);
      StepSetsEpoch(cfg, Run(cfg, s, calls[..n]), calls[n]);
    }
  }

  /** Unknown, or not behind the epoch in force. */
  predicate Current(epoch: u64, inForce: u64) {
    epoch == 0 || epoch >= inForce
  }

  lemma IngestLogsCurrent(cfg: Config, s: State, o: Obs)
    requires cfg.staleEpoch
    ensures
      var t := Ingest(cfg, s, o).0;
      && t.decided == s.decided
      && (t.observed == s.observed
          || (t.observed.log == s.observed.log + [Correlated(o)] && Current(o.coordinatorEpoch, s.coordinator)))
  {
    hide IndexObs, Malformed, Unauthorized, FieldsFault, Authorize;
  }

  lemma DecideLogsCurrent(cfg: Config, s: State, d: Dec)
    requires cfg.staleEpoch
    ensures
      var t := IngestDecision(cfg, s, d).0;
      && t.observed == s.observed
      && (t.decided == s.decided
          || (t.decided.log == s.decided.log + [d] && Current(d.provenance.coordinatorEpoch, s.coordinator)))
  {
    hide IndexDec, AttemptTaken, FiniteCosts, Lists;
  }

  lemma StepLogsCurrent(cfg: Config, s: State, c: Call)
    requires cfg.staleEpoch && !c.Restore?
    ensures
      var t := Step(cfg, s, c);
      && s.observed.log <= t.observed.log && s.decided.log <= t.decided.log
      && (forall i :: |s.observed.log| <= i < |t.observed.log| ==>
            Current(t.observed.log[i].coordinatorEpoch, s.coordinator))
      && forall i :: |s.decided.log| <= i < |t.decided.log| ==>
           Current(t.decided.log[i].provenance.coordinatorEpoch, s.coordinator)
  {
    hide IndexObs, IndexDec, Ingest, IngestDecision, OutcomeFault, Enrol, Current;
    match c {
      case Observe(o) => IngestLogsCurrent(cfg, s, o);
      case Decide(d) => DecideLogsCurrent(cfg, s, d);
      case _ =>
    }
  }

  /** Over any run without recovery, with the check on: whatever a call logs carries no epoch or one
      that is not behind the epoch last set before it. */
  lemma RunLogsCurrent(cfg: Config, s: State, calls: seq<Call>, k: nat)
    requires cfg.staleEpoch && NoRestore(calls) && k < |calls|
    ensures
      var before, after := Run(cfg, s, calls[..k]), Run(cfg, s, calls[..k + 1]);
      var inForce := EpochInForce(s.coordinator, calls[..k]);
      && before.observed.log <= after.observed.log && before.decided.log <= after.decided.log
      && (forall i :: |before.observed.log| <= i < |after.observed.log| ==>
            Current(after.observed.log[i].coordinatorEpoch, inForce))
      && forall i :: |before.decided.log| <= i < |after.decided.log| ==>
           Current(after.decided.log[i].provenance.coordinatorEpoch, inForce)
  {
    hide Step, Run, Current;
    assert calls[..k + 1] == calls[..k] + [calls[k]];
    RunSnoc(cfg, s, calls[..k], calls[k]);
    RunSetsEpoch(cfg, s, calls[..k]);
    StepLogsCurrent(cfg, Run(cfg, s, calls[..k]), calls[k]);
  }
}
