/** The books of the observatory: what is counted, what is linked to what, what a rejection leaves
    alone, and how queries by one key relate to the indexes. */
module Accounting {
  import opened Base
  import opened Model
  import opened Sequences
  import opened Indexes
  import opened Store
  import opened Runs
  import opened AuthorityLaws

  // ----- rejections and append-only growth

  function ReplyOf(cfg: Config, s: State, c: Call): Option<Reply> {
    match c
    case Observe(o) => Some(Ingest(cfg, s, o).1)
    case Decide(d) => Some(IngestDecision(cfg, s, d).1)
    case Finish(o) => Some(IngestOutcome(s, o).1)
    case _ => None
  }

  predicate Accepts(cfg: Config, s: State, c: Call) {
    ReplyOf(cfg, s, c).Some? && ReplyOf(cfg, s, c).value.Accepted?
  }

  /** A rejected call changes no log, no index, no outcome and no event count; the caller is told
      the event count as it stands. */
  lemma RejectionKeepsRecords(cfg: Config, s: State, c: Call)
    requires ReplyOf(cfg, s, c).Some? && ReplyOf(cfg, s, c).value.Rejected?
    ensures
      var t := Step(cfg, s, c);
      && t.observed == s.observed && t.decided == s.decided && t.outcomes == s.outcomes
      && t.sources == s.sources && t.coordinator == s.coordinator
      && t.events == s.events == ReplyOf(cfg, s, c).value.events && t.rejected == s.rejected + 1
  {
    hide Malformed, Unauthorized, LateFault, Authorize, DecisionFault, OutcomeFault, IndexObs, IndexDec;
  }

  predicate Extends(s: State, t: State) {
    && s.observed.log <= t.observed.log && s.decided.log <= t.decided.log
    && forall id <- s.outcomes :: id in t.outcomes && t.outcomes[id] == s.outcomes[id]
  }

  lemma LoadRecordExtends(s: State, r: RecordLog.Record)
    requires LoadRecord(s, r).Ok?
    ensures Extends(s, LoadRecord(s, r).value.0)
  {
    hide Records.GetObservation, Records.GetDecision, Records.GetOutcome, Records.GetSourceDescriptor, Serialize.GetU64;
    hide IndexObs, IndexDec, Readopt, RaiseTo;
  }

  lemma {:induction false} LoadExtends(s: State, rs: seq<RecordLog.Record>, loaded: nat)
    ensures Extends(s, Load(s, rs, loaded).0)
    decreases |rs|
  {
    hide LoadRecord;
    if rs == [] || LoadRecord(s, rs[0]).Err? {
    } else {
      var (t, counted) := LoadRecord(s, rs[0]).value;
      LoadRecordExtends(s, rs[0]);
      LoadExtends(t, rs[1..], if counted then loaded + 1 else loaded);
    }
  }

  lemma StepExtends(cfg: Config, s: State, c: Call)
    ensures Extends(s, Step(cfg, s, c))
  {
    hide Malformed, Unauthorized, LateFault, Authorize, DecisionFault, IndexObs, IndexDec, Load, RecordLog.Parse, Enrol;
    if c.Restore? {
      LoadExtends(s, RecordLog.Parse(c.file), 0);
    }
  }

  /** Evidence is immutable: no call ever removes, reorders or replaces a logged observation, a
      logged decision or a recorded outcome. */
  lemma {:induction false} RunExtends(cfg: Config, s: State, calls: seq<Call>)
    ensures Extends(s, Run(cfg, s, calls))
    decreases |calls|
  {
    hide Step;
    if calls == [] {
    } else {
      StepExtends(cfg, s, calls[0]);
      RunExtends(cfg, Step(cfg, s, calls[0]), calls[1..]);
    }
  }

  // ----- counting

  function IngestCalls(calls: seq<Call>): nat {
    if calls == [] then 0
    else (if calls[0].Observe? || calls[0].Decide? || calls[0].Finish? then 1 else 0) + IngestCalls(calls[1..])
  }

  /** How many calls of a run are answered with acceptance. */
  function AcceptedCalls(cfg: Config, s: State, calls: seq<Call>): nat
    decreases |calls|
  {
    if calls == [] then 0
    else (if Accepts(cfg, s, calls[0]) then 1 else 0) + AcceptedCalls(cfg, Step(cfg, s, calls[0]), calls[1..])
  }

  /** `events` counts what is on record. */
  predicate Balanced(s: State) {
    s.events == |s.observed.log| + |s.decided.log| + |s.outcomes|
  }

  lemma {:induction false} LoadKeepsCounters(s: State, rs: seq<RecordLog.Record>, loaded: nat)
    ensures var t := Load(s, rs, loaded).0;
            t.rejected == s.rejected && t.events == s.events
    decreases |rs|
  {
    hide LoadRecord;
    if rs == [] || LoadRecord(s, rs[0]).Err? {
    } else {
      var (t, counted) := LoadRecord(s, rs[0]).value;
      RecordKeepsCounters(s, rs[0]);
      LoadKeepsCounters(t, rs[1..], if counted then loaded + 1 else loaded);
    }
  }

  lemma RecordKeepsCounters(s: State, r: RecordLog.Record)
    requires LoadRecord(s, r).Ok?
    ensures var t := LoadRecord(s, r).value.0;
            t.rejected == s.rejected && t.events == s.events
  {
    hide Records.GetObservation, Records.GetDecision, Records.GetOutcome, Records.GetSourceDescriptor, Serialize.GetU64;
    hide AppendObs, AppendDec, Readopt, RaiseTo;
  }

  lemma StepCounts(cfg: Config, s: State, c: Call)
    ensures
      var t := Step(cfg, s, c);
      var accepted := if Accepts(cfg, s, c) then 1 else 0;
      && (t.rejected - s.rejected) + accepted == IngestCalls([c])
      && t.events - s.events == accepted
      && (!c.Restore? && Balanced(s) ==> Balanced(t))
  {
    hide Malformed, Unauthorized, LateFault, Authorize, DecisionFault, DecisionOf, Compatible, IndexObs,
      IndexDec, Enrol;
    hide Load, RecordLog.Parse;
    assert [c][1..] == [];
    if c.Restore? {
      LoadKeepsCounters(s, RecordLog.Parse(c.file), 0);
    }
  }

  /** On every run accepted plus rejected calls are all the ingest calls and each acceptance is one
      event; without recovery the events are the observations, decisions and outcomes. */
  lemma {:induction false} RunCounts(cfg: Config, s: State, calls: seq<Call>)
    ensures (Run(cfg, s, calls).rejected - s.rejected) + AcceptedCalls(cfg, s, calls) == IngestCalls(calls)
    ensures Run(cfg, s, calls).events == s.events + AcceptedCalls(cfg, s, calls)
    ensures NoRestore(calls) && Balanced(s) ==> Balanced(Run(cfg, s, calls))
    decreases |calls|
  {
    hide Step, Balanced, Accepts;
    if calls == [] {
    } else {
      StepCounts(cfg, s, calls[0]);
      RunCounts(cfg, Step(cfg, s, calls[0]), calls[1..]);
    }
  }

  // ----- linkage

  /** No placement attempt is on record for two decisions. */
  predicate AttemptsUnique(log: seq<Dec>) {
    forall i, j :: 0 <= i < j < |log| && log[i].attemptId != 0 ==> log[i].attemptId != log[j].attemptId
  }

  /** Every outcome is filed under its decision, which is on record with a compatible attempt. */
  predicate OutcomesLinked(l: DecLog, outcomes: map<u64, Outcome>) {
    forall id <- outcomes ::
      && outcomes[id].decisionId == id && outcomes[id].disposition != DISPOSITION_UNKNOWN
      && DecisionOf(l, id).Some? && Compatible(outcomes[id], DecisionOf(l, id).value)
  }

  ghost predicate Linked(s: State) {
    DecIndexed(s.decided) && AttemptsUnique(s.decided.log) && OutcomesLinked(s.decided, s.outcomes)
  }

  lemma AppendKeepsAttempts(l: DecLog, d: Dec)
    requires DecIndexed(l) && AttemptsUnique(l.log) && d.decisionId !in l.byId && !AttemptTaken(l, d)
    ensures AttemptsUnique(l.log + [d])
  {
    hide Agrees;
    if d.attemptId != 0 {
      LatestExact(Attempts(l.log), d.attemptId);
      assert Find(l.index.attempt, d.attemptId) == Latest(Attempts(l.log), d.attemptId);
      forall i | 0 <= i < |l.log|
        ensures l.log[i].attemptId != d.attemptId
      {
        assert Attempts(l.log)[i] == IfValid(l.log[i].attemptId);
      }
    }
  }

  lemma AppendKeepsOutcomes(l: DecLog, d: Dec, outcomes: map<u64, Outcome>)
    requires OutcomesLinked(l, outcomes) && d.decisionId !in l.byId
    ensures OutcomesLinked(AppendDec(l, d), outcomes)
  {
    hide IndexDec, Compatible;
    forall id <- outcomes
      ensures DecisionOf(AppendDec(l, d), id) == DecisionOf(l, id)
    {
      assert DecisionOf(l, id).Some?;
    }
  }

  lemma StepLinked(cfg: Config, s: State, c: Call)
    requires Linked(s) && !c.Restore?
    ensures Linked(Step(cfg, s, c))
  {
    hide DecIndexed, AttemptsUnique, Compatible, DecisionOf, Ingest, AttemptTaken, FiniteCosts, Lists, IndexDec, Enrol;
    match c {
      case Decide(d) =>
        if Accepts(cfg, s, c) {
          AppendDecIndexed(s.decided, d);
          AppendKeepsAttempts(s.decided, d);
          AppendKeepsOutcomes(s.decided, d, s.outcomes);
        }
      case Observe(o) => IngestKeepsDecisions(cfg, s, o);
      case _ =>
    }
  }

  lemma IngestKeepsDecisions(cfg: Config, s: State, o: Obs)
    ensures Ingest(cfg, s, o).0.decided == s.decided && Ingest(cfg, s, o).0.outcomes == s.outcomes
  {
    hide Malformed, Unauthorized, LateFault, Authorize, IndexObs;
  }

  /** On every run without recovery, valid attempt ids are unique over the decisions and every
      outcome belongs to a logged decision of a compatible attempt. */
  lemma {:induction false} RunLinked(cfg: Config, s: State, calls: seq<Call>)
    requires Linked(s) && NoRestore(calls)
    ensures Linked(Run(cfg, s, calls))
    decreases |calls|
  {
    hide Linked, Step;
    if calls == [] {
    } else {
      StepLinked(cfg, s, calls[0]);
      RunLinked(cfg, Step(cfg, s, calls[0]), calls[1..]);
    }
  }

  // ----- what can be on record

  /** Evidence fit to be logged: identified, with finite numbers and possible memory sizes. */
  predicate SoundObs(o: Obs) {
    && o.observationId != 0 && o.sourceId != 0 && o.sourceGeneration != 0 && o.observationGeneration != 0
    && o.lifecycle == LIFECYCLE_CORRELATED
    && forall i :: 0 <= i < |o.fields| ==>
                     && (o.fields[i].value.Double? ==> Finite(o.fields[i].value.d))
                     && (MemoryField(o.fields[i].normalizedField) && o.fields[i].value.UInt? ==>
                        o.fields[i].value.u < TWO64 / 2)
  }

  /** A decision fit to be logged: identified, finite, and consistent with its candidate set. */
  predicate SoundDec(d: Dec) {
    && d.decisionId != 0 && d.placementGeneration != 0 && d.selectedCandidate != 0 && FiniteCosts(d)
    && (d.candidateSet.complete ==>
       Lists(d.candidateSet.candidates, d.selectedCandidate) && !d.candidateSet.reconstructed)
    && forall i :: 0 <= i < |d.candidateSet.candidates| ==> !ImpossibleMemoryOf(d.candidateSet.candidates[i].memory)
  }

  predicate SoundLogs(s: State) {
    && (forall i :: 0 <= i < |s.observed.log| ==> SoundObs(s.observed.log[i]))
    && (forall i :: 0 <= i < |s.decided.log| ==> SoundDec(s.decided.log[i]))
  }

  lemma {:induction false} NoFieldFault(fields: seq<Measurement<Pattern>>, i: nat)
    requires FieldsFault(fields).None? && i < |fields|
    ensures FieldFault(fields[i]).None?
    decreases |fields|
  {
    if i == 0 {
    } else {
      NoFieldFault(fields[1..], i - 1);
    }
  }

  lemma AcceptedObsIsSound(cfg: Config, s: State, o: Obs)
    requires Ingest(cfg, s, o).1.Accepted?
    ensures SoundObs(Correlated(o))
  {
    hide Unauthorized, Authorize, IndexObs, FieldsFault, Finite, MemoryField;
    forall i | 0 <= i < |o.fields|
      ensures FieldFault(o.fields[i]).None?
    {
      NoFieldFault(o.fields, i);
    }
  }

  lemma StepSound(cfg: Config, s: State, c: Call)
    requires SoundLogs(s) && !c.Restore?
    ensures SoundLogs(Step(cfg, s, c))
  {
    hide SoundObs, FiniteCosts, Lists, AttemptTaken, IndexObs, IndexDec, Authorize, Unauthorized, LateFault,
      Malformed, OutcomeFault, Enrol;
    match c {
      case Observe(o) =>
        if Accepts(cfg, s, c) {
          AcceptedObsIsSound(cfg, s, o);
        }
      case _ =>
    }
  }

  /** Whatever is sent, short of a recovery: nothing unidentified, no infinity or NaN, no impossible
      memory size and no decision at odds with its complete candidate set is ever on record. */
  lemma {:induction false} RunSound(cfg: Config, s: State, calls: seq<Call>)
    requires SoundLogs(s) && NoRestore(calls)
    ensures SoundLogs(Run(cfg, s, calls))
    decreases |calls|
  {
    hide SoundLogs, Step;
    if calls == [] {
    } else {
      StepSound(cfg, s, calls[0]);
      RunSound(cfg, Step(cfg, s, calls[0]), calls[1..]);
    }
  }

  // ----- queries by one key

  const ANYTHING: QueryFilter := QueryFilter(0, 0, 0, 0, 0, 0, 0, 0, 0, 0, 0, 0, 0)

  /** The filter that asks for one indexed key only. */
  function OnlyObs(w: ObsKey, k: u64): QueryFilter {
    match w
    case OWorkload => ANYTHING.(workloadId := k)
    case ORequest => ANYTHING.(requestId := k)
    case ONode => ANYTHING.(nodeId := k)
    case ODevice => ANYTHING.(deviceId := k)
    case OSource => ANYTHING.(sourceId := k)
    case OGeneration => ANYTHING.(sourceGeneration := k)
    case OEpoch => ANYTHING.(epoch := k)
    case ONamespace => ANYTHING.(namespaceId := k)
    case OAttempt => ANYTHING.(attemptId := k)
  }

  /** Likewise for decisions; the selected candidate cannot be asked for by a filter. */
  function OnlyDec(w: DecKey, k: u64): QueryFilter
    requires w != DSelected
  {
    match w
    case DWorkload => ANYTHING.(workloadId := k)
    case DRequest => ANYTHING.(requestId := k)
    case DNode => ANYTHING.(nodeId := k)
    case DDevice => ANYTHING.(deviceId := k)
    case DEpoch => ANYTHING.(epoch := k)
    case DNamespace => ANYTHING.(namespaceId := k)
    case DPolicy => ANYTHING.(policyGeneration := k)
  }

  lemma OnlyObsMeansKey(w: ObsKey, k: u64, o: Obs)
    requires k != 0
    ensures MatchesObs(OnlyObs(w, k), o) <==> ObsKeyOf(w, o) == Some(k)
  {
  }

  lemma OnlyDecMeansKey(w: DecKey, k: u64, d: Dec)
    requires k != 0 && w != DSelected
    ensures MatchesDec(OnlyDec(w, k), d) <==> DecKeyOf(w, d) == Some(k)
  {
  }

  /** Asking the index for a key gives exactly what filtering the whole log by it gives. */
  lemma ObsLookupIsScan(l: ObsLog, w: ObsKey, k: u64)
    requires ObsIndexed(l) && k != 0
    ensures
      var at := Lookup(ObsIndexBy(l.index, w), k);
      && (forall i :: 0 <= i < |at| ==> at[i] < |l.log|)
      && Gather(l.log, at) == Filter(o => MatchesObs(OnlyObs(w, k), o), l.log)
  {
    hide MatchesObs, OnlyObs, ObsKeyOf, Filter, Positions, Gather;
    forall o
      ensures MatchesObs(OnlyObs(w, k), o) <==> ObsKeyOf(w, o) == Some(k)
    {
      OnlyObsMeansKey(w, k, o);
    }
    assert Agrees(ObsIndexBy(l.index, w), ObsKeys(w, l.log));
    assert Lookup(ObsIndexBy(l.index, w), k) == Positions(ObsKeys(w, l.log), k);
    LookupIsScan(l.log, ObsKeys(w, l.log), k, o => MatchesObs(OnlyObs(w, k), o));
  }

  lemma DecLookupIsScan(l: DecLog, w: DecKey, k: u64)
    requires DecIndexed(l) && k != 0 && w != DSelected
    ensures
      var at := Lookup(DecIndexBy(l.index, w), k);
      && (forall i :: 0 <= i < |at| ==> at[i] < |l.log|)
      && Gather(l.log, at) == Filter(d => MatchesDec(OnlyDec(w, k), d), l.log)
  {
    hide MatchesDec, OnlyDec, DecKeyOf, Filter, Positions, Gather;
    forall d
      ensures MatchesDec(OnlyDec(w, k), d) <==> DecKeyOf(w, d) == Some(k)
    {
      OnlyDecMeansKey(w, k, d);
    }
    assert Agrees(DecIndexBy(l.index, w), DecKeys(w, l.log));
    assert Lookup(DecIndexBy(l.index, w), k) == Positions(DecKeys(w, l.log), k);
    LookupIsScan(l.log, DecKeys(w, l.log), k, d => MatchesDec(OnlyDec(w, k), d));
  }
}
