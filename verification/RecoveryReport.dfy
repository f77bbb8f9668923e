/** What each record of a file does to the store it is recovered into, said of the bytes of the record
    and of the fields of the store. */
module RecoveryReport {
  import opened Base
  import opened Model
  import opened Sequences
  import opened Serialize
  import opened Records
  import opened RecordLog
  import opened RecordLayout
  import opened Indexes
  import opened Store
  import opened Runs
  import opened Admission

  /** Kind 8 sets the coordinator epoch; the kinds that carry no state are only counted. */
  lemma EpochRecovered(s: State, n: u64, kind: byte, body: seq<byte>)
    ensures LoadRecord(s, Record(8, Long(n))) == Ok((s.(coordinator := n), true))
    ensures kind !in {1, 2, 3, 4, 8} ==> LoadRecord(s, Record(kind, body)) == Ok((s, true))
  {
    hide GetU64, PutU64, Long;
    LongIs([], n);
    assert [] + Long(n) == Long(n);
    U64Reads([], n, Long(n));
  }

  /** Kind 4 replaces the descriptor, raises the trusted generation to the one it tells, and leaves
      every boot. */
  lemma SourceRecovered(s: State, d: SourceDescriptor)
    requires FitsSourceDescriptor(d)
    ensures
      var e := EraseSourceDescriptor(d);
      var r := LoadRecord(s, Record(4, SourceDescriptorBytes(d)));
      r.Ok? && r.value.1 &&
      var t := r.value.0;
      && t.sources == s.sources[d.sourceId := e] && t.authority.boot == s.authority.boot
      && (forall id: u64 :: Generation(t.authority, id) ==
            if id == d.sourceId && d.generation > Generation(s.authority, id) then d.generation
            else Generation(s.authority, id))
      && t == s.(sources := t.sources, authority := t.authority)
  {
    hide GetSourceDescriptor, PutSourceDescriptor, SourceDescriptorBytes, EraseSourceDescriptor, FitsSourceDescriptor,
      GetU64, GetObservation, GetDecision, GetOutcome;
    SourceDescriptorBytesIs([], d);
    assert [] + SourceDescriptorBytes(d) == SourceDescriptorBytes(d);
    SourceDescriptorReads([], d, SourceDescriptorBytes(d));
    KeepsSourceId(d);
  }

  lemma KeepsSourceId(d: SourceDescriptor)
    ensures EraseSourceDescriptor(d).sourceId == d.sourceId && EraseSourceDescriptor(d).generation == d.generation
  {
  }

  /** Kind 1 logs the observation unless its id is on record. A generation above the trusted one is then
      trusted with the boot it came with; otherwise generation and boot stay. */
  lemma ObservationRecovered(s: State, o: Obs)
    requires FitsObservation(o) && Indexed(s)
    ensures
      var e := EraseObservation(o);
      var r := LoadRecord(s, Record(1, ObservationBytes(o)));
      var known := exists i :: 0 <= i < |s.observed.log| && s.observed.log[i].observationId == o.observationId;
      r.Ok? && r.value.1 == !known &&
      var t := r.value.0;
      && t.observed.log == s.observed.log + (if known then [] else [e])
      && (forall id: u64 ::
            var news := !known && id == o.sourceId && o.sourceGeneration > Generation(s.authority, id);
            && Generation(t.authority, id) == (if news then o.sourceGeneration else Generation(s.authority, id))
            && Boot(t.authority, id) == (if news then o.workerBoot else Boot(s.authority, id)))
      && t == s.(observed := t.observed, authority := t.authority)
  {
    hide GetObservation, PutObservation, ObservationBytes, EraseObservation, FitsObservation, GetU64,
      GetSourceDescriptor, GetDecision, GetOutcome, ObsIndexed, DecIndexed, IndexObs;
    ObservationBytesIs([], o);
    assert [] + ObservationBytes(o) == ObservationBytes(o);
    ObservationReads([], o, ObservationBytes(o));
    KeepsObservationIds(o);
    KnownObservation(s.observed, o.observationId);
  }

  lemma KeepsObservationIds(o: Obs)
    ensures
      var e := EraseObservation(o);
      && e.observationId == o.observationId && e.sourceId == o.sourceId
      && e.sourceGeneration == o.sourceGeneration && e.workerBoot == o.workerBoot
  {
  }

  /** Kind 2 logs the decision unless its id is on record. */
  lemma DecisionRecovered(s: State, d: Dec)
    requires FitsDecision(d) && Indexed(s)
    ensures
      var r := LoadRecord(s, Record(2, DecisionBytes(d)));
      var known := exists i :: 0 <= i < |s.decided.log| && s.decided.log[i].decisionId == d.decisionId;
      r.Ok? && r.value.1 == !known &&
      var t := r.value.0;
      t.decided.log == s.decided.log + (if known then [] else [EraseDecision(d)]) && t == s.(decided := t.decided)
  {
    hide GetDecision, PutDecision, DecisionBytes, EraseDecision, FitsDecision, GetU64,
      GetSourceDescriptor, GetObservation, GetOutcome, ObsIndexed, DecIndexed, IndexDec;
    DecisionBytesIs([], d);
    assert [] + DecisionBytes(d) == DecisionBytes(d);
    DecisionReads([], d, DecisionBytes(d));
    KeepsDecisionId(d);
    KnownDecision(s.decided, d.decisionId);
  }

  lemma KeepsDecisionId(d: Dec)
    ensures EraseDecision(d).decisionId == d.decisionId
  {
  }

  /** Kind 3 files the outcome if its decision is on record without one, and is passed over otherwise. */
  lemma OutcomeRecovered(s: State, o: Outcome)
    requires FitsOutcome(o) && Indexed(s)
    ensures
      var r := LoadRecord(s, Record(3, OutcomeBytes(o)));
      var due := o.decisionId !in s.outcomes
                 && exists i :: 0 <= i < |s.decided.log| && s.decided.log[i].decisionId == o.decisionId;
      r == Ok((if due then s.(outcomes := s.outcomes[o.decisionId := EraseOutcome(o)]) else s, due))
  {
    hide GetOutcome, PutOutcome, OutcomeBytes, EraseOutcome, FitsOutcome, GetU64,
      GetSourceDescriptor, GetObservation, GetDecision, ObsIndexed, DecIndexed;
    OutcomeBytesIs([], o);
    assert [] + OutcomeBytes(o) == OutcomeBytes(o);
    OutcomeReads([], o, OutcomeBytes(o));
    KeepsOutcomeId(o);
    KnownDecision(s.decided, o.decisionId);
  }

  lemma KeepsOutcomeId(o: Outcome)
    ensures EraseOutcome(o).decisionId == o.decisionId
  {
  }
}
