/** A collector that recovers its file, serves, saves and ends, any number of times: what holds over
    all its lives; and inputs that show what recovery alone does not guarantee. */
module Restarts {
  import opened Base
  import opened Model
  import opened Sequences
  import opened Serialize
  import opened Records
  import opened RecordLog
  import opened Indexes
  import opened Store
  import opened Runs
  import opened AuthorityLaws
  import opened Accounting
  import opened Persistence
  import opened RecoveredAuthority
  import opened RecoveredRecords

  // ----- what a saved and recovered state keeps

  lemma ErasedObsIsSound(o: Obs)
    requires SoundObs(o)
    ensures SoundObs(EraseObservation(o))
  {
    hide Finite, MemoryField;
  }

  lemma ErasedDecIsSound(d: Dec)
    requires SoundDec(d)
    ensures SoundDec(EraseDecision(d))
  {
    hide Finite;
  }

  lemma RestoredIsSound(s: State, authority: Authority)
    requires SoundLogs(s)
    ensures SoundLogs(RestoredState(s, authority))
  {
    hide SoundObs, SoundDec, EraseObservation, EraseDecision;
    forall i | 0 <= i < |s.observed.log|
      ensures SoundObs(EraseObservation(s.observed.log[i]))
    {
      ErasedObsIsSound(s.observed.log[i]);
    }
    forall i | 0 <= i < |s.decided.log|
      ensures SoundDec(EraseDecision(s.decided.log[i]))
    {
      ErasedDecIsSound(s.decided.log[i]);
    }
  }

  lemma RestoredIsIndexed(s: State, authority: Authority)
    requires Indexed(s)
    ensures Indexed(RestoredState(s, authority))
  {
    hide ObsIndexed, DecIndexed, Rebuild, RebuildDec, EraseObservation, EraseDecision, NewObs, NewDec;
    ObsRebuilt(s.observed);
    DecRebuilt(s.decided);
    FreshIndexed();
    ErasedAreNew(s);
    RebuildHolds(EmptyObsLog(), MapSeq(EraseObservation, s.observed.log));
    RebuildDecHolds(EmptyDecLog(), MapSeq(EraseDecision, s.decided.log));
  }

  lemma ErasedAreNew(s: State)
    requires NewObs(EmptyObsLog(), s.observed.log) && NewDec(EmptyDecLog(), s.decided.log)
    ensures NewObs(EmptyObsLog(), MapSeq(EraseObservation, s.observed.log))
    ensures NewDec(EmptyDecLog(), MapSeq(EraseDecision, s.decided.log))
  {
    hide EraseObservation, EraseDecision;
    forall i | 0 <= i < |s.observed.log|
      ensures EraseObservation(s.observed.log[i]).observationId == s.observed.log[i].observationId
    {
      ErasedObsKeys(s.observed.log[i]);
    }
    forall i | 0 <= i < |s.decided.log|
      ensures EraseDecision(s.decided.log[i]).decisionId == s.decided.log[i].decisionId
    {
      ErasedDecisionKeys(s.decided.log[i]);
    }
  }

  /** Erasing touches neither attempts nor dispositions, so links survive saving and recovering. */
  lemma RestoredIsLinked(s: State, authority: Authority)
    requires Filed(s) && Linked(s)
    ensures Linked(RestoredState(s, authority))
  {
    hide ObsIndexed, Agrees, Remembers, EraseDecision, EraseObservation;
    var t := RestoredState(s, authority);
    RestoredIsIndexed(s, authority);
    forall i | 0 <= i < |s.decided.log|
      ensures t.decided.log[i].attemptId == s.decided.log[i].attemptId
    {
      ErasedDecisionKeys(s.decided.log[i]);
    }
  }

  lemma RestoredIsOrderly(s: State, sourceOrder: seq<u64>)
    requires Filed(s) && Enumerates(sourceOrder, s.sources)
    ensures Orderly(RestoredState(s, RestoredAuthority(s, Values(s.sources, sourceOrder))))
  {
    hide Indexed, RestoredAuthority, RecordedGeneration, Values, EraseObservation, EraseOutcome;
    var a := RestoredAuthority(s, Values(s.sources, sourceOrder));
    var t := RestoredState(s, a);
    forall i | 0 <= i < |t.observed.log|
      ensures t.observed.log[i].sourceGeneration <= CurrentGeneration(a, t.observed.log[i].sourceId)
    {
      ErasedStanding(s.observed.log[i]);
      LoggedIsRecorded(s, i);
      RestoredGeneration(s, sourceOrder, s.observed.log[i].sourceId);
    }
    forall id <- t.sources
      ensures t.sources[id].generation <= CurrentGeneration(a, id)
    {
      RecordedCoversDescriptor(s, id);
      RestoredGeneration(s, sourceOrder, id);
    }
    forall id <- t.outcomes
      ensures t.outcomes[id].decisionId == id
    {
      ErasedOutcomeLinks(s.outcomes[id]);
    }
  }

  lemma ErasedOutcomeLinks(o: Outcome)
    ensures EraseOutcome(o).decisionId == o.decisionId
  {
  }

  // ----- lives

  /** Everything the collector relies on and promises about its records. */
  ghost predicate Kept(s: State) {
    Indexed(s) && Orderly(s) && Linked(s) && SoundLogs(s)
  }

  lemma FreshIsKept()
    ensures Kept(Fresh()) && Balanced(Fresh()) && Authoritative(Fresh().observed.log, Fresh().authority)
  {
    hide Agrees, Remembers, ObsIndexed;
    FreshIndexed();
  }

  lemma RunKeeps(cfg: Config, s: State, calls: seq<Call>)
    requires Kept(s) && NoRestore(calls)
    ensures Kept(Run(cfg, s, calls))
  {
    hide Indexed, Orderly, Linked, SoundLogs, Run, Filed;
    RunFiled(cfg, s, calls);
    RunOrderly(cfg, s, calls);
    RunLinked(cfg, s, calls);
    RunSound(cfg, s, calls);
  }

  lemma RunOrderly(cfg: Config, s: State, calls: seq<Call>)
    requires Indexed(s) && Orderly(s)
    ensures Indexed(Run(cfg, s, calls)) && Orderly(Run(cfg, s, calls)) && Filed(Run(cfg, s, calls))
  {
    hide Indexed, Run;
    RunFiled(cfg, s, calls);
  }

  /** Any calls whatsoever, recoveries from arbitrary files included, lead a new observatory to a
      state that, if within the reader's limits, is saved and recovered without loss and recovered
      again without effect, no source gaining authority. */
  lemma AnyRunRestarts(cfg: Config, calls: seq<Call>, sourceOrder: seq<u64>, outcomeOrder: seq<u64>, id: u64)
    requires var s := Run(cfg, Fresh(), calls);
             Storable(s) && Enumerates(sourceOrder, s.sources) && Enumerates(outcomeOrder, s.outcomes)
    ensures
      var s := Run(cfg, Fresh(), calls);
      var file := SavedFile(s, Values(s.sources, sourceOrder), Values(s.outcomes, outcomeOrder));
      var (t, n) := Recover(Fresh(), file);
      && t == RestoredState(s, t.authority)
      && n == 1 + |s.sources| + |s.observed.log| + |s.decided.log| + |s.outcomes|
      && Recover(t, file).0 == t
      && CurrentGeneration(t.authority, id) == RecordedGeneration(s, id) <= CurrentGeneration(s.authority, id)
  {
    hide Run, Recover, SavedFile, RestoredState, RestoredAuthority, Storable, Values, Fresh,
      RecordedGeneration, Indexed;
    var s := Run(cfg, Fresh(), calls);
    FreshIsKept();
    RunOrderly(cfg, Fresh(), calls);
    SaveThenRecover(s, sourceOrder, outcomeOrder);
    RecoverAgain(s, sourceOrder, outcomeOrder);
    RestoredGeneration(s, sourceOrder, id);
    RecordedGenerationBounded(s, id);
    RestoredHoldsAuthority(s, RestoredAuthority(s, Values(s.sources, sourceOrder)));
  }

  lemma RestoredHoldsAuthority(s: State, a: Authority)
    ensures RestoredState(s, a).authority == a
  {
  }

  /** One life: the calls served, and the orders in which the tables are written at its end. */
  datatype Life = Life(calls: seq<Call>, sources: seq<u64>, outcomes: seq<u64>)

  /** From `s`, life after life is served, saved and recovered into a new process, ending at `end`. */
  ghost predicate Lives(cfg: Config, s: State, lives: seq<Life>, end: State)
    decreases |lives|
  {
    if lives == [] then end == s
    else
      var life := lives[0];
      var t := Run(cfg, s, life.calls);
      && NoRestore(life.calls) && Storable(t)
      && Enumerates(life.sources, t.sources) && Enumerates(life.outcomes, t.outcomes)
      && Lives(cfg, Recover(Fresh(),
         SavedFile(t, Values(t.sources, life.sources), Values(t.outcomes, life.outcomes))).0,
               lives[1..], end)
  }

  lemma RestartKeeps(s: State, sourceOrder: seq<u64>, outcomeOrder: seq<u64>)
    requires Kept(s) && Storable(s) && Enumerates(sourceOrder, s.sources) && Enumerates(outcomeOrder, s.outcomes)
    ensures Kept(Recover(Fresh(), SavedFile(s, Values(s.sources, sourceOrder), Values(s.outcomes, outcomeOrder))).0)
  {
    hide Indexed, Linked, SoundLogs, Recover, SavedFile, RestoredState, RestoredAuthority, Storable, Values, Fresh;
    var a := RestoredAuthority(s, Values(s.sources, sourceOrder));
    SaveThenRecover(s, sourceOrder, outcomeOrder);
    RestoredIsIndexed(s, a);
    RestoredIsOrderly(s, sourceOrder);
    RestoredIsLinked(s, a);
    RestoredIsSound(s, a);
  }

  /** A collector that only ever recovers its own files keeps its records linked and sound and its
      indexes exact through any number of restarts. */
  lemma {:induction false} LivesKeep(cfg: Config, s: State, lives: seq<Life>, end: State)
    requires Kept(s) && Lives(cfg, s, lives, end)
    ensures Kept(end)
    decreases |lives|
  {
    hide Kept, Run, Recover, SavedFile, Storable, Enumerates, Values;
    if lives == [] {
    } else {
      var life := lives[0];
      var t := Run(cfg, s, life.calls);
      RunKeeps(cfg, s, life.calls);
      EnumeratedInside(t, life);
      RestartKeeps(t, life.sources, life.outcomes);
      LivesKeep(cfg, Recover(Fresh(),
        SavedFile(t, Values(t.sources, life.sources), Values(t.outcomes, life.outcomes))).0,
                lives[1..], end);
    }
  }

  lemma EnumeratedInside(t: State, life: Life)
    requires Enumerates(life.sources, t.sources) && Enumerates(life.outcomes, t.outcomes)
    ensures forall i :: 0 <= i < |life.sources| ==> life.sources[i] in t.sources
    ensures forall i :: 0 <= i < |life.outcomes| ==> life.outcomes[i] in t.outcomes
  {
  }

  // ----- witnesses

  const NOW: Timestamp := Timestamp(0, 0, 0)

  function SampleSource(id: u64, generation: u64): SourceDescriptor {
    SourceDescriptor(id, generation, 0, [], 0, [], NOW, false)
  }

  /** An observation that carries no fields. */
  function SampleObs(id: u64, source: u64, generation: u64, boot: u64): Obs {
    Observation(id, 1, 0, source, generation, 0, NOW, boot, 0, 0, 0, 0, 0, 0, 0, 0, 0, 0, 0, [], 0, false)
  }

  function SampleDec(id: u64, attempt: u64): Dec {
    var p := Provenance(0, 0, 0, 0, 0, 0, NOW, 0, 0, 0, [], [], []);
    Decision(id, attempt, 1, 1, 0, 0, 0, 0, 0, 0, 0, 0, CandidateSet([], false, true, 0, [], []), 1, [], [], [], [], [],
             0, [], [], [], Confidence(0, 0, 0, []), 0, 0, p, None, 0)
  }

  lemma SampleSourceStorable(id: u64, generation: u64)
    ensures StorableSource(SampleSource(id, generation))
  {
  }

  lemma SampleObsStorable(id: u64, source: u64, generation: u64, boot: u64)
    ensures StorableObs(SampleObs(id, source, generation, boot))
  {
  }

  lemma SampleDecStorable(id: u64, attempt: u64)
    ensures StorableDec(SampleDec(id, attempt))
  {
    var h, t := HeadOf(SampleDec(id, attempt)), TailOf(SampleDec(id, attempt));
    SampleHeadIsSmall(h);
    SampleTailIsSmall(PutDecisionHead([], h), t);
    hide PutDecisionHead, PutDecisionTail;
  }

  /** A completed placement. */
  function SampleOutcome(decision: u64, attempt: u64): Outcome {
    var p := Provenance(0, 0, 0, 0, 0, 0, NOW, 0, 0, 0, [], [], []);
    Outcome(decision, attempt, 1, 0, 0, 0, 0, [], 0, p)
  }

  lemma SampleOutcomeStorable(decision: u64, attempt: u64)
    ensures StorableOutcome(SampleOutcome(decision, attempt))
  {
  }

  lemma SampleHeadIsSmall(h: DecisionHead<Pattern>)
    requires h.candidateSet == CandidateSet([], false, true, 0, [], []) && h.rejectedCandidates == []
    requires h.hardConstraints == [] && h.softPreferences == [] && h.scoreComponents == [] && h.costComponents == []
    ensures FitsDecisionHead(h) && |PutDecisionHead([], h)| <= 1000
  {
  }

  lemma SampleTailIsSmall(b: seq<byte>, t: DecisionTail<Pattern>)
    requires t.tieBreakReason == [] && t.selectedReason == [] && t.rejectionReasons == [] && t.outcome == None
    requires t.confidence == Confidence(0, 0, 0, [])
    requires t.provenance.collectionError == [] && t.provenance.normalizedField == [] && t.provenance.rawField == []
    ensures FitsDecisionTail(t) && |PutDecisionTail(b, t)| <= |b| + 1000
  {
  }

  /** Recovery asks no questions about attempts: a file of two decisions under one attempt id is
      loaded whole and leaves that attempt on record twice. */
  lemma DoubledAttemptIsRecovered()
    ensures
      var file := LogOf([DecRecord(SampleDec(1, 7)), DecRecord(SampleDec(2, 7))]);
      Recover(Fresh(), file).1 == 2 && !Linked(Recover(Fresh(), file).0) && Linked(Fresh())
  {
    hide Parse, LogOf, Loadable, LoadRecord, StorableDec, DecIndexed, IndexDec, OutcomesLinked, DecRecord,
      EraseDecision;
    var d1, d2 := SampleDec(1, 7), SampleDec(2, 7);
    var rs := [DecRecord(d1), DecRecord(d2)];
    SampleDecStorable(1, 7);
    SampleDecStorable(2, 7);
    var s1 := OfferDec(Fresh(), EraseDecision(d1)).0;
    DecLoads(Fresh(), d1);
    DecLoads(s1, d2);
    ErasedDecisionKeys(d1);
    ErasedDecisionKeys(d2);
    LoadableIsBounded(rs[0]);
    LoadableIsBounded(rs[1]);
    ParseLog(rs);
    AllLoadable(rs);
    assert rs[1..] == [DecRecord(d2)] && [DecRecord(d2)][1..] == [];
    var s2 := OfferDec(s1, EraseDecision(d2)).0;
    assert Load(Fresh(), rs, 0) == Load(s1, rs[1..], 1);
    assert Load(s1, rs[1..], 1) == Load(s2, [], 2) == (s2, 2);
    var log := s2.decided.log;
    assert log == [EraseDecision(d1), EraseDecision(d2)];
    assert log[0].attemptId == log[1].attemptId == 7;
    FreshIsKept();
  }

  /** Nor about the values of evidence: a file of one observation without source or generation is
      loaded, and neither is it sound nor does any event account for it. */
  lemma UnsoundEvidenceIsRecovered()
    ensures
      var (s, n) := Recover(Fresh(), LogOf([ObsRecord(SampleObs(1, 0, 0, 0))]));
      n == 1 && !SoundLogs(s) && !Balanced(s) && SoundLogs(Fresh()) && Balanced(Fresh())
  {
    hide Parse, LogOf, Loadable, LoadRecord, StorableObs, IndexObs, ObsRecord, EraseObservation, SoundObs;
    var o := SampleObs(1, 0, 0, 0);
    var rs := [ObsRecord(o)];
    SampleObsStorable(1, 0, 0, 0);
    ObsLoads(Fresh(), o);
    UnidentifiedIsUnsound(o);
    LoadableIsBounded(rs[0]);
    ParseLog(rs);
    AllLoadable(rs);
    var t := OfferObs(Fresh(), EraseObservation(o)).0;
    assert rs[1..] == [];
    assert Load(Fresh(), rs, 0) == Load(t, [], 1) == (t, 1);
    assert t.observed.log == [EraseObservation(o)] && t.observed.log[0] == EraseObservation(o);
    FreshIsKept();
  }

  lemma UnidentifiedIsUnsound(o: Obs)
    requires o == SampleObs(1, 0, 0, 0)
    ensures !SoundObs(EraseObservation(o)) && EraseObservation(o).observationId == 1
  {
  }

  /** Nor whose outcome it is: a file of a decision of attempt 7 and an outcome of attempt 8 for it
      is loaded whole, and the outcome is filed under a decision it does not fit. */
  lemma MisfiledOutcomeIsRecovered()
    ensures
      var (s, n) := Recover(Fresh(), LogOf([DecRecord(SampleDec(1, 7)), OutcomeRecord(SampleOutcome(1, 8))]));
      n == 2 && !Linked(s) && !Balanced(s)
  {
    hide Parse, LogOf, Loadable, LoadRecord, StorableDec, StorableOutcome, IndexDec, DecRecord, OutcomeRecord,
      EraseDecision, EraseOutcome, AttemptsUnique, Compatible;
    var d, o := SampleDec(1, 7), SampleOutcome(1, 8);
    var rs := [DecRecord(d), OutcomeRecord(o)];
    SampleDecStorable(1, 7);
    SampleOutcomeStorable(1, 8);
    var s1 := OfferDec(Fresh(), EraseDecision(d)).0;
    DecLoads(Fresh(), d);
    OutcomeLoads(s1, o);
    ErasedDecisionKeys(d);
    MisfitIsErased(d, o);
    LoadableIsBounded(rs[0]);
    LoadableIsBounded(rs[1]);
    ParseLog(rs);
    AllLoadable(rs);
    assert rs[1..] == [OutcomeRecord(o)] && [OutcomeRecord(o)][1..] == [];
    var s2 := OfferOutcome(s1, EraseOutcome(o)).0;
    assert Load(Fresh(), rs, 0) == Load(s1, rs[1..], 1);
    assert Load(s1, rs[1..], 1) == Load(s2, [], 2) == (s2, 2);
    assert s2.decided.log == [EraseDecision(d)] && s2.decided.byId == map[1 := 0];
    assert s2.outcomes == map[1 := EraseOutcome(o)];
    assert DecisionOf(s2.decided, 1) == Some(EraseDecision(d));
  }

  lemma MisfitIsErased(d: Dec, o: Outcome)
    requires d == SampleDec(1, 7) && o == SampleOutcome(1, 8)
    ensures EraseOutcome(o).decisionId == 1 && !Compatible(EraseOutcome(o), EraseDecision(d))
  {
    ErasedDecisionKeys(d);
  }

  /** The observation is of the newest generation of its source, under another boot than one logged
      there. */
  predicate RivalBoot(s: State, i: nat, o: Obs) {
    && i < |s.observed.log| && s.observed.log[i].sourceId == o.sourceId
    && s.observed.log[i].sourceGeneration == o.sourceGeneration == RecordedGeneration(s, o.sourceId)
    && s.observed.log[i].workerBoot != 0 && o.workerBoot != 0 && o.workerBoot != s.observed.log[i].workerBoot
  }

  /** What a lost boot leads to. Save an authoritative state in which the boot of a source is not
      recoverable, and recover it: any well-formed observation of the source's newest generation
      under another boot is then accepted, and that generation is logged under two boots. */
  lemma RestartLosesBoot(cfg: Config, s: State, sourceOrder: seq<u64>, outcomeOrder: seq<u64>, i: nat, o: Obs)
    requires Filed(s) && Storable(s) && Enumerates(sourceOrder, s.sources) && Enumerates(outcomeOrder, s.outcomes)
    requires !BootRecoverable(s, o.sourceId) && RivalBoot(s, i, o)
    requires Malformed(s.observed, o).None? && LateFault(cfg, s.coordinator, o).None?
    ensures
      var t := Recover(Fresh(), SavedFile(s, Values(s.sources, sourceOrder), Values(s.outcomes, outcomeOrder))).0;
      Ingest(cfg, t, o).1.Accepted? && !OneBootPerGeneration(Ingest(cfg, t, o).0.observed.log)
  {
    hide Recover, SavedFile, RestoredAuthority, Storable, Values, RecordedGeneration, FirstBootAt, LateFault;
    hide EraseObservation, EraseDecision, Ingest, OneBootPerGeneration, ErasedSources, ErasedOutcomes;
    var a := RestoredAuthority(s, Values(s.sources, sourceOrder));
    SaveThenRecover(s, sourceOrder, outcomeOrder);
    RestoredGeneration(s, sourceOrder, o.sourceId);
    RestoredBoot(s, sourceOrder, o.sourceId);
    ErasedStanding(s.observed.log[i]);
    LostBootAdmitsAnother(cfg, RestoredState(s, a), i, o);
  }

  /** A source registered at generation 5 that then sends one observation from boot 7. */
  function RegisteredThenHeard(): seq<Call> {
    [RegisterSource(SampleSource(1, 5)), Observe(SampleObs(1, 1, 5, 7))]
  }

  lemma HeardState(cfg: Config)
    ensures
      var s, o := Run(cfg, Fresh(), RegisteredThenHeard()), Correlated(SampleObs(1, 1, 5, 7));
      && s.observed == AppendObs(EmptyObsLog(), o) && s.decided == EmptyDecLog() && s.outcomes == map[]
      && s.sources == map[1 := SampleSource(1, 5)] && s.authority == Authority(map[1 := 5], map[1 := 7])
      && s.coordinator == 0
  {
    hide AppendObs;
    var calls := RegisteredThenHeard();
    assert calls[1..] == [Observe(SampleObs(1, 1, 5, 7))] && calls[1..][1..] == [];
    var s1 := Step(cfg, Fresh(), calls[0]);
    assert s1.authority == Authority(map[1 := 5], map[1 := 0]);
    assert Run(cfg, Fresh(), calls) == Run(cfg, s1, calls[1..]) == Step(cfg, s1, calls[1]);
  }

  /** Its state is authoritative, yet its boot is not recoverable: the descriptor carries the
      generation already. */
  lemma HeardNotRecoverable(cfg: Config)
    requires Enforcing(cfg)
    ensures
      var s := Run(cfg, Fresh(), RegisteredThenHeard());
      Authoritative(s.observed.log, s.authority) && !BootRecoverable(s, 1) && RecordedGeneration(s, 1) == 5
  {
    hide Run, IndexObs, Kept, Authoritative, RegisteredThenHeard;
    var s, o := Run(cfg, Fresh(), RegisteredThenHeard()), Correlated(SampleObs(1, 1, 5, 7));
    HeardState(cfg);
    FreshIsKept();
    NothingRestored();
    RunAuthoritative(cfg, Fresh(), RegisteredThenHeard());
    assert s.observed.log == [o];
    HeardAtItsGeneration(o);
  }

  lemma NothingRestored()
    ensures NoRestore(RegisteredThenHeard())
  {
  }

  lemma HeardAtItsGeneration(o: Obs)
    requires o == Correlated(SampleObs(1, 1, 5, 7))
    ensures MaxLogged(5, [o], 1) == 5 && BootLogged([o], 1, 5)
  {
    assert [o][1..] == [];
    assert [o][0].workerBoot == 7;
  }

  lemma HeardIsStorable(cfg: Config)
    ensures
      var s := Run(cfg, Fresh(), RegisteredThenHeard());
      Filed(s) && Storable(s) && Enumerates([1], s.sources) && Enumerates([], s.outcomes)
  {
    hide Run, StorableSource, StorableObs, IndexObs, Indexed, Orderly;
    HeardState(cfg);
    FreshIsKept();
    RunOrderly(cfg, Fresh(), RegisteredThenHeard());
    SampleSourceStorable(1, 5);
    CorrelatedIsStorable(SampleObs(1, 1, 5, 7));
  }

  /** Saved, recovered and continued with an observation from boot 9, it logs generation 5 under
      two boots. */
  lemma LostBootWitness(cfg: Config)
    requires Enforcing(cfg)
    ensures
      var s := Run(cfg, Fresh(), RegisteredThenHeard());
      && 1 in s.sources
      && var t := Recover(Fresh(), SavedFile(s, Values(s.sources, [1]), [])).0;
         var o := SampleObs(2, 1, 5, 9);
         Ingest(cfg, t, o).1.Accepted? && !OneBootPerGeneration(Ingest(cfg, t, o).0.observed.log)
  {
    hide Run, Recover, SavedFile, Storable, OneBootPerGeneration, Ingest, IndexObs, Filed, BootRecoverable,
      RecordedGeneration, Authoritative;
    var s := Run(cfg, Fresh(), RegisteredThenHeard());
    HeardState(cfg);
    HeardIsStorable(cfg);
    HeardNotRecoverable(cfg);
    RestartLosesBoot(cfg, s, [1], [], 0, SampleObs(2, 1, 5, 9));
  }

  lemma CorrelatedIsStorable(o: Obs)
    requires o == SampleObs(o.observationId, o.sourceId, o.sourceGeneration, o.workerBoot)
    ensures StorableObs(Correlated(o))
  {
  }
}
