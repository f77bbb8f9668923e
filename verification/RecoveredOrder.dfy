/** Source authority over runs that recover from arbitrary files. Recovery asks nothing about
    generations and boots, so a file can break what ingestion keeps. Here is exactly when: for the
    log at the end of a run, and for the whole invariant at every point of it. */
module RecoveredOrder {
  import opened Base
  import opened Model
  import opened Serialize
  import opened Records
  import opened RecordLog
  import opened Store
  import opened Runs
  import opened AuthorityLaws
  import opened Accounting
  import opened Persistence
  import opened Restarts

  // ----- the log at the end

  /** Generations in order per source, and one boot per generation. */
  ghost predicate InOrder(log: seq<Obs>) {
    GenerationsInOrder(log) && OneBootPerGeneration(log)
  }

  /** Every earlier observation of its source is of no newer generation, and of the same one only
      under the same boot. */
  predicate FitsBehind(log: seq<Obs>, o: Obs) {
    forall i :: 0 <= i < |log| && log[i].sourceId == o.sourceId ==>
      && log[i].sourceGeneration <= o.sourceGeneration
      && (log[i].sourceGeneration == o.sourceGeneration && log[i].workerBoot != 0 && o.workerBoot != 0 ==>
            log[i].workerBoot == o.workerBoot)
  }

  lemma AppendInOrder(log: seq<Obs>, o: Obs)
    requires InOrder(log)
    ensures InOrder(log + [o]) <==> FitsBehind(log, o)
  {
    var more := log + [o];
    assert forall i :: 0 <= i < |log| ==> more[i] == log[i];
    assert more[|log|] == o;
  }

  /** What is out of order stays so: the log only grows. */
  lemma OutOfOrderStays(log: seq<Obs>, more: seq<Obs>)
    requires log <= more && InOrder(more)
    ensures InOrder(log)
  {
    assert forall i :: 0 <= i < |log| ==> log[i] == more[i];
  }

  /** A recovered observation is passed over or fits behind the log it meets. */
  predicate FitsRecord(s: State, r: Record) {
    r.kind == OBSERVATION && GetObservation(r.body, 0).Ok? ==>
      var o := GetObservation(r.body, 0).value.0;
      o.observationId in s.observed.byId || FitsBehind(s.observed.log, o)
  }

  lemma LoadRecordInOrder(s: State, r: Record)
    requires InOrder(s.observed.log) && LoadRecord(s, r).Ok?
    ensures InOrder(LoadRecord(s, r).value.0.observed.log) <==> FitsRecord(s, r)
  {
    hide GetObservation, GetDecision, GetOutcome, GetSourceDescriptor, GetU64, InOrder, FitsBehind;
    hide IndexObs, IndexDec, Readopt, RaiseTo;
    if r.kind == OBSERVATION {
      AppendInOrder(s.observed.log, GetObservation(r.body, 0).value.0);
    }
  }

  /** Every record that is loaded fits in the state it meets. */
  predicate FitsFile(s: State, rs: seq<Record>)
    decreases |rs|
  {
    rs != [] && LoadRecord(s, rs[0]).Ok? ==> FitsRecord(s, rs[0]) && FitsFile(LoadRecord(s, rs[0]).value.0, rs[1..])
  }

  lemma {:induction false} LoadInOrder(s: State, rs: seq<Record>, loaded: nat)
    requires InOrder(s.observed.log)
    ensures InOrder(Load(s, rs, loaded).0.observed.log) <==> FitsFile(s, rs)
    decreases |rs|
  {
    hide LoadRecord, InOrder, FitsRecord;
    if rs == [] || LoadRecord(s, rs[0]).Err? {
    } else {
      var (t, counted) := LoadRecord(s, rs[0]).value;
      LoadRecordInOrder(s, rs[0]);
      var more := if counted then loaded + 1 else loaded;
      if InOrder(t.observed.log) {
        LoadInOrder(t, rs[1..], more);
      } else {
        LoadExtends(t, rs[1..], more);
        if InOrder(Load(t, rs[1..], more).0.observed.log) {
          OutOfOrderStays(t.observed.log, Load(t, rs[1..], more).0.observed.log);
        }
      }
    }
  }

  /** The observation passes every check of ingestion. */
  predicate Admitted(cfg: Config, s: State, o: Obs) {
    Malformed(s.observed, o).None? && Unauthorized(cfg, s.authority, o).None? && LateFault(cfg, s.coordinator, o).None?
  }

  /** What the call brings fits behind the log it meets. */
  predicate FitsCall(cfg: Config, s: State, c: Call) {
    match c
    case Observe(o) => Admitted(cfg, s, o) ==> FitsBehind(s.observed.log, o)
    case Restore(file) => FitsFile(s, Parse(file))
    case _ => true
  }

  lemma CorrelatedFits(log: seq<Obs>, o: Obs)
    ensures FitsBehind(log, Correlated(o)) <==> FitsBehind(log, o)
  {
  }

  lemma StepInOrder(cfg: Config, s: State, c: Call)
    requires InOrder(s.observed.log)
    ensures InOrder(Step(cfg, s, c).observed.log) <==> FitsCall(cfg, s, c)
  {
    hide InOrder, FitsBehind, FitsFile, Load, Parse, Malformed, Unauthorized, LateFault, Authorize, Enrol, IndexObs,
      IndexDec, DecisionFault, OutcomeFault;
    match c {
      case Observe(o) =>
        AppendInOrder(s.observed.log, Correlated(o));
        CorrelatedFits(s.observed.log, o);
      case Restore(file) =>
        LoadInOrder(s, Parse(file), 0);
      case _ =>
    }
  }

  predicate FitsRun(cfg: Config, s: State, calls: seq<Call>)
    decreases |calls|
  {
    calls != [] ==> FitsCall(cfg, s, calls[0]) && FitsRun(cfg, Step(cfg, s, calls[0]), calls[1..])
  }

  /** Over any run in any configuration, recoveries from arbitrary files included, the log ends up in
      generation order with one boot per generation if and only if every observation admitted or
      recovered fitted behind the log it met. */
  lemma {:induction false} RunInOrderExactly(cfg: Config, s: State, calls: seq<Call>)
    requires InOrder(s.observed.log)
    ensures InOrder(Run(cfg, s, calls).observed.log) <==> FitsRun(cfg, s, calls)
    decreases |calls|
  {
    hide InOrder, Step, FitsCall;
    if calls == [] {
    } else {
      var t := Step(cfg, s, calls[0]);
      StepInOrder(cfg, s, calls[0]);
      if InOrder(t.observed.log) {
        RunInOrderExactly(cfg, t, calls[1..]);
      } else {
        RunExtends(cfg, t, calls[1..]);
        if InOrder(Run(cfg, t, calls[1..]).observed.log) {
          OutOfOrderStays(t.observed.log, Run(cfg, t, calls[1..]).observed.log);
        }
      }
    }
  }

  /** Under enforcement an admitted observation always fits where authority covers what is logged of
      its source: only a source whose boot a recovery lost can be logged out of order. */
  lemma CoveredFits(cfg: Config, s: State, o: Obs)
    requires Enforcing(cfg) && Admitted(cfg, s, o)
    requires forall i :: 0 <= i < |s.observed.log| && s.observed.log[i].sourceId == o.sourceId ==>
               Covered(s.authority, s.observed.log[i])
    ensures FitsBehind(s.observed.log, o)
  {
    hide Covered, Malformed, Unauthorized, LateFault;
    forall i | 0 <= i < |s.observed.log| && s.observed.log[i].sourceId == o.sourceId
      ensures s.observed.log[i].sourceGeneration <= o.sourceGeneration
      ensures s.observed.log[i].sourceGeneration == o.sourceGeneration && s.observed.log[i].workerBoot != 0 &&
              o.workerBoot != 0 ==>
                s.observed.log[i].workerBoot == o.workerBoot
    {
      CoveredBefore(cfg, s.authority, o, s.observed.log[i]);
    }
  }

  /** A file of an observation in generation 5 and a later one of the same source in generation 3
      is recovered whole. */
  lemma DisorderIsRecovered()
    ensures
      var (s, n) := Recover(Fresh(), LogOf([ObsRecord(SampleObs(1, 1, 5, 7)), ObsRecord(SampleObs(2, 1, 3, 7))]));
      n == 2 && !InOrder(s.observed.log) && InOrder(Fresh().observed.log)
  {
    hide Parse, LogOf, Loadable, LoadRecord, StorableObs, IndexObs, ObsRecord, EraseObservation, Readopt;
    var o1, o2 := SampleObs(1, 1, 5, 7), SampleObs(2, 1, 3, 7);
    var rs := [ObsRecord(o1), ObsRecord(o2)];
    SampleObsStorable(1, 1, 5, 7);
    SampleObsStorable(2, 1, 3, 7);
    var s1 := OfferObs(Fresh(), EraseObservation(o1)).0;
    ObsLoads(Fresh(), o1);
    ObsLoads(s1, o2);
    SampleErased(o1);
    SampleErased(o2);
    LoadableIsBounded(rs[0]);
    LoadableIsBounded(rs[1]);
    ParseLog(rs);
    AllLoadable(rs);
    assert rs[1..] == [ObsRecord(o2)] && [ObsRecord(o2)][1..] == [];
    var s2 := OfferObs(s1, EraseObservation(o2)).0;
    assert Load(Fresh(), rs, 0) == Load(s1, rs[1..], 1);
    assert Load(s1, rs[1..], 1) == Load(s2, [], 2) == (s2, 2);
    var log := s2.observed.log;
    assert log == [EraseObservation(o1), EraseObservation(o2)];
    assert log[0].sourceGeneration == 5 && log[1].sourceGeneration == 3;
  }

  lemma SampleErased(o: Obs)
    requires o.fields == []
    ensures EraseObservation(o).observationId == o.observationId && EraseObservation(o).sourceId == o.sourceId
    ensures EraseObservation(o).sourceGeneration == o.sourceGeneration
  {
  }

  // ----- the whole invariant, at every point

  ghost predicate Governed(s: State) {
    Authoritative(s.observed.log, s.authority)
  }

  /** A recovered observation keeps authority over the log: it is passed over, or news, or fits and
      is covered by the authority that stays. */
  predicate GovernsRecord(s: State, r: Record) {
    r.kind == OBSERVATION && GetObservation(r.body, 0).Ok? ==>
      var o := GetObservation(r.body, 0).value.0;
      || o.observationId in s.observed.byId
      || o.sourceGeneration > CurrentGeneration(s.authority, o.sourceId)
      || (FitsBehind(s.observed.log, o) && Covered(s.authority, o))
  }

  lemma RaiseCovers(a: Authority, d: SourceDescriptor, o: Obs)
    requires Covered(a, o)
    ensures Covered(RaiseTo(a, d), o)
  {
  }

  lemma ReadoptCovers(a: Authority, o: Obs, before: Obs)
    requires Covered(a, before)
    ensures Covered(Readopt(a, o), before)
  {
  }

  lemma ReadoptedIsCovered(a: Authority, o: Obs)
    ensures Covered(Readopt(a, o), o) <==> o.sourceGeneration > CurrentGeneration(a, o.sourceId) || Covered(a, o)
  {
  }

  lemma NewsFits(a: Authority, log: seq<Obs>, o: Obs)
    requires forall i :: 0 <= i < |log| ==> Covered(a, log[i])
    requires o.sourceGeneration > CurrentGeneration(a, o.sourceId)
    ensures FitsBehind(log, o)
  {
  }

  lemma OfferGoverned(s: State, o: Obs)
    requires Governed(s) && o.observationId !in s.observed.byId
    ensures Governed(OfferObs(s, o).0) <==>
            o.sourceGeneration > CurrentGeneration(s.authority, o.sourceId)
            || (FitsBehind(s.observed.log, o) && Covered(s.authority, o))
  {
    hide Covered, FitsBehind, GenerationsInOrder, OneBootPerGeneration, IndexObs, Readopt;
    var log, a, b := s.observed.log, s.authority, Readopt(s.authority, o);
    var more := log + [o];
    AppendInOrder(log, o);
    ReadoptedIsCovered(a, o);
    if o.sourceGeneration > CurrentGeneration(a, o.sourceId) {
      NewsFits(a, log, o);
    }
    forall i | 0 <= i < |log|
      ensures Covered(b, log[i])
    {
      ReadoptCovers(a, o, log[i]);
    }
    assert OfferObs(s, o).0.observed.log == more && OfferObs(s, o).0.authority == b;
    assert more[|log|] == o;
  }

  lemma LoadRecordGoverned(s: State, r: Record)
    requires Governed(s) && LoadRecord(s, r).Ok?
    ensures Governed(LoadRecord(s, r).value.0) <==> GovernsRecord(s, r)
  {
    hide GetObservation, GetDecision, GetOutcome, GetSourceDescriptor, GetU64, FitsBehind, Covered;
    hide GenerationsInOrder, OneBootPerGeneration, IndexObs, IndexDec, Readopt, RaiseTo;
    if r.kind == OBSERVATION {
      var o := GetObservation(r.body, 0).value.0;
      if o.observationId !in s.observed.byId {
        OfferGoverned(s, o);
      }
    } else if r.kind == SOURCE_DESCRIPTOR {
      var d := GetSourceDescriptor(r.body, 0).value.0;
      forall i | 0 <= i < |s.observed.log|
        ensures Covered(RaiseTo(s.authority, d), s.observed.log[i])
      {
        RaiseCovers(s.authority, d, s.observed.log[i]);
      }
    }
  }

  /** Authority governs the log in every state loading passes through. */
  ghost predicate GovernedThroughout(s: State, rs: seq<Record>)
    decreases |rs|
  {
    Governed(s) && (rs != [] && LoadRecord(s, rs[0]).Ok? ==> GovernedThroughout(LoadRecord(s, rs[0]).value.0, rs[1..]))
  }

  predicate GovernsFile(s: State, rs: seq<Record>)
    decreases |rs|
  {
    rs != [] && LoadRecord(s, rs[0]).Ok? ==>
      GovernsRecord(s, rs[0]) && GovernsFile(LoadRecord(s, rs[0]).value.0, rs[1..])
  }

  lemma {:induction false} LoadGoverned(s: State, rs: seq<Record>, loaded: nat)
    requires Governed(s)
    ensures GovernedThroughout(s, rs) <==> GovernsFile(s, rs)
    ensures GovernedThroughout(s, rs) ==> Governed(Load(s, rs, loaded).0)
    decreases |rs|
  {
    hide LoadRecord, Governed, GovernsRecord;
    if rs == [] || LoadRecord(s, rs[0]).Err? {
    } else {
      var (t, counted) := LoadRecord(s, rs[0]).value;
      LoadRecordGoverned(s, rs[0]);
      if Governed(t) {
        LoadGoverned(t, rs[1..], if counted then loaded + 1 else loaded);
      } else {
        assert !GovernedThroughout(t, rs[1..]);
      }
    }
  }

  /** Authority governs the log in every state the run passes through, record by record while a file
      is loaded. */
  ghost predicate AlwaysGoverned(cfg: Config, s: State, calls: seq<Call>)
    decreases |calls|
  {
    && Governed(s)
    && (calls != [] ==>
          && (calls[0].Restore? ==> GovernedThroughout(s, Parse(calls[0].file)))
          && AlwaysGoverned(cfg, Step(cfg, s, calls[0]), calls[1..]))
  }

  predicate GovernsRun(cfg: Config, s: State, calls: seq<Call>)
    decreases |calls|
  {
    calls != [] ==>
      && (calls[0].Restore? ==> GovernsFile(s, Parse(calls[0].file)))
      && GovernsRun(cfg, Step(cfg, s, calls[0]), calls[1..])
  }

  /** Under enforcement authority governs the log at every point of a run if and only if every
      observation recovered in it was passed over, news, or fitting and covered: nothing but a
      recovered file can take the log out of authority's hands. */
  lemma {:induction false} AlwaysGovernedExactly(cfg: Config, s: State, calls: seq<Call>)
    requires Enforcing(cfg) && Governed(s)
    ensures AlwaysGoverned(cfg, s, calls) <==> GovernsRun(cfg, s, calls)
    decreases |calls|
  {
    hide Governed, Step, GovernsFile, GovernedThroughout, Parse;
    if calls == [] {
    } else {
      var c, t := calls[0], Step(cfg, s, calls[0]);
      StepGoverned(cfg, s, c);
      if c.Restore? && !GovernsFile(s, Parse(c.file)) {
      } else {
        AlwaysGovernedExactly(cfg, t, calls[1..]);
      }
    }
  }

  lemma StepGoverned(cfg: Config, s: State, c: Call)
    requires Enforcing(cfg) && Governed(s)
    ensures c.Restore? ==> (GovernedThroughout(s, Parse(c.file)) <==> GovernsFile(s, Parse(c.file)))
    ensures (c.Restore? ==> GovernsFile(s, Parse(c.file))) ==> Governed(Step(cfg, s, c))
  {
    hide Authoritative, GovernsFile, GovernedThroughout, Parse, Load, Ingest, IngestDecision, IngestOutcome;
    if c.Restore? {
      LoadGoverned(s, Parse(c.file), 0);
    } else {
      StepAuthoritative(cfg, s, c);
    }
  }
}
