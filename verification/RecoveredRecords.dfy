/** Accounting and linkage over runs that recover from files. Recovery checks neither attempts nor
    field values and counts no events, so a file can break what ingestion keeps. Here is exactly
    when it does, record by record, and that what is broken stays broken. */
module RecoveredRecords {
  import opened Base
  import opened Model
  import opened Serialize
  import opened Records
  import opened RecordLog
  import opened Indexes
  import opened Store
  import opened Runs
  import opened AuthorityLaws
  import opened Accounting
  import opened Persistence

  // ----- linkage

  /** A recovered decision is passed over or brings an attempt that is not yet on record. */
  predicate BringsFreeAttempt(l: DecLog, d: Dec) {
    d.decisionId in l.byId || !AttemptTaken(l, d)
  }

  /** A recovered outcome is passed over or fits its decision and says something. */
  predicate BringsFittingOutcome(l: DecLog, outcomes: map<u64, Outcome>, o: Outcome) {
    || DecisionOf(l, o.decisionId).None? || o.decisionId in outcomes
    || (Compatible(o, DecisionOf(l, o.decisionId).value) && o.disposition != DISPOSITION_UNKNOWN)
  }

  /** A taken attempt is the attempt of some logged decision. */
  lemma TakenIsLogged(l: DecLog, d: Dec) returns (at: nat)
    requires DecIndexed(l) && AttemptTaken(l, d)
    ensures at < |l.log| && l.log[at].attemptId == d.attemptId != 0
  {
    hide Agrees;
    at := l.index.attempt[d.attemptId];
    assert Find(l.index.attempt, d.attemptId) == Latest(Attempts(l.log), d.attemptId);
    LatestExact(Attempts(l.log), d.attemptId);
  }

  lemma OfferDecLinked(s: State, d: Dec)
    requires Linked(s)
    ensures Linked(OfferDec(s, d).0) <==> BringsFreeAttempt(s.decided, d)
  {
    hide DecIndexed, IndexDec, Compatible, DecisionOf;
    if d.decisionId !in s.decided.byId {
      AppendDecIndexed(s.decided, d);
      AppendKeepsOutcomes(s.decided, d, s.outcomes);
      if AttemptTaken(s.decided, d) {
        var at := TakenIsLogged(s.decided, d);
        var log := OfferDec(s, d).0.decided.log;
        assert log[at].attemptId == log[|s.decided.log|].attemptId;
      } else {
        AppendKeepsAttempts(s.decided, d);
      }
    }
  }

  /** With an exact by-id map, a decision is known if and only if it is on record. */
  lemma KnownIsLogged(l: DecLog, id: u64)
    requires DecIndexed(l)
    ensures DecisionOf(l, id).Some? <==> id in l.byId
  {
    hide Agrees, Remembers;
  }

  lemma OfferOutcomeLinked(s: State, o: Outcome)
    requires Linked(s)
    ensures Linked(OfferOutcome(s, o).0) <==> BringsFittingOutcome(s.decided, s.outcomes, o)
  {
    hide DecIndexed, AttemptsUnique, Compatible, DecisionOf;
    KnownIsLogged(s.decided, o.decisionId);
    var t := OfferOutcome(s, o).0;
    assert o.decisionId in t.outcomes ==> DecisionOf(t.decided, o.decisionId) == DecisionOf(s.decided, o.decisionId);
  }

  /** What a record must satisfy, in the state it meets, to keep the records linked. */
  predicate LinksRecord(s: State, r: Record) {
    if r.kind == DECISION then
      GetDecision(r.body, 0).Ok? ==> BringsFreeAttempt(s.decided, GetDecision(r.body, 0).value.0)
    else if r.kind == OUTCOME then
      GetOutcome(r.body, 0).Ok? ==> BringsFittingOutcome(s.decided, s.outcomes, GetOutcome(r.body, 0).value.0)
    else true
  }

  lemma LoadRecordLinked(s: State, r: Record)
    requires Linked(s) && LoadRecord(s, r).Ok?
    ensures Linked(LoadRecord(s, r).value.0) <==> LinksRecord(s, r)
  {
    hide GetObservation, GetDecision, GetOutcome, GetSourceDescriptor, GetU64, OfferDec, OfferOutcome;
    hide DecIndexed, AttemptsUnique, OutcomesLinked, BringsFreeAttempt, BringsFittingOutcome, IndexObs;
    if r.kind == DECISION {
      OfferDecLinked(s, GetDecision(r.body, 0).value.0);
    } else if r.kind == OUTCOME {
      OfferOutcomeLinked(s, GetOutcome(r.body, 0).value.0);
    }
  }

  /** Every record that is loaded keeps the links in the state it meets. */
  predicate LinksFile(s: State, rs: seq<Record>)
    decreases |rs|
  {
    rs == [] || LoadRecord(s, rs[0]).Err? ||
    (LinksRecord(s, rs[0]) && LinksFile(LoadRecord(s, rs[0]).value.0, rs[1..]))
  }

  lemma DoubledAttemptStays(log: seq<Dec>, more: seq<Dec>)
    requires log <= more && !AttemptsUnique(log)
    ensures !AttemptsUnique(more)
  {
    var i, j :| 0 <= i < j < |log| && log[i].attemptId != 0 && log[i].attemptId == log[j].attemptId;
    assert more[i] == log[i] && more[j] == log[j];
  }

  lemma KnownStays(l: DecLog, more: DecLog, id: u64)
    requires DecIndexed(l) && DecIndexed(more) && l.log <= more.log && id in l.byId
    ensures DecisionOf(l, id).Some? && DecisionOf(more, id) == DecisionOf(l, id)
  {
    hide Agrees, Remembers;
    var at := l.byId[id];
    assert more.log[at] == l.log[at];
  }

  /** A doubly placed attempt or a misfiled outcome is never mended, since nothing on record is
      ever replaced. */
  lemma BrokenLinksStay(s: State, t: State)
    requires DecIndexed(s.decided) && DecIndexed(t.decided) && OutcomesKeyed(s.decided, s.outcomes)
    requires Extends(s, t) && !Linked(s)
    ensures !Linked(t)
  {
    hide DecIndexed, AttemptsUnique, DecisionOf, Compatible;
    if !AttemptsUnique(s.decided.log) {
      DoubledAttemptStays(s.decided.log, t.decided.log);
    } else {
      forall id <- s.outcomes
        ensures DecisionOf(s.decided, id).Some? && DecisionOf(t.decided, id) == DecisionOf(s.decided, id)
      {
        KnownStays(s.decided, t.decided, id);
      }
    }
  }

  lemma {:induction false} LoadLinked(s: State, rs: seq<Record>, loaded: nat)
    requires Indexed(s) && Orderly(s) && Linked(s)
    ensures Linked(Load(s, rs, loaded).0) <==> LinksFile(s, rs)
    decreases |rs|
  {
    hide Indexed, Orderly, Linked, LoadRecord, LinksRecord;
    if rs == [] || LoadRecord(s, rs[0]).Err? {
    } else {
      var (t, counted) := LoadRecord(s, rs[0]).value;
      var n := if counted then loaded + 1 else loaded;
      LoadRecordLinked(s, rs[0]);
      LoadRecordIndexed(s, rs[0]);
      LoadRecordOrderly(s, rs[0]);
      if LinksRecord(s, rs[0]) {
        LoadLinked(t, rs[1..], n);
      } else {
        LoadIndexed(t, rs[1..], n);
        LoadExtends(t, rs[1..], n);
        IndexedParts(t, Load(t, rs[1..], n).0);
        BrokenLinksStay(t, Load(t, rs[1..], n).0);
      }
    }
  }

  lemma IndexedParts(s: State, t: State)
    requires Indexed(s) && Indexed(t) && Orderly(s)
    ensures DecIndexed(s.decided) && DecIndexed(t.decided) && OutcomesKeyed(s.decided, s.outcomes)
  {
  }

  /** Every file recovered from in the run keeps the links in the state it meets. */
  predicate LinksRun(cfg: Config, s: State, calls: seq<Call>)
    decreases |calls|
  {
    calls == [] ||
    ((calls[0].Restore? ==> LinksFile(s, Parse(calls[0].file))) && LinksRun(cfg, Step(cfg, s, calls[0]), calls[1..]))
  }

  /** Over any run, recoveries included, the records end up linked if and only if every recovered
      decision brought a free attempt and every recovered outcome fitted its decision. */
  lemma {:induction false} RunLinkedExactly(cfg: Config, s: State, calls: seq<Call>)
    requires Indexed(s) && Orderly(s) && Linked(s)
    ensures Linked(Run(cfg, s, calls)) <==> LinksRun(cfg, s, calls)
    decreases |calls|
  {
    hide Indexed, Orderly, Linked, Load, Parse, LinksFile;
    if calls == [] {
    } else {
      var c, t := calls[0], Step(cfg, s, calls[0]);
      StepIndexed(cfg, s, c);
      StepOrderly(cfg, s, c);
      StepLinkedExactly(cfg, s, c);
      if Linked(t) {
        RunLinkedExactly(cfg, t, calls[1..]);
      } else {
        RunIndexed(cfg, t, calls[1..]);
        RunExtends(cfg, t, calls[1..]);
        IndexedParts(t, Run(cfg, t, calls[1..]));
        BrokenLinksStay(t, Run(cfg, t, calls[1..]));
      }
    }
  }

  lemma StepLinkedExactly(cfg: Config, s: State, c: Call)
    requires Indexed(s) && Orderly(s) && Linked(s)
    ensures Linked(Step(cfg, s, c)) <==> (c.Restore? ==> LinksFile(s, Parse(c.file)))
  {
    hide Indexed, Orderly, Linked, Load, Parse, LinksFile, Ingest, IngestDecision, IngestOutcome;
    if c.Restore? {
      LoadLinked(s, Parse(c.file), 0);
    } else {
      StepLinked(cfg, s, c);
    }
  }

  // ----- soundness

  /** A recovered observation or decision is passed over or fit to be logged. */
  predicate SoundRecord(s: State, r: Record) {
    if r.kind == OBSERVATION then
      var g := GetObservation(r.body, 0);
      g.Ok? ==> g.value.0.observationId in s.observed.byId || SoundObs(g.value.0)
    else if r.kind == DECISION then
      var g := GetDecision(r.body, 0);
      g.Ok? ==> g.value.0.decisionId in s.decided.byId || SoundDec(g.value.0)
    else true
  }

  lemma OfferObsSound(s: State, o: Obs)
    requires SoundLogs(s)
    ensures SoundLogs(OfferObs(s, o).0) <==> o.observationId in s.observed.byId || SoundObs(o)
  {
    hide SoundObs, SoundDec, IndexObs, Readopt;
    var t := OfferObs(s, o).0;
    if o.observationId !in s.observed.byId {
      assert t.observed.log[|s.observed.log|] == o;
    }
  }

  lemma OfferDecSound(s: State, d: Dec)
    requires SoundLogs(s)
    ensures SoundLogs(OfferDec(s, d).0) <==> d.decisionId in s.decided.byId || SoundDec(d)
  {
    hide SoundObs, SoundDec, IndexDec;
    var t := OfferDec(s, d).0;
    if d.decisionId !in s.decided.byId {
      assert t.decided.log[|s.decided.log|] == d;
    }
  }

  lemma SameLogsSound(s: State, t: State)
    requires t.observed.log == s.observed.log && t.decided.log == s.decided.log
    ensures SoundLogs(t) <==> SoundLogs(s)
  {
  }

  lemma LoadRecordSound(s: State, r: Record)
    requires SoundLogs(s) && LoadRecord(s, r).Ok?
    ensures SoundLogs(LoadRecord(s, r).value.0) <==> SoundRecord(s, r)
  {
    hide GetObservation, GetDecision, GetOutcome, GetSourceDescriptor, GetU64, OfferObs, OfferDec, SoundObs,
      SoundDec, SoundLogs;
    if r.kind == OBSERVATION {
      OfferObsSound(s, GetObservation(r.body, 0).value.0);
    } else if r.kind == DECISION {
      OfferDecSound(s, GetDecision(r.body, 0).value.0);
    } else {
      SameLogsSound(s, LoadRecord(s, r).value.0);
    }
  }

  /** Every record that is loaded is sound or already present in the state it meets. */
  predicate SoundFile(s: State, rs: seq<Record>)
    decreases |rs|
  {
    rs == [] || LoadRecord(s, rs[0]).Err? ||
    (SoundRecord(s, rs[0]) && SoundFile(LoadRecord(s, rs[0]).value.0, rs[1..]))
  }

  lemma UnsoundStays(s: State, t: State)
    requires Extends(s, t) && !SoundLogs(s)
    ensures !SoundLogs(t)
  {
    hide SoundObs, SoundDec;
    assert forall i :: 0 <= i < |s.observed.log| ==> t.observed.log[i] == s.observed.log[i];
    assert forall i :: 0 <= i < |s.decided.log| ==> t.decided.log[i] == s.decided.log[i];
  }

  lemma {:induction false} LoadSound(s: State, rs: seq<Record>, loaded: nat)
    requires SoundLogs(s)
    ensures SoundLogs(Load(s, rs, loaded).0) <==> SoundFile(s, rs)
    decreases |rs|
  {
    hide SoundLogs, LoadRecord, SoundRecord;
    if rs == [] || LoadRecord(s, rs[0]).Err? {
    } else {
      var (t, counted) := LoadRecord(s, rs[0]).value;
      var n := if counted then loaded + 1 else loaded;
      LoadRecordSound(s, rs[0]);
      if SoundRecord(s, rs[0]) {
        LoadSound(t, rs[1..], n);
      } else {
        LoadExtends(t, rs[1..], n);
        UnsoundStays(t, Load(t, rs[1..], n).0);
      }
    }
  }

  predicate SoundRun(cfg: Config, s: State, calls: seq<Call>)
    decreases |calls|
  {
    calls == [] ||
    ((calls[0].Restore? ==> SoundFile(s, Parse(calls[0].file))) && SoundRun(cfg, Step(cfg, s, calls[0]), calls[1..]))
  }

  lemma StepSoundExactly(cfg: Config, s: State, c: Call)
    requires SoundLogs(s)
    ensures SoundLogs(Step(cfg, s, c)) <==> (c.Restore? ==> SoundFile(s, Parse(c.file)))
  {
    hide SoundLogs, Load, Parse, SoundFile, Ingest, IngestDecision, IngestOutcome;
    if c.Restore? {
      LoadSound(s, Parse(c.file), 0);
    } else {
      StepSound(cfg, s, c);
    }
  }

  /** Over any run, recoveries included, only sound evidence is on record if and only if every
      recovered record was sound or already present. */
  lemma {:induction false} RunSoundExactly(cfg: Config, s: State, calls: seq<Call>)
    requires SoundLogs(s)
    ensures SoundLogs(Run(cfg, s, calls)) <==> SoundRun(cfg, s, calls)
    decreases |calls|
  {
    hide SoundLogs, Parse, SoundFile, Step;
    if calls == [] {
    } else {
      var t := Step(cfg, s, calls[0]);
      StepSoundExactly(cfg, s, calls[0]);
      if SoundLogs(t) {
        RunSoundExactly(cfg, t, calls[1..]);
      } else {
        RunExtends(cfg, t, calls[1..]);
        UnsoundStays(t, Run(cfg, t, calls[1..]));
      }
    }
  }

  // ----- counting

  function Entries(s: State): nat {
    |s.observed.log| + |s.decided.log| + |s.outcomes|
  }

  /** The record is passed over, or of a kind that adds no entry. */
  predicate AddsNothing(s: State, r: Record) {
    if r.kind == OBSERVATION then
      var g := GetObservation(r.body, 0);
      g.Ok? ==> g.value.0.observationId in s.observed.byId
    else if r.kind == DECISION then
      var g := GetDecision(r.body, 0);
      g.Ok? ==> g.value.0.decisionId in s.decided.byId
    else if r.kind == OUTCOME then
      var g := GetOutcome(r.body, 0);
      g.Ok? ==> g.value.0.decisionId !in s.decided.byId || g.value.0.decisionId in s.outcomes
    else true
  }

  lemma LoadRecordCounts(s: State, r: Record)
    requires LoadRecord(s, r).Ok?
    ensures var t := LoadRecord(s, r).value.0;
            t.events == s.events && Entries(t) == if AddsNothing(s, r) then Entries(s) else Entries(s) + 1
  {
    hide GetObservation, GetDecision, GetOutcome, GetSourceDescriptor, GetU64, IndexObs, IndexDec, Readopt, RaiseTo;
  }

  predicate AddsNothingFile(s: State, rs: seq<Record>)
    decreases |rs|
  {
    rs == [] || LoadRecord(s, rs[0]).Err? ||
    (AddsNothing(s, rs[0]) && AddsNothingFile(LoadRecord(s, rs[0]).value.0, rs[1..]))
  }

  /** Recovery counts no events, so it leaves them behind by every entry it adds. */
  lemma {:induction false} LoadCounts(s: State, rs: seq<Record>, loaded: nat)
    ensures var t := Load(s, rs, loaded).0;
            t.events == s.events && Entries(s) <= Entries(t) && (Entries(s) == Entries(t) <==> AddsNothingFile(s, rs))
    decreases |rs|
  {
    hide LoadRecord, AddsNothing, Entries;
    if rs == [] || LoadRecord(s, rs[0]).Err? {
    } else {
      var (t, counted) := LoadRecord(s, rs[0]).value;
      LoadRecordCounts(s, rs[0]);
      LoadCounts(t, rs[1..], if counted then loaded + 1 else loaded);
    }
  }

  predicate AddsNothingRun(cfg: Config, s: State, calls: seq<Call>)
    decreases |calls|
  {
    calls == [] ||
    ((calls[0].Restore? ==> AddsNothingFile(s, Parse(calls[0].file)))
      && AddsNothingRun(cfg, Step(cfg, s, calls[0]), calls[1..]))
  }

  lemma StepEntries(cfg: Config, s: State, c: Call)
    ensures var t := Step(cfg, s, c);
            var nothing := c.Restore? ==> AddsNothingFile(s, Parse(c.file));
            && Entries(t) - t.events >= Entries(s) - s.events
            && (Entries(t) - t.events == Entries(s) - s.events <==> nothing)
  {
    hide Load, Parse, AddsNothingFile, Malformed, Unauthorized, LateFault, Authorize, DecisionFault,
      IndexObs, IndexDec, Enrol;
    hide DecisionOf, Compatible;
    if c.Restore? {
      LoadCounts(s, Parse(c.file), 0);
    }
  }

  lemma {:induction false} RunEntries(cfg: Config, s: State, calls: seq<Call>)
    ensures var t := Run(cfg, s, calls);
            && Entries(t) - t.events >= Entries(s) - s.events
            && (Entries(t) - t.events == Entries(s) - s.events <==> AddsNothingRun(cfg, s, calls))
    decreases |calls|
  {
    hide Step, Entries, Parse, AddsNothingFile;
    if calls == [] {
    } else {
      StepEntries(cfg, s, calls[0]);
      RunEntries(cfg, Step(cfg, s, calls[0]), calls[1..]);
    }
  }

  /** Over any run, recoveries included, the events end up equal to the observations, decisions and
      outcomes if and only if no recovery added any. */
  lemma RunBalancedExactly(cfg: Config, s: State, calls: seq<Call>)
    requires Balanced(s)
    ensures Balanced(Run(cfg, s, calls)) <==> AddsNothingRun(cfg, s, calls)
  {
    hide Run, AddsNothingRun;
    RunEntries(cfg, s, calls);
  }
}
