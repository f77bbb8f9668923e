/** The observatory object: the logs, tables and indexes as fields, and the calls that work on
    them in place. Each call is proved to do what the corresponding function of the abstract
    state describes. */
module Observatory {
  import opened Base
  import opened Model
  import opened Sequences
  import opened Serialize
  import opened Records
  import opened RecordIO
  import opened RecordLog
  import opened Indexes
  import opened Store
  import opened Runs
  import opened Persistence

  class Observatory {
    const cfg: Config

    var obs: seq<Obs>
    var obsById: map<u64, nat>
    var dec: seq<Dec>
    var decById: map<u64, nat>
    var outcomes: map<u64, Outcome>
    var sources: map<u64, SourceDescriptor>
    var srcGen: map<u64, u64>
    var srcBoot: map<u64, u64>
    var coordinator: u64

    var obsIndex: ObsIndex
    var decIndex: DecIndex

    var rejected: nat
    var superseded: nat
    var events: nat

    /** The abstract state. */
    function View(): State
      reads this
    {
      State(ObsLog(obs, obsById, obsIndex), DecLog(dec, decById, decIndex), outcomes, sources,
            Authority(srcGen, srcBoot), coordinator, rejected, superseded, events)
    }

    ghost predicate Valid()
      reads this
    {
      ObsIndexed(ObsLog(obs, obsById, obsIndex)) && DecIndexed(DecLog(dec, decById, decIndex))
    }

    constructor (cfg: Config)
      ensures this.cfg == cfg && Valid() && View() == Fresh()
    {
      this.cfg := cfg;
      obs, obsById, dec, decById, outcomes, sources := [], map[], [], map[], map[], map[];
      srcGen, srcBoot, coordinator := map[], map[], 0;
      obsIndex, decIndex := EmptyObsLog().index, EmptyDecLog().index;
      rejected, superseded, events := 0, 0, 0;
      new;
      FreshIndexed();
    }

    // ----- sources and epochs

    method RegisterSource(d: SourceDescriptor)
      requires Valid()
      modifies this
      ensures Valid() && View() == Register(old(View()), d)
    {
      hide ObsIndexed, DecIndexed;
      if d.sourceId !in srcGen {
        srcGen := srcGen[d.sourceId := d.generation];
        srcBoot := srcBoot[d.sourceId := 0];
      } else if d.generation > srcGen[d.sourceId] {
        srcGen := srcGen[d.sourceId := d.generation];
        srcBoot := srcBoot[d.sourceId := 0];
      }
      sources := sources[d.sourceId := d];
    }

    method CurrentSourceGeneration(id: u64) returns (g: u64)
      ensures g == CurrentGeneration(View().authority, id)
    {
      if id in srcGen {
        return srcGen[id];
      }
      return 0;
    }

    method SetCoordinatorEpoch(epoch: u64)
      requires Valid()
      modifies this
      ensures Valid() && View() == SetEpoch(old(View()), epoch)
    {
      hide ObsIndexed, DecIndexed;
      coordinator := epoch;
    }

    // ----- ingest

    method Reject(why: Rejection) returns (r: Reply)
      modifies `rejected
      ensures rejected == old(rejected) + 1 && r == Rejected(why, events)
    {
      rejected := rejected + 1;
      return Rejected(why, events);
    }

    /** Pushes onto the log, the by-id map and, one after the other, the nine indexes. */
    method AppendObservation(o: Obs)
      modifies `obs, `obsById, `obsIndex
      ensures ObsLog(obs, obsById, obsIndex) == AppendObs(old(ObsLog(obs, obsById, obsIndex)), o)
    {
      hide Push, IfValid;
      var i := |obs|;
      obs := obs + [o];
      obsById := obsById[o.observationId := i];
      obsIndex := obsIndex.(workload := Push(obsIndex.workload, IfValid(o.workloadId), i));
      obsIndex := obsIndex.(request := Push(obsIndex.request, IfValid(o.requestId), i));
      obsIndex := obsIndex.(node := Push(obsIndex.node, IfValid(o.nodeId), i));
      obsIndex := obsIndex.(device := Push(obsIndex.device, IfValid(o.deviceId), i));
      obsIndex := obsIndex.(source := Push(obsIndex.source, IfValid(o.sourceId), i));
      obsIndex := obsIndex.(generation := Push(obsIndex.generation, Some(o.sourceGeneration), i));
      obsIndex := obsIndex.(epoch := Push(obsIndex.epoch, Some(o.epoch), i));
      obsIndex := obsIndex.(namespace := Push(obsIndex.namespace, IfValid(o.namespaceId), i));
      obsIndex := obsIndex.(attempt := Push(obsIndex.attempt, IfValid(o.attemptId), i));
    }

    method AppendDecision(d: Dec)
      modifies `dec, `decById, `decIndex
      ensures DecLog(dec, decById, decIndex) == AppendDec(old(DecLog(dec, decById, decIndex)), d)
    {
      hide Push, Overwrite, IfValid;
      var i := |dec|;
      dec := dec + [d];
      decById := decById[d.decisionId := i];
      decIndex := decIndex.(workload := Push(decIndex.workload, IfValid(d.workloadId), i));
      decIndex := decIndex.(request := Push(decIndex.request, IfValid(d.requestId), i));
      decIndex := decIndex.(node := Push(decIndex.node, IfValid(d.nodeId), i));
      decIndex := decIndex.(device := Push(decIndex.device, IfValid(d.deviceId), i));
      decIndex := decIndex.(epoch := Push(decIndex.epoch, Some(d.epoch), i));
      decIndex := decIndex.(namespace := Push(decIndex.namespace, IfValid(d.namespaceId), i));
      decIndex := decIndex.(policy := Push(decIndex.policy, Some(d.policyGeneration), i));
      decIndex := decIndex.(selected := Push(decIndex.selected, IfValid(d.selectedCandidate), i));
      decIndex := decIndex.(attempt := Overwrite(decIndex.attempt, IfValid(d.attemptId), i));
    }

    /** Checks the fields one by one and stops at the first fault. */
    method CheckFields(fields: seq<Measurement<Pattern>>) returns (fault: Option<Rejection>)
      ensures fault == FieldsFault(fields)
    {
      var i := 0;
      while i < |fields|
        invariant 0 <= i <= |fields| && FieldsFault(fields) == FieldsFault(fields[i..])
      {
        var m := fields[i];
        if m.value.Double? && !Finite(m.value.d) {
          return Some(NonFiniteEvidence);
        }
        if MemoryField(m.normalizedField) && m.value.UInt? && m.value.u > 0x7FFF_FFFF_FFFF_FFFF {
          return Some(ImpossibleMemory);
        }
        assert fields[i..][1..] == fields[i + 1..];
        i := i + 1;
      }
      return None;
    }

    /** The identity checks and the source's standing, in order. */
    method Screen(o: Obs) returns (fault: Option<Rejection>)
      ensures fault ==
              if Malformed(ObsLog(obs, obsById, obsIndex), o).Some? then Malformed(ObsLog(obs, obsById, obsIndex), o)
                       else Unauthorized(cfg, Authority(srcGen, srcBoot), o)
    {
      if o.observationId == 0 { return Some(InvalidObservationId); }
      if o.sourceId == 0 { return Some(InvalidSourceId); }
      if o.sourceGeneration == 0 { return Some(ZeroSourceGeneration); }
      if o.observationGeneration == 0 { return Some(ZeroObservationGeneration); }
      if o.observationId in obsById { return Some(DuplicateObservationId); }
      var cur := if o.sourceId in srcGen then srcGen[o.sourceId] else 0;
      var haveBoot := o.sourceId in srcBoot && srcBoot[o.sourceId] != 0;
      if cfg.staleGeneration && o.sourceGeneration < cur { return Some(StaleSourceGeneration); }
      if cfg.staleBoot && o.sourceGeneration == cur && haveBoot && o.workerBoot != srcBoot[o.sourceId] {
        return Some(StaleWorkerBoot);
      }
      return None;
    }

    method CheckLate(o: Obs) returns (fault: Option<Rejection>)
      ensures fault == LateFault(cfg, coordinator, o)
    {
      if cfg.staleEpoch && coordinator != 0 && o.coordinatorEpoch != 0 && o.coordinatorEpoch < coordinator {
        return Some(StaleCoordinatorEpoch);
      }
      fault := CheckFields(o.fields);
    }

    /** Moves the trusted generation and boot. */
    method TakeAuthority(o: Obs)
      modifies `srcGen, `srcBoot, `superseded
      ensures View() == Believe(old(View()), o)
    {
      var cur := if o.sourceId in srcGen then srcGen[o.sourceId] else 0;
      var haveBoot := o.sourceId in srcBoot && srcBoot[o.sourceId] != 0;
      if o.sourceGeneration > cur {
        srcGen := srcGen[o.sourceId := o.sourceGeneration];
        srcBoot := srcBoot[o.sourceId := o.workerBoot];
        if cur > 0 {
          superseded := superseded + 1;
        }
      } else if !haveBoot {
        srcBoot := srcBoot[o.sourceId := o.workerBoot];
      }
    }

    method Ingest(o: Obs) returns (r: Reply)
      requires Valid()
      modifies this
      ensures Valid() && (View(), r) == Store.Ingest(cfg, old(View()), o)
    {
      hide ObsIndexed, DecIndexed, LateFault, Malformed, Unauthorized, AppendObs, Believe, Correlated;
      IngestIndexed(cfg, View(), o);
      var fault := Screen(o);
      if fault.Some? {
        r := Reject(fault.value);
        return;
      }
      TakeAuthority(o);
      fault := CheckLate(o);
      if fault.Some? {
        r := Reject(fault.value);
        return;
      }
      AppendObservation(Correlated(o));
      events := events + 1;
      r := Accepted(events);
    }

    // ----- decisions

    /** Whether any cost or score component is infinite or not a number. */
    method CostsAreFinite(d: Dec) returns (ok: bool)
      ensures ok == FiniteCosts(d)
    {
      var cs := d.candidateSet.candidates;
      for i := 0 to |cs|
        invariant forall k :: 0 <= k < i ==> FiniteCandidate(cs[k])
      {
        if !Finite(cs[i].totalCost) { return false; }
        for j := 0 to |cs[i].costs|
          invariant forall k :: 0 <= k < j ==> FiniteComponent(cs[i].costs[k])
        {
          if !Finite(cs[i].costs[j].cost) || !Finite(cs[i].costs[j].policyWeight) { return false; }
        }
      }
      for i := 0 to |d.costComponents|
        invariant forall k :: 0 <= k < i ==> FiniteComponent(d.costComponents[k])
      {
        if !Finite(d.costComponents[i].cost) || !Finite(d.costComponents[i].policyWeight) { return false; }
      }
      for i := 0 to |d.scoreComponents|
        invariant forall k :: 0 <= k < i ==> Finite(d.scoreComponents[k].value)
      {
        if !Finite(d.scoreComponents[i].value) { return false; }
      }
      return true;
    }

    method FindsCandidate(cs: seq<Candidate<Pattern>>, id: u64) returns (found: bool)
      ensures found == Lists(cs, id)
    {
      for i := 0 to |cs|
        invariant forall k :: 0 <= k < i ==> cs[k].candidateId != id
      {
        if cs[i].candidateId == id { return true; }
      }
      return false;
    }

    method HasImpossibleMemory(cs: seq<Candidate<Pattern>>) returns (found: bool)
      ensures found == exists i :: 0 <= i < |cs| && ImpossibleMemoryOf(cs[i].memory)
    {
      for i := 0 to |cs|
        invariant forall k :: 0 <= k < i ==> !ImpossibleMemoryOf(cs[k].memory)
      {
        var m := cs[i].memory;
        if m.totalBytes > 0 && m.usedBytes > m.totalBytes { return true; }
        if m.totalBytes > 0 && m.freeBytes > m.totalBytes { return true; }
      }
      return false;
    }

    method ScreenDecision(d: Dec) returns (fault: Option<Rejection>)
      requires DecIndexed(DecLog(dec, decById, decIndex))
      ensures fault == DecisionFault(cfg, DecLog(dec, decById, decIndex), coordinator, d)
    {
      hide FiniteCosts, Lists;
      var cs := d.candidateSet;
      if d.decisionId == 0 { return Some(InvalidDecisionId); }
      if d.decisionId in decById { return Some(DuplicateDecisionId); }
      if d.attemptId != 0 && d.attemptId in decIndex.attempt {
        AttemptInside(DecLog(dec, decById, decIndex), d.attemptId);
        if dec[decIndex.attempt[d.attemptId]].decisionId != d.decisionId { return Some(DuplicateAttempt); }
      }
      if d.placementGeneration == 0 { return Some(ZeroPlacementGeneration); }
      if d.selectedCandidate == 0 { return Some(InvalidSelectedCandidate); }
      if cs.complete {
        if cs.candidates == [] { return Some(EmptyCompleteSet); }
        var found := FindsCandidate(cs.candidates, d.selectedCandidate);
        if !found { return Some(SelectedAbsent); }
      }
      if cs.complete && cs.reconstructed { return Some(CompleteAndReconstructed); }
      var finite := CostsAreFinite(d);
      if !finite { return Some(NonFiniteCost); }
      var impossible := HasImpossibleMemory(cs.candidates);
      if impossible { return Some(ImpossibleMemory); }
      if cfg.staleEpoch && coordinator != 0 && d.provenance.coordinatorEpoch != 0
        && d.provenance.coordinatorEpoch < coordinator {
        return Some(StaleCoordinatorEpoch);
      }
      return None;
    }

    method IngestDecision(d: Dec) returns (r: Reply)
      requires Valid()
      modifies this
      ensures Valid() && (View(), r) == Store.IngestDecision(cfg, old(View()), d)
    {
      hide ObsIndexed, DecIndexed, DecisionFault, AppendDec;
      IngestDecisionIndexed(cfg, View(), d);
      var fault := ScreenDecision(d);
      if fault.Some? {
        r := Reject(fault.value);
        return;
      }
      AppendDecision(d);
      events := events + 1;
      r := Accepted(events);
    }

    method IngestOutcome(o: Outcome) returns (r: Reply)
      requires Valid()
      modifies this
      ensures Valid() && (View(), r) == Store.IngestOutcome(old(View()), o)
    {
      hide ObsIndexed, Agrees, Remembers;
      if o.decisionId == 0 { r := Reject(InvalidOutcomeDecisionId); return; }
      if o.decisionId !in decById { r := Reject(OutcomeBeforeDecision); return; }
      if o.decisionId in outcomes { r := Reject(DuplicateOutcome); return; }
      var d := dec[decById[o.decisionId]];
      if o.attemptId != 0 && d.attemptId != 0 && o.attemptId != d.attemptId {
        r := Reject(OutcomeWrongGeneration); return;
      }
      if o.disposition == DISPOSITION_UNKNOWN { r := Reject(UnknownDisposition); return; }
      outcomes := outcomes[o.decisionId := o];
      events := events + 1;
      r := Accepted(events);
    }

    // ----- queries

    method Observations(f: QueryFilter) returns (out: seq<Obs>)
      ensures out == Filter(o => MatchesObs(f, o), obs)
    {
      hide MatchesObs;
      out := [];
      var i := 0;
      while i < |obs|
        invariant 0 <= i <= |obs| && out == Filter(o => MatchesObs(f, o), obs[..i])
      {
        assert obs[..i + 1] == obs[..i] + [obs[i]];
        FilterSnoc(o => MatchesObs(f, o), obs[..i], obs[i]);
        var fits := KeepsObs(f, obs[i]);
        if fits {
          out := out + [obs[i]];
        }
        i := i + 1;
      }
      assert obs[..i] == obs;
    }

    static method KeepsObs(f: QueryFilter, o: Obs) returns (keep: bool)
      ensures keep == MatchesObs(f, o)
    {
      if f.workloadId != 0 && o.workloadId != f.workloadId { return false; }
      if f.requestId != 0 && o.requestId != f.requestId { return false; }
      if f.decisionId != 0 && o.decisionId != f.decisionId { return false; }
      if f.attemptId != 0 && o.attemptId != f.attemptId { return false; }
      if f.nodeId != 0 && o.nodeId != f.nodeId { return false; }
      if f.deviceId != 0 && o.deviceId != f.deviceId { return false; }
      if f.sourceId != 0 && o.sourceId != f.sourceId { return false; }
      if f.sourceGeneration != 0 && o.sourceGeneration != f.sourceGeneration { return false; }
      if f.epoch != 0 && o.epoch != f.epoch { return false; }
      if f.namespaceId != 0 && o.namespaceId != f.namespaceId { return false; }
      if f.tBegin != 0 && o.timestamp.wall < f.tBegin { return false; }
      if f.tEnd != 0 && o.timestamp.wall > f.tEnd { return false; }
      return true;
    }

    method Decisions(f: QueryFilter) returns (out: seq<Dec>)
      ensures out == Filter(d => MatchesDec(f, d), dec)
    {
      hide MatchesDec;
      out := [];
      var i := 0;
      while i < |dec|
        invariant 0 <= i <= |dec| && out == Filter(d => MatchesDec(f, d), dec[..i])
      {
        assert dec[..i + 1] == dec[..i] + [dec[i]];
        FilterSnoc(d => MatchesDec(f, d), dec[..i], dec[i]);
        var fits := KeepsDec(f, dec[i]);
        if fits {
          out := out + [dec[i]];
        }
        i := i + 1;
      }
      assert dec[..i] == dec;
    }

    static method KeepsDec(f: QueryFilter, d: Dec) returns (keep: bool)
      ensures keep == MatchesDec(f, d)
    {
      if f.workloadId != 0 && d.workloadId != f.workloadId { return false; }
      if f.requestId != 0 && d.requestId != f.requestId { return false; }
      if f.decisionId != 0 && d.decisionId != f.decisionId { return false; }
      if f.attemptId != 0 && d.attemptId != f.attemptId { return false; }
      if f.nodeId != 0 && d.nodeId != f.nodeId { return false; }
      if f.deviceId != 0 && d.deviceId != f.deviceId { return false; }
      if f.policyGeneration != 0 && d.policyGeneration != f.policyGeneration { return false; }
      if f.epoch != 0 && d.epoch != f.epoch { return false; }
      if f.namespaceId != 0 && d.namespaceId != f.namespaceId { return false; }
      return true;
    }

    // ----- persistence

    static method AppendRecord(file: seq<byte>, kind: byte, body: seq<byte>, ghost rs: seq<Record>)
      returns (out: seq<byte>)
      requires file == LogOf(rs)
      ensures out == LogOf(rs + [Record(kind, body)])
    {
      hide LogOf, Envelope;
      var record := EncodeRecord(kind, body);
      out := file + record;
      LogOfSnoc(rs, Record(kind, body));
    }

    /** Writes the descriptors in whatever order the table is iterated. */
    method SaveSources(file: seq<byte>, ghost rs: seq<Record>) returns (out: seq<byte>, ghost order: seq<u64>)
      requires file == LogOf(rs)
      ensures Enumerates(order, sources) && out == LogOf(rs + MapSeq(SourceRecord, Values(sources, order)))
    {
      hide LogOf, Values, MapSeq;
      out, order := file, [];
      var todo := sources.Keys;
      assert rs + MapSeq(SourceRecord, Values(sources, [])) == rs by {
        NothingSaved(sources, SourceRecord);
      }
      while todo != {}
        invariant todo <= sources.Keys && Listed(order, sources, todo)
        invariant out == LogOf(rs + MapSeq(SourceRecord, Values(sources, order)))
        decreases |todo|
      {
        var id :| id in todo;
        var w := new BinWriter();
        WriteSourceDescriptor(w, sources[id]);
        out := AppendRecord(out, SOURCE_DESCRIPTOR, w.buf, rs + MapSeq(SourceRecord, Values(sources, order)));
        SavedOneMore(sources, order, id, SourceRecord, rs);
        ListedOneMore(order, sources, todo, id);
        order := order + [id];
        todo := todo - {id};
      }
    }

    method SaveOutcomes(file: seq<byte>, ghost rs: seq<Record>) returns (out: seq<byte>, ghost order: seq<u64>)
      requires file == LogOf(rs)
      ensures Enumerates(order, outcomes) && out == LogOf(rs + MapSeq(OutcomeRecord, Values(outcomes, order)))
    {
      hide LogOf, Values, MapSeq;
      out, order := file, [];
      var todo := outcomes.Keys;
      assert rs + MapSeq(OutcomeRecord, Values(outcomes, [])) == rs by {
        NothingSaved(outcomes, OutcomeRecord);
      }
      while todo != {}
        invariant todo <= outcomes.Keys && Listed(order, outcomes, todo)
        invariant out == LogOf(rs + MapSeq(OutcomeRecord, Values(outcomes, order)))
        decreases |todo|
      {
        var id :| id in todo;
        var w := new BinWriter();
        WriteOutcome(w, outcomes[id]);
        out := AppendRecord(out, OUTCOME, w.buf, rs + MapSeq(OutcomeRecord, Values(outcomes, order)));
        SavedOneMore(outcomes, order, id, OutcomeRecord, rs);
        ListedOneMore(order, outcomes, todo, id);
        order := order + [id];
        todo := todo - {id};
      }
    }

    method SaveObservations(file: seq<byte>, ghost rs: seq<Record>) returns (out: seq<byte>)
      requires file == LogOf(rs)
      ensures out == LogOf(rs + MapSeq(ObsRecord, obs))
    {
      hide LogOf, PutObservation;
      out := file;
      assert rs + MapSeq(ObsRecord, obs[..0]) == rs;
      for i := 0 to |obs|
        invariant out == LogOf(rs + MapSeq(ObsRecord, obs[..i]))
      {
        var w := new BinWriter();
        WriteObservation(w, obs[i]);
        out := AppendRecord(out, OBSERVATION, w.buf, rs + MapSeq(ObsRecord, obs[..i]));
        assert rs + MapSeq(ObsRecord, obs[..i]) + [ObsRecord(obs[i])] == rs + MapSeq(ObsRecord, obs[..i + 1]);
      }
      assert obs[..|obs|] == obs;
    }

    method SaveDecisions(file: seq<byte>, ghost rs: seq<Record>) returns (out: seq<byte>)
      requires file == LogOf(rs)
      ensures out == LogOf(rs + MapSeq(DecRecord, dec))
    {
      hide LogOf, PutDecision;
      out := file;
      assert rs + MapSeq(DecRecord, dec[..0]) == rs;
      for i := 0 to |dec|
        invariant out == LogOf(rs + MapSeq(DecRecord, dec[..i]))
      {
        var w := new BinWriter();
        WriteDecision(w, dec[i]);
        out := AppendRecord(out, DECISION, w.buf, rs + MapSeq(DecRecord, dec[..i]));
        assert rs + MapSeq(DecRecord, dec[..i]) + [DecRecord(dec[i])] == rs + MapSeq(DecRecord, dec[..i + 1]);
      }
      assert dec[..|dec|] == dec;
    }

    /** The file is the saved form of the state, for some iteration order of either table. */
    method Persist() returns (file: seq<byte>, ghost sourceOrder: seq<u64>, ghost outcomeOrder: seq<u64>)
      ensures Enumerates(sourceOrder, sources) && Enumerates(outcomeOrder, outcomes)
      ensures file == SavedFile(View(), Values(sources, sourceOrder), Values(outcomes, outcomeOrder))
    {
      hide LogOf, MapSeq, Enumerates, Values, SavedRecords;
      var w := new BinWriter();
      w.U64(coordinator);
      EmptyLog();
      file := AppendRecord([], EPOCH, w.buf, []);
      ghost var rs := [EpochRecord(coordinator)];
      assert [] + rs == rs;
      file, sourceOrder := SaveSources(file, rs);
      EnumeratesKeys(sourceOrder, sources);
      rs := rs + MapSeq(SourceRecord, Values(sources, sourceOrder));
      file := SaveObservations(file, rs);
      rs := rs + MapSeq(ObsRecord, obs);
      file := SaveDecisions(file, rs);
      rs := rs + MapSeq(DecRecord, dec);
      file, outcomeOrder := SaveOutcomes(file, rs);
      EnumeratesKeys(outcomeOrder, outcomes);
      SavedShape(View(), Values(sources, sourceOrder), Values(outcomes, outcomeOrder));
    }

    // ----- recovery

    /** Loads one decoded record; the result says whether it counts. On a body that does not
        decode nothing changes. */
    method LoadBody(kind: byte, body: seq<byte>) returns (res: Result<bool, CodecError>)
      requires Valid()
      modifies this
      ensures Valid()
      ensures res.Err? ==> View() == old(View())
      ensures LoadRecord(old(View()), Record(kind, body)) == if res.Ok? then Ok((View(), res.value)) else Err(res.error)
    {
      hide ObsIndexed, DecIndexed, GetU64, GetSourceDescriptor, GetObservation, GetDecision, GetOutcome;
      hide OfferObs, OfferDec, OfferOutcome, LoadSource;
      ghost var s := View();
      if LoadRecord(s, Record(kind, body)).Ok? {
        LoadRecordIndexed(s, Record(kind, body));
      }
      var r := new BinReader(body);
      var counted := true;
      if kind == EPOCH {
        var epoch :- r.U64();
        coordinator := epoch;
      } else if kind == SOURCE_DESCRIPTOR {
        var d :- ReadSourceDescriptor(r);
        RestoreSource(d);
      } else if kind == OBSERVATION {
        var o :- ReadObservation(r);
        counted := RestoreObservation(o);
      } else if kind == DECISION {
        var d :- ReadDecision(r);
        counted := RestoreDecision(d);
      } else if kind == OUTCOME {
        var o :- ReadOutcome(r);
        counted := RestoreOutcome(o);
      }
      return Ok(counted);
    }

    method RestoreObservation(o: Obs) returns (counted: bool)
      modifies `obs, `obsById, `obsIndex, `srcGen, `srcBoot
      ensures (View(), counted) == OfferObs(old(View()), o)
    {
      hide AppendObs, Readopt;
      if o.observationId in obsById { return false; }
      AppendObservation(o);
      RestoreAuthority(o);
      return true;
    }

    method RestoreDecision(d: Dec) returns (counted: bool)
      modifies `dec, `decById, `decIndex
      ensures (View(), counted) == OfferDec(old(View()), d)
    {
      hide AppendDec;
      if d.decisionId in decById { return false; }
      AppendDecision(d);
      return true;
    }

    method RestoreOutcome(o: Outcome) returns (counted: bool)
      modifies `outcomes
      ensures (View(), counted) == OfferOutcome(old(View()), o)
    {
      if o.decisionId !in decById { return false; }
      if o.decisionId in outcomes { return false; }
      outcomes := outcomes[o.decisionId := o];
      return true;
    }

    method RestoreSource(d: SourceDescriptor)
      modifies `sources, `srcGen
      ensures View() == LoadSource(old(View()), d)
    {
      sources := sources[d.sourceId := d];
      if d.sourceId !in srcGen || d.generation > srcGen[d.sourceId] {
        srcGen := srcGen[d.sourceId := d.generation];
      }
    }

    /** Looking the generation up inserts a 0 for a source not seen before. */
    method RestoreAuthority(o: Obs)
      modifies `srcGen, `srcBoot
      ensures Authority(srcGen, srcBoot) == Readopt(old(Authority(srcGen, srcBoot)), o)
    {
      if o.sourceId !in srcGen {
        srcGen := srcGen[o.sourceId := 0];
      }
      if o.sourceGeneration > srcGen[o.sourceId] {
        srcGen := srcGen[o.sourceId := o.sourceGeneration];
        srcBoot := srcBoot[o.sourceId := o.workerBoot];
      }
    }

    /** Streams the records of the file until one does not decode, or its body does not. */
    method Recover(bytes: seq<byte>) returns (loaded: nat)
      requires Valid()
      modifies this
      ensures Valid() && (View(), loaded) == Runs.Recover(old(View()), bytes)
    {
      hide ObsIndexed, DecIndexed, LoadRecord, DecodeRecord;
      loaded := 0;
      if bytes == [] {
        NothingParsed();
        return;
      }
      var off := 0;
      assert bytes[0..] == bytes;
      while off < |bytes|
        invariant 0 <= off <= |bytes| && Valid()
        invariant Load(View(), Parse(bytes[off..]), loaded) == Runs.Recover(old(View()), bytes)
      {
        var rest := bytes[off..];
        var decoded := ReadRecord(rest, true);
        if decoded.Err? { break; }
        var (record, consumed) := decoded.value;
        ConsumedIsPositive(rest);
        assert rest[consumed..] == bytes[off + consumed..];
        assert Parse(rest) == [record] + Parse(bytes[off + consumed..]);
        assert ([record] + Parse(bytes[off + consumed..]))[1..] == Parse(bytes[off + consumed..]);
        off := off + consumed;
        var counted := LoadBody(record.kind, record.body);
        if counted.Err? { return; }
        if counted.value {
          loaded := loaded + 1;
        }
      }
      if off == |bytes| {
        assert bytes[off..] == [];
        NothingParsed();
      }
    }
  }

  lemma SavedShape(s: State, sources: seq<SourceDescriptor>, outcomes: seq<Outcome>)
    ensures SavedRecords(s, sources, outcomes) ==
            [EpochRecord(s.coordinator)] + MapSeq(SourceRecord, sources) + MapSeq(ObsRecord, s.observed.log) +
            MapSeq(DecRecord, s.decided.log) + MapSeq(OutcomeRecord, outcomes)
  {
    hide MapSeq, EpochRecord;
    var a, b, c := [EpochRecord(s.coordinator)], MapSeq(SourceRecord, sources), MapSeq(ObsRecord, s.observed.log);
    var d, e := MapSeq(DecRecord, s.decided.log), MapSeq(OutcomeRecord, outcomes);
    Regroup(c, d, e);
    Regroup(b, c, d + e);
    Regroup(b + c, d, e);
    Regroup(a, b + c + d, e);
    Regroup(a, b + c, d);
    Regroup(a, b, c);
  }

  lemma Regroup<T>(x: seq<T>, y: seq<T>, z: seq<T>)
    ensures x + (y + z) == x + y + z
  {
  }

  lemma NothingParsed()
    ensures Parse([]) == []
  {
    EmptyLog();
  }

  lemma {:induction false} LogOfSnoc(rs: seq<Record>, r: Record)
    ensures LogOf(rs + [r]) == LogOf(rs) + Envelope(r)
    decreases |rs|
  {
    hide Envelope;
    if rs == [] {
      assert ([r])[1..] == [];
      assert rs + [r] == [r];
    } else {
      assert (rs + [r])[1..] == rs[1..] + [r];
      LogOfSnoc(rs[1..], r);
    }
  }

  /** `order` lists each key outside `todo` once. */
  ghost predicate Listed<V>(order: seq<u64>, m: map<u64, V>, todo: set<u64>) {
    && (forall i :: 0 <= i < |order| ==> order[i] in m && order[i] !in todo)
    && (forall i, j :: 0 <= i < j < |order| ==> order[i] != order[j])
    && (forall k <- m :: k in order || k in todo)
  }

  lemma ListedOneMore<V>(order: seq<u64>, m: map<u64, V>, todo: set<u64>, id: u64)
    requires Listed(order, m, todo) && id in todo && id in m
    ensures Listed(order + [id], m, todo - {id})
  {
    assert forall k :: k in order + [id] <==> k in order || k == id;
  }

  lemma EnumeratesKeys<V>(order: seq<u64>, m: map<u64, V>)
    requires Enumerates(order, m)
    ensures forall i :: 0 <= i < |order| ==> order[i] in m
  {
  }

  lemma NothingSaved<V>(m: map<u64, V>, record: V -> Record)
    ensures MapSeq(record, Values(m, [])) == []
  {
  }

  lemma {:induction false} ValuesSnoc<V>(m: map<u64, V>, order: seq<u64>, id: u64)
    requires id in m && forall i :: 0 <= i < |order| ==> order[i] in m
    ensures Values(m, order + [id]) == Values(m, order) + [m[id]]
    decreases |order|
  {
    if order == [] {
      assert order + [id] == [id];
      assert [id][1..] == [];
    } else {
      assert (order + [id])[1..] == order[1..] + [id];
      ValuesSnoc(m, order[1..], id);
    }
  }

  lemma SavedOneMore<V>(m: map<u64, V>, order: seq<u64>, id: u64, record: V -> Record, rs: seq<Record>)
    requires id in m && forall i :: 0 <= i < |order| ==> order[i] in m
    ensures rs + MapSeq(record, Values(m, order)) + [record(m[id])] == rs + MapSeq(record, Values(m, order + [id]))
  {
    ValuesSnoc(m, order, id);
  }

  /** The attempt index points into the log. */
  lemma AttemptInside(l: DecLog, attempt: u64)
    requires DecIndexed(l) && attempt in l.index.attempt
    ensures l.index.attempt[attempt] < |l.log|
  {
    hide Agrees;
    assert Find(l.index.attempt, attempt) == Latest(Attempts(l.log), attempt);
    LatestExact(Attempts(l.log), attempt);
  }
}
