/** Reading a log back into the store, the calls that change the store, and runs of them. */
module Runs {
  import opened Base
  import opened Model
  import opened Serialize
  import opened Records
  import opened RecordLog
  import opened Indexes
  import opened Store

  // ----- recovery, record by record

  /** A recovered descriptor raises the generation but restores no boot. */
  function RaiseTo(a: Authority, d: SourceDescriptor): Authority {
    if d.sourceId !in a.generation || d.generation > a.generation[d.sourceId]
    then a.(generation := a.generation[d.sourceId := d.generation])
    else a
  }

  function LoadSource(s: State, d: SourceDescriptor): State {
    s.(sources := s.sources[d.sourceId := d], authority := RaiseTo(s.authority, d))
  }

  /** The boot comes back only with a generation that is news; the generation table gains an
      entry for the source in any case. */
  function Readopt(a: Authority, o: Obs): Authority {
    var cur := CurrentGeneration(a, o.sourceId);
    if o.sourceGeneration > cur then Trust(a, o.sourceId, o.sourceGeneration, o.workerBoot)
    else a.(generation := a.generation[o.sourceId := cur])
  }

  /** Each offer yields the new state and whether the record counts: what is already present,
      and an outcome without its decision, is passed over. */
  function OfferObs(s: State, o: Obs): (State, bool) {
    if o.observationId in s.observed.byId then (s, false)
    else (s.(observed := AppendObs(s.observed, o), authority := Readopt(s.authority, o)), true)
  }

  function OfferDec(s: State, d: Dec): (State, bool) {
    if d.decisionId in s.decided.byId then (s, false) else (s.(decided := AppendDec(s.decided, d)), true)
  }

  function OfferOutcome(s: State, o: Outcome): (State, bool) {
    if o.decisionId !in s.decided.byId || o.decisionId in s.outcomes then (s, false)
    else (s.(outcomes := s.outcomes[o.decisionId := o]), true)
  }

  /** The effect of one record and whether it is counted; kinds that carry no state are only
      counted. */
  function LoadRecord(s: State, r: Record): Result<(State, bool), CodecError> {
    if r.kind == EPOCH then
      var (epoch, _) :- GetU64(r.body, 0);
      Ok((SetEpoch(s, epoch), true))
    else if r.kind == SOURCE_DESCRIPTOR then
      var (d, _) :- GetSourceDescriptor(r.body, 0);
      Ok((LoadSource(s, d), true))
    else if r.kind == OBSERVATION then
      var (o, _) :- GetObservation(r.body, 0);
      Ok(OfferObs(s, o))
    else if r.kind == DECISION then
      var (d, _) :- GetDecision(r.body, 0);
      Ok(OfferDec(s, d))
    else if r.kind == OUTCOME then
      var (o, _) :- GetOutcome(r.body, 0);
      Ok(OfferOutcome(s, o))
    else Ok((s, true))
  }

  /** Loads records until a body does not decode. */
  function Load(s: State, rs: seq<Record>, loaded: nat): (State, nat)
    decreases |rs|
  {
    if rs == [] then (s, loaded)
    else
      match LoadRecord(s, rs[0])
      case Err(_) => (s, loaded)
      case Ok((t, counted)) => Load(t, rs[1..], if counted then loaded + 1 else loaded)
  }

  /** The state after recovering from a file, and the number of records loaded. */
  function Recover(s: State, file: seq<byte>): (State, nat) {
    Load(s, Parse(file), 0)
  }

  // ----- calls and runs

  datatype Call =
    | RegisterSource(source: SourceDescriptor)
    | CoordinatorEpoch(epoch: u64)
    | Observe(obs: Obs)
    | Decide(dec: Dec)
    | Finish(outcome: Outcome)
    | Restore(file: seq<byte>)

  function Step(cfg: Config, s: State, c: Call): State {
    match c
    case RegisterSource(d) => Register(s, d)
    case CoordinatorEpoch(e) => SetEpoch(s, e)
    case Observe(o) => Ingest(cfg, s, o).0
    case Decide(d) => IngestDecision(cfg, s, d).0
    case Finish(o) => IngestOutcome(s, o).0
    case Restore(file) => Recover(s, file).0
  }

  function Run(cfg: Config, s: State, calls: seq<Call>): State
    decreases |calls|
  {
    if calls == [] then s else Run(cfg, Step(cfg, s, calls[0]), calls[1..])
  }

  // ----- the indexes agree with the logs

  function ObsKeys(w: ObsKey, log: seq<Obs>): (keys: seq<Option<u64>>)
    ensures |keys| == |log| && forall i :: 0 <= i < |log| ==> keys[i] == ObsKeyOf(w, log[i])
  {
    seq(|log|, i requires 0 <= i < |log| => ObsKeyOf(w, log[i]))
  }

  function DecKeys(w: DecKey, log: seq<Dec>): (keys: seq<Option<u64>>)
    ensures |keys| == |log| && forall i :: 0 <= i < |log| ==> keys[i] == DecKeyOf(w, log[i])
  {
    seq(|log|, i requires 0 <= i < |log| => DecKeyOf(w, log[i]))
  }

  function Attempts(log: seq<Dec>): (keys: seq<Option<u64>>)
    ensures |keys| == |log| && forall i :: 0 <= i < |log| ==> keys[i] == IfValid(log[i].attemptId)
  {
    seq(|log|, i requires 0 <= i < |log| => IfValid(log[i].attemptId))
  }

  /** The by-id map is a bijection between ids and log positions, and every index is what a scan
      of the log would compute. */
  ghost predicate ObsIndexed(l: ObsLog) {
    && (forall i :: 0 <= i < |l.log| ==> l.log[i].observationId in l.byId && l.byId[l.log[i].observationId] == i)
    && (forall id <- l.byId :: l.byId[id] < |l.log| && l.log[l.byId[id]].observationId == id)
    && (forall w: ObsKey :: Agrees(ObsIndexBy(l.index, w), ObsKeys(w, l.log)))
  }

  /** Likewise; the attempt index is single-valued and remembers the latest position. */
  ghost predicate DecIndexed(l: DecLog) {
    && (forall i :: 0 <= i < |l.log| ==> l.log[i].decisionId in l.byId && l.byId[l.log[i].decisionId] == i)
    && (forall id <- l.byId :: l.byId[id] < |l.log| && l.log[l.byId[id]].decisionId == id)
    && (forall w: DecKey :: Agrees(DecIndexBy(l.index, w), DecKeys(w, l.log)))
    && Remembers(l.index.attempt, Attempts(l.log))
  }

  ghost predicate Indexed(s: State) {
    ObsIndexed(s.observed) && DecIndexed(s.decided)
  }

  lemma FreshIndexed()
    ensures Indexed(Fresh())
  {
    forall w: ObsKey
      ensures Agrees(ObsIndexBy(EmptyObsLog().index, w), ObsKeys(w, []))
    {
      assert forall k: u64 :: Positions(ObsKeys(w, []), k) == [];
    }
    forall w: DecKey
      ensures Agrees(DecIndexBy(EmptyDecLog().index, w), DecKeys(w, []))
    {
      assert forall k: u64 :: Positions(DecKeys(w, []), k) == [];
    }
  }

  lemma AppendObsIndexed(l: ObsLog, o: Obs)
    requires ObsIndexed(l) && o.observationId !in l.byId
    ensures ObsIndexed(AppendObs(l, o))
  {
    hide Push, Agrees;
    var t := AppendObs(l, o);
    forall w: ObsKey
      ensures Agrees(ObsIndexBy(t.index, w), ObsKeys(w, t.log))
    {
      PushAgrees(ObsIndexBy(l.index, w), ObsKeys(w, l.log), ObsKeyOf(w, o));
      assert ObsKeys(w, t.log) == ObsKeys(w, l.log) + [ObsKeyOf(w, o)];
      assert ObsIndexBy(t.index, w) == Push(ObsIndexBy(l.index, w), ObsKeyOf(w, o), |l.log|);
    }
  }

  lemma AppendDecIndexed(l: DecLog, d: Dec)
    requires DecIndexed(l) && d.decisionId !in l.byId
    ensures DecIndexed(AppendDec(l, d))
  {
    hide Push, Agrees, Remembers, Overwrite;
    var t := AppendDec(l, d);
    forall w: DecKey
      ensures Agrees(DecIndexBy(t.index, w), DecKeys(w, t.log))
    {
      PushAgrees(DecIndexBy(l.index, w), DecKeys(w, l.log), DecKeyOf(w, d));
      assert DecKeys(w, t.log) == DecKeys(w, l.log) + [DecKeyOf(w, d)];
      assert DecIndexBy(t.index, w) == Push(DecIndexBy(l.index, w), DecKeyOf(w, d), |l.log|);
    }
    OverwriteRemembers(l.index.attempt, Attempts(l.log), IfValid(d.attemptId));
    assert Attempts(t.log) == Attempts(l.log) + [IfValid(d.attemptId)];
  }

  lemma OfferObsIndexed(s: State, o: Obs)
    requires Indexed(s)
    ensures Indexed(OfferObs(s, o).0)
  {
    hide ObsIndexed, DecIndexed;
    if o.observationId !in s.observed.byId {
      AppendObsIndexed(s.observed, o);
    }
  }

  lemma OfferDecIndexed(s: State, d: Dec)
    requires Indexed(s)
    ensures Indexed(OfferDec(s, d).0)
  {
    hide ObsIndexed, DecIndexed;
    if d.decisionId !in s.decided.byId {
      AppendDecIndexed(s.decided, d);
    }
  }

  lemma LoadRecordIndexed(s: State, r: Record)
    requires Indexed(s) && LoadRecord(s, r).Ok?
    ensures Indexed(LoadRecord(s, r).value.0)
  {
    hide ObsIndexed, DecIndexed, GetObservation, GetDecision, GetOutcome, GetSourceDescriptor, GetU64,
      OfferObs, OfferDec;
    if r.kind == OBSERVATION {
      OfferObsIndexed(s, GetObservation(r.body, 0).value.0);
    } else if r.kind == DECISION {
      OfferDecIndexed(s, GetDecision(r.body, 0).value.0);
    }
  }

  lemma {:induction false} LoadIndexed(s: State, rs: seq<Record>, loaded: nat)
    requires Indexed(s)
    ensures Indexed(Load(s, rs, loaded).0)
    decreases |rs|
  {
    hide Indexed, LoadRecord;
    if rs == [] {
    } else {
      match LoadRecord(s, rs[0]) {
        case Err(_) =>
        case Ok((t, counted)) =>
          LoadRecordIndexed(s, rs[0]);
          LoadIndexed(t, rs[1..], if counted then loaded + 1 else loaded);
      }
    }
  }

  lemma IngestIndexed(cfg: Config, s: State, o: Obs)
    requires Indexed(s)
    ensures Indexed(Ingest(cfg, s, o).0)
  {
    hide ObsIndexed, DecIndexed, IndexObs, Unauthorized, LateFault, Authorize;
    if Ingest(cfg, s, o).1.Accepted? {
      AppendObsIndexed(s.observed, Correlated(o));
    }
  }

  lemma IngestDecisionIndexed(cfg: Config, s: State, d: Dec)
    requires Indexed(s)
    ensures Indexed(IngestDecision(cfg, s, d).0)
  {
    hide ObsIndexed, DecIndexed, IndexDec, AttemptTaken, FiniteCosts, Lists, StaleEpoch;
    if IngestDecision(cfg, s, d).1.Accepted? {
      AppendDecIndexed(s.decided, d);
    }
  }

  lemma StepIndexed(cfg: Config, s: State, c: Call)
    requires Indexed(s)
    ensures Indexed(Step(cfg, s, c))
  {
    hide ObsIndexed, DecIndexed, Load, Parse, Ingest, IngestDecision, OutcomeFault;
    match c {
      case Observe(o) => IngestIndexed(cfg, s, o);
      case Decide(d) => IngestDecisionIndexed(cfg, s, d);
      case Restore(file) => LoadIndexed(s, Parse(file), 0);
      case _ =>
    }
  }

  /** In every state reached by any calls, recoveries from arbitrary files included, every index
      is what a scan of the log would compute and the by-id maps are bijections. */
  lemma {:induction false} RunIndexed(cfg: Config, s: State, calls: seq<Call>)
    requires Indexed(s)
    ensures Indexed(Run(cfg, s, calls))
    decreases |calls|
  {
    hide Indexed, Step;
    if calls == [] {
    } else {
      StepIndexed(cfg, s, calls[0]);
      RunIndexed(cfg, Step(cfg, s, calls[0]), calls[1..]);
    }
  }
}
