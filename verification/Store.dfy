/** What the observatory holds, and what each of its state-changing calls does to it. A call holds
    the lock from beginning to end, so it is one atomic step. */
module Store {
  import opened Base
  import opened Model
  import opened Indexes

  type Obs = Observation<Pattern>
  type Dec = Decision<Pattern>

  datatype Config = Config(staleGeneration: bool, staleBoot: bool, staleEpoch: bool)

  datatype ObsIndex = ObsIndex(
    workload: Index, request: Index, node: Index, device: Index, source: Index, generation: Index,
    epoch: Index, namespace: Index, attempt: Index)

  datatype DecIndex = DecIndex(
    workload: Index, request: Index, node: Index, device: Index, epoch: Index, namespace: Index,
    policy: Index, selected: Index, attempt: map<u64, nat>)

  /** An append-only log of observations with its indexes. */
  datatype ObsLog = ObsLog(log: seq<Obs>, byId: map<u64, nat>, index: ObsIndex)

  datatype DecLog = DecLog(log: seq<Dec>, byId: map<u64, nat>, index: DecIndex)

  /** The trusted generation and worker boot of each source. */
  datatype Authority = Authority(generation: map<u64, u64>, boot: map<u64, u64>)

  datatype State = State(
    observed: ObsLog, decided: DecLog, outcomes: map<u64, Outcome>, sources: map<u64, SourceDescriptor>,
    authority: Authority, coordinator: u64, rejected: nat, superseded: nat, events: nat)

  datatype Rejection =
    | InvalidObservationId | InvalidSourceId | ZeroSourceGeneration | ZeroObservationGeneration
    | DuplicateObservationId | StaleSourceGeneration | StaleWorkerBoot | StaleCoordinatorEpoch
    | NonFiniteEvidence | ImpossibleMemory
    | InvalidDecisionId | DuplicateDecisionId | DuplicateAttempt | ZeroPlacementGeneration
    | InvalidSelectedCandidate | EmptyCompleteSet | SelectedAbsent | CompleteAndReconstructed
    | NonFiniteCost
    | InvalidOutcomeDecisionId | OutcomeBeforeDecision | DuplicateOutcome | OutcomeWrongGeneration
    | UnknownDisposition

  /** `events` is the event count the caller is told. */
  datatype Reply = Accepted(events: nat) | Rejected(why: Rejection, events: nat)

  function EmptyObsLog(): ObsLog {
    ObsLog([], map[], ObsIndex(map[], map[], map[], map[], map[], map[], map[], map[], map[]))
  }

  function EmptyDecLog(): DecLog {
    DecLog([], map[], DecIndex(map[], map[], map[], map[], map[], map[], map[], map[], map[]))
  }

  function Fresh(): State {
    State(EmptyObsLog(), EmptyDecLog(), map[], map[], Authority(map[], map[]), 0, 0, 0, 0)
  }

  // ----- indexing

  datatype ObsKey = OWorkload | ORequest | ONode | ODevice | OSource | OGeneration | OEpoch | ONamespace | OAttempt
  datatype DecKey = DWorkload | DRequest | DNode | DDevice | DEpoch | DNamespace | DPolicy | DSelected

  /** A nil id is not indexed. */
  function IfValid(id: u64): Option<u64> {
    if id != 0 then Some(id) else None
  }

  function ObsKeyOf(w: ObsKey, o: Obs): Option<u64> {
    match w
    case OWorkload => IfValid(o.workloadId)
    case ORequest => IfValid(o.requestId)
    case ONode => IfValid(o.nodeId)
    case ODevice => IfValid(o.deviceId)
    case OSource => IfValid(o.sourceId)
    case OGeneration => Some(o.sourceGeneration)
    case OEpoch => Some(o.epoch)
    case ONamespace => IfValid(o.namespaceId)
    case OAttempt => IfValid(o.attemptId)
  }

  function DecKeyOf(w: DecKey, d: Dec): Option<u64> {
    match w
    case DWorkload => IfValid(d.workloadId)
    case DRequest => IfValid(d.requestId)
    case DNode => IfValid(d.nodeId)
    case DDevice => IfValid(d.deviceId)
    case DEpoch => Some(d.epoch)
    case DNamespace => IfValid(d.namespaceId)
    case DPolicy => Some(d.policyGeneration)
    case DSelected => IfValid(d.selectedCandidate)
  }

  function ObsIndexBy(ix: ObsIndex, w: ObsKey): Index {
    match w
    case OWorkload => ix.workload
    case ORequest => ix.request
    case ONode => ix.node
    case ODevice => ix.device
    case OSource => ix.source
    case OGeneration => ix.generation
    case OEpoch => ix.epoch
    case ONamespace => ix.namespace
    case OAttempt => ix.attempt
  }

  function DecIndexBy(ix: DecIndex, w: DecKey): Index {
    match w
    case DWorkload => ix.workload
    case DRequest => ix.request
    case DNode => ix.node
    case DDevice => ix.device
    case DEpoch => ix.epoch
    case DNamespace => ix.namespace
    case DPolicy => ix.policy
    case DSelected => ix.selected
  }

  function IndexObs(ix: ObsIndex, o: Obs, i: nat): ObsIndex {
    ObsIndex(
      Push(ix.workload, IfValid(o.workloadId), i), Push(ix.request, IfValid(o.requestId), i),
      Push(ix.node, IfValid(o.nodeId), i), Push(ix.device, IfValid(o.deviceId), i),
      Push(ix.source, IfValid(o.sourceId), i), Push(ix.generation, Some(o.sourceGeneration), i),
      Push(ix.epoch, Some(o.epoch), i), Push(ix.namespace, IfValid(o.namespaceId), i),
      Push(ix.attempt, IfValid(o.attemptId), i))
  }

  function IndexDec(ix: DecIndex, d: Dec, i: nat): DecIndex {
    DecIndex(
      Push(ix.workload, IfValid(d.workloadId), i), Push(ix.request, IfValid(d.requestId), i),
      Push(ix.node, IfValid(d.nodeId), i), Push(ix.device, IfValid(d.deviceId), i),
      Push(ix.epoch, Some(d.epoch), i), Push(ix.namespace, IfValid(d.namespaceId), i),
      Push(ix.policy, Some(d.policyGeneration), i), Push(ix.selected, IfValid(d.selectedCandidate), i),
      Overwrite(ix.attempt, IfValid(d.attemptId), i))
  }

  function AppendObs(l: ObsLog, o: Obs): ObsLog {
    ObsLog(l.log + [o], l.byId[o.observationId := |l.log|], IndexObs(l.index, o, |l.log|))
  }

  function AppendDec(l: DecLog, d: Dec): DecLog {
    DecLog(l.log + [d], l.byId[d.decisionId := |l.log|], IndexDec(l.index, d, |l.log|))
  }

  // ----- sources and epochs

  /** The trusted generation of a source, 0 while it is unknown. */
  function CurrentGeneration(a: Authority, id: u64): u64 {
    if id in a.generation then a.generation[id] else 0
  }

  /** The trusted boot of a source, 0 while there is none. */
  function TrustedBoot(a: Authority, id: u64): u64 {
    if id in a.boot then a.boot[id] else 0
  }

  function Trust(a: Authority, id: u64, generation: u64, boot: u64): Authority {
    Authority(a.generation[id := generation], a.boot[id := boot])
  }

  /** A first registration, or one with a higher generation, moves authority and forgets the boot. */
  function Enrol(a: Authority, d: SourceDescriptor): Authority {
    if d.sourceId !in a.generation || d.generation > a.generation[d.sourceId]
    then Trust(a, d.sourceId, d.generation, 0)
    else a
  }

  /** The descriptor is replaced whether or not authority moves. */
  function Register(s: State, d: SourceDescriptor): State {
    s.(authority := Enrol(s.authority, d), sources := s.sources[d.sourceId := d])
  }

  function SetEpoch(s: State, epoch: u64): State {
    s.(coordinator := epoch)
  }

  predicate StaleEpoch(cfg: Config, coordinator: u64, epoch: u64) {
    cfg.staleEpoch && coordinator != 0 && epoch != 0 && epoch < coordinator
  }

  function Reject(s: State, why: Rejection): (State, Reply) {
    (s.(rejected := s.rejected + 1), Rejected(why, s.events))
  }

  // ----- observations

  /** What is wrong with an observation before anything about it is believed. */
  function Malformed(l: ObsLog, o: Obs): Option<Rejection> {
    if o.observationId == 0 then Some(InvalidObservationId)
    else if o.sourceId == 0 then Some(InvalidSourceId)
    else if o.sourceGeneration == 0 then Some(ZeroSourceGeneration)
    else if o.observationGeneration == 0 then Some(ZeroObservationGeneration)
    else if o.observationId in l.byId then Some(DuplicateObservationId)
    else None
  }

  /** Whether the source may speak: its generation is not behind, and within the current
      generation its boot is the trusted one once there is one. */
  function Unauthorized(cfg: Config, a: Authority, o: Obs): Option<Rejection> {
    var cur := CurrentGeneration(a, o.sourceId);
    var boot := TrustedBoot(a, o.sourceId);
    if cfg.staleGeneration && o.sourceGeneration < cur then Some(StaleSourceGeneration)
    else if cfg.staleBoot && o.sourceGeneration == cur && boot != 0 && o.workerBoot != boot then Some(StaleWorkerBoot)
    else None
  }

  /** A higher generation takes over; otherwise a missing boot is adopted. */
  function Authorize(a: Authority, o: Obs): Authority {
    if o.sourceGeneration > CurrentGeneration(a, o.sourceId) then Trust(a, o.sourceId, o.sourceGeneration, o.workerBoot)
    else if TrustedBoot(a, o.sourceId) == 0 then a.(boot := a.boot[o.sourceId := o.workerBoot])
    else a
  }

  /** Whether the observation displaces an earlier generation of its source. */
  predicate Supersedes(a: Authority, o: Obs) {
    0 < CurrentGeneration(a, o.sourceId) < o.sourceGeneration
  }

  predicate MemoryField(name: Text) {
    name == "memory.free_bytes" || name == "memory.used_bytes" || name == "memory.total_bytes"
  }

  function FieldFault(m: Measurement<Pattern>): Option<Rejection> {
    if m.value.Double? && !Finite(m.value.d) then Some(NonFiniteEvidence)
    else if MemoryField(m.normalizedField) && m.value.UInt? && m.value.u > 0x7FFF_FFFF_FFFF_FFFF
      then Some(ImpossibleMemory)
    else None
  }

  /** The first fault among an observation's fields. */
  function FieldsFault(fields: seq<Measurement<Pattern>>): Option<Rejection> {
    if fields == [] then None
    else if FieldFault(fields[0]).Some? then FieldFault(fields[0])
    else FieldsFault(fields[1..])
  }

  /** What can still reject an observation after its authority has been taken over. */
  function LateFault(cfg: Config, coordinator: u64, o: Obs): Option<Rejection> {
    if StaleEpoch(cfg, coordinator, o.coordinatorEpoch) then Some(StaleCoordinatorEpoch) else FieldsFault(o.fields)
  }

  function Correlated(o: Obs): Obs {
    o.(lifecycle := LIFECYCLE_CORRELATED)
  }

  /** The state once the observation's source is believed, before the late checks. */
  function Believe(s: State, o: Obs): State {
    s.(authority := Authorize(s.authority, o),
       superseded := if Supersedes(s.authority, o) then s.superseded + 1 else s.superseded)
  }

  function LogObs(s: State, o: Obs): State {
    s.(observed := AppendObs(s.observed, o), events := s.events + 1)
  }

  function Ingest(cfg: Config, s: State, o: Obs): (State, Reply) {
    if Malformed(s.observed, o).Some? then Reject(s, Malformed(s.observed, o).value)
    else if Unauthorized(cfg, s.authority, o).Some? then Reject(s, Unauthorized(cfg, s.authority, o).value)
    else if LateFault(cfg, s.coordinator, o).Some? then Reject(Believe(s, o), LateFault(cfg, s.coordinator, o).value)
    else (LogObs(Believe(s, o), Correlated(o)), Accepted(s.events + 1))
  }

  // ----- decisions

  /** The attempt is on record for a different decision. */
  predicate AttemptTaken(l: DecLog, d: Dec) {
    d.attemptId != 0 && d.attemptId in l.index.attempt &&
    var at := l.index.attempt[d.attemptId];
    !(at < |l.log| && l.log[at].decisionId == d.decisionId)
  }

  predicate FiniteComponent(c: CostComponent<Pattern>) {
    Finite(c.cost) && Finite(c.policyWeight)
  }

  predicate FiniteCandidate(c: Candidate<Pattern>) {
    Finite(c.totalCost) && forall i :: 0 <= i < |c.costs| ==> FiniteComponent(c.costs[i])
  }

  predicate FiniteCosts(d: Dec) {
    && (forall i :: 0 <= i < |d.candidateSet.candidates| ==> FiniteCandidate(d.candidateSet.candidates[i]))
    && (forall i :: 0 <= i < |d.costComponents| ==> FiniteComponent(d.costComponents[i]))
    && (forall i :: 0 <= i < |d.scoreComponents| ==> Finite(d.scoreComponents[i].value))
  }

  predicate ImpossibleMemoryOf(m: MemoryDescriptor<Pattern>) {
    m.totalBytes > 0 && (m.usedBytes > m.totalBytes || m.freeBytes > m.totalBytes)
  }

  predicate Lists(cs: seq<Candidate<Pattern>>, id: u64) {
    exists i :: 0 <= i < |cs| && cs[i].candidateId == id
  }

  function DecisionFault(cfg: Config, l: DecLog, coordinator: u64, d: Dec): Option<Rejection> {
    var cs := d.candidateSet;
    if d.decisionId == 0 then Some(InvalidDecisionId)
    else if d.decisionId in l.byId then Some(DuplicateDecisionId)
    else if AttemptTaken(l, d) then Some(DuplicateAttempt)
    else if d.placementGeneration == 0 then Some(ZeroPlacementGeneration)
    else if d.selectedCandidate == 0 then Some(InvalidSelectedCandidate)
    else if cs.complete && cs.candidates == [] then Some(EmptyCompleteSet)
    else if cs.complete && !Lists(cs.candidates, d.selectedCandidate) then Some(SelectedAbsent)
    else if cs.complete && cs.reconstructed then Some(CompleteAndReconstructed)
    else if !FiniteCosts(d) then Some(NonFiniteCost)
    else if exists i :: 0 <= i < |cs.candidates| && ImpossibleMemoryOf(cs.candidates[i].memory)
      then Some(ImpossibleMemory)
    else if StaleEpoch(cfg, coordinator, d.provenance.coordinatorEpoch) then Some(StaleCoordinatorEpoch)
    else None
  }

  function LogDec(s: State, d: Dec): State {
    s.(decided := AppendDec(s.decided, d), events := s.events + 1)
  }

  function IngestDecision(cfg: Config, s: State, d: Dec): (State, Reply) {
    var fault := DecisionFault(cfg, s.decided, s.coordinator, d);
    if fault.Some? then Reject(s, fault.value) else (LogDec(s, d), Accepted(s.events + 1))
  }

  // ----- outcomes

  function DecisionOf(l: DecLog, id: u64): Option<Dec> {
    if id in l.byId && l.byId[id] < |l.log| then Some(l.log[l.byId[id]]) else None
  }

  /** A nil attempt is compatible with any. */
  predicate Compatible(o: Outcome, d: Dec) {
    o.attemptId == 0 || d.attemptId == 0 || o.attemptId == d.attemptId
  }

  function OutcomeFault(l: DecLog, outcomes: map<u64, Outcome>, o: Outcome): Option<Rejection> {
    if o.decisionId == 0 then Some(InvalidOutcomeDecisionId)
    else if DecisionOf(l, o.decisionId).None? then Some(OutcomeBeforeDecision)
    else if o.decisionId in outcomes then Some(DuplicateOutcome)
    else if !Compatible(o, DecisionOf(l, o.decisionId).value) then Some(OutcomeWrongGeneration)
    else if o.disposition == DISPOSITION_UNKNOWN then Some(UnknownDisposition)
    else None
  }

  function LogOutcome(s: State, o: Outcome): State {
    s.(outcomes := s.outcomes[o.decisionId := o], events := s.events + 1)
  }

  function IngestOutcome(s: State, o: Outcome): (State, Reply) {
    var fault := OutcomeFault(s.decided, s.outcomes, o);
    if fault.Some? then Reject(s, fault.value) else (LogOutcome(s, o), Accepted(s.events + 1))
  }

  // ----- queries

  datatype QueryFilter = QueryFilter(
    workloadId: u64, requestId: u64, decisionId: u64, attemptId: u64, nodeId: u64, deviceId: u64,
    sourceId: u64, sourceGeneration: u64, epoch: u64, policyGeneration: u64, namespaceId: u64,
    tBegin: i64, tEnd: i64)

  /** A criterion that is 0 does not restrict. */
  predicate Admits(want: u64, have: u64) {
    want == 0 || have == want
  }

  predicate MatchesObs(f: QueryFilter, o: Obs) {
    && Admits(f.workloadId, o.workloadId) && Admits(f.requestId, o.requestId)
    && Admits(f.decisionId, o.decisionId) && Admits(f.attemptId, o.attemptId)
    && Admits(f.nodeId, o.nodeId) && Admits(f.deviceId, o.deviceId) && Admits(f.sourceId, o.sourceId)
    && Admits(f.sourceGeneration, o.sourceGeneration) && Admits(f.epoch, o.epoch)
    && Admits(f.namespaceId, o.namespaceId)
    && (f.tBegin == 0 || o.timestamp.wall >= f.tBegin) && (f.tEnd == 0 || o.timestamp.wall <= f.tEnd)
  }

  predicate MatchesDec(f: QueryFilter, d: Dec) {
    && Admits(f.workloadId, d.workloadId) && Admits(f.requestId, d.requestId)
    && Admits(f.decisionId, d.decisionId) && Admits(f.attemptId, d.attemptId)
    && Admits(f.nodeId, d.nodeId) && Admits(f.deviceId, d.deviceId)
    && Admits(f.policyGeneration, d.policyGeneration) && Admits(f.epoch, d.epoch)
    && Admits(f.namespaceId, d.namespaceId)
  }
}
