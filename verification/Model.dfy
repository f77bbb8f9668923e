/** The data model. Identities, generations and epochs are 64-bit integers, 0 meaning nil;
    enumerations are bytes, because the decoder casts any byte into them; `D` is the
    representation of a double: a 64-bit pattern in the codec, a real number in the ranking. */
module Model {
  import opened Base

  /** A string whose length the writer can record. */
  type Text = s: seq<Char8> | |s| < TWO32

  /** The bit pattern of a double. */
  type Pattern = u64

  /** Infinities and NaNs have all exponent bits set. */
  predicate Finite(d: Pattern) {
    d / 0x10_0000_0000_0000 % 0x800 != 0x7FF
  }

  // Enumerators the code distinguishes.
  const LIFECYCLE_CORRELATED: byte := 2
  const HEALTH_HEALTHY: byte := 1
  const HEALTH_DEGRADED: byte := 2
  const DISPOSITION_UNKNOWN: byte := 0
  const COST_TRANSFER: byte := 3
  const COST_STATE_LOCALITY_BENEFIT: byte := 5

  datatype Timestamp = Timestamp(wall: i64, mono: u64, uncertaintyNs: i64)

  datatype Value<D> = NoValue | Int(i: i64) | UInt(u: u64) | Double(d: D) | Bool(b: bool) | Str(s: Text)

  /** Where a claim about evidence comes from. */
  datatype Provenance = Provenance(
    sourceId: u64, sourceGeneration: u64, sourceType: byte, collection: byte, reliability: byte,
    classification: byte, timestamp: Timestamp, uncertaintyNs: i64, workerBoot: u64, coordinatorEpoch: u64,
    collectionError: Text, normalizedField: Text, rawField: Text)

  /** Structured confidence. */
  datatype Confidence<D> = Confidence(
    cls: byte, numerator: D, denominator: D, derivation: Text)

  /** An entry of the per-candidate rejection reasons. */
  datatype Reason = Reason(candidateId: u64, text: Text)

  predicate Ascending(s: seq<Reason>) {
    forall i, j :: 0 <= i < j < |s| ==> s[i].candidateId < s[j].candidateId
  }

  /** An ordered map from candidate to reason, as the list of its entries. */
  type ReasonMap = s: seq<Reason> | Ascending(s)

  /** A named evidence field with its typed value. */
  datatype Measurement<D> = Measurement(
    normalizedField: Text, rawField: Text, value: Value<D>, classification: byte, provenance: Provenance)

  /** A producer of evidence and its generation. */
  datatype SourceDescriptor = SourceDescriptor(
    sourceId: u64, generation: u64, kind: byte, name: Text, reliability: byte, endpoint: Text,
    lastSeen: Timestamp, synthetic: bool)

  datatype QueueDescriptor = QueueDescriptor(
    queueName: Text, state: byte, depth: u32, oldestAgeNs: u64, headWaitNs: u64, expectedWaitNs: u64,
    capacity: u32)

  datatype MemoryDescriptor<D> = MemoryDescriptor(
    totalBytes: u64, freeBytes: u64, usedBytes: u64, pressure: byte, pressureRatio: D)

  datatype LocalityDescriptor<D> = LocalityDescriptor(
    kind: byte, stateKey: Text, deviceId: u64, nodeId: u64, present: bool, benefit: D)

  /** A hard constraint or soft preference on one field. */
  datatype Constraint<D> = Constraint(
    cls: byte, kind: byte, field: Text, value: Value<D>, requirementText: Text, classification: byte,
    provenance: Provenance)

  /** One cost of a candidate and the policy weight it carries. */
  datatype CostComponent<D> = CostComponent(
    kind: byte, title: Text, cost: D, policyWeight: D, classification: byte, provenance: Provenance,
    detail: Text)

  datatype ScoreComponent<D> = ScoreComponent(
    kind: byte, title: Text, value: D, classification: byte, provenance: Provenance)

  /** A placement that was available. */
  datatype Candidate<D> = Candidate(
    candidateId: u64, nodeId: u64, deviceId: u64, generation: u64, architecture: Text, capabilities: seq<Text>,
    health: byte, memory: MemoryDescriptor<D>, queue: QueueDescriptor, locality: seq<LocalityDescriptor<D>>,
    costs: seq<CostComponent<D>>, totalCost: D, rejectionReasonText: Option<Text>,
    rejectionReason: Option<byte>)

  /** The candidates of a decision, observed or reconstructed. */
  datatype CandidateSet<D> = CandidateSet(
    candidates: seq<Candidate<D>>, complete: bool, reconstructed: bool, classification: byte,
    sourceChain: seq<Provenance>, missingFields: seq<Text>)

  /** What became of a decision. */
  datatype Outcome = Outcome(
    decisionId: u64, attemptId: u64, disposition: byte, startDelayNs: i64, durationNs: i64,
    predictedDurationNs: i64, memoryUsedBytes: u64, error: Text, classification: byte, provenance: Provenance)

  /** An immutable evidence record. */
  datatype Observation<D> = Observation(
    observationId: u64, observationGeneration: u64, revision: i64, sourceId: u64, sourceGeneration: u64,
    sourceType: byte, timestamp: Timestamp, workerBoot: u64, coordinatorEpoch: u64, workloadId: u64,
    requestId: u64, tenantId: u64, namespaceId: u64, nodeId: u64, deviceId: u64, decisionId: u64,
    attemptId: u64, epoch: u64, lifecycle: byte, fields: seq<Measurement<D>>, reliability: byte,
    synthetic: bool)

  /** A placement decision with everything it was based on. */
  datatype Decision<D> = Decision(
    decisionId: u64, attemptId: u64, placementGeneration: u64, observationGeneration: u64, epoch: u64,
    policyGeneration: u64, workloadId: u64, requestId: u64, tenantId: u64, namespaceId: u64, nodeId: u64,
    deviceId: u64, candidateSet: CandidateSet<D>, selectedCandidate: u64, rejectedCandidates: seq<u64>,
    hardConstraints: seq<Constraint<D>>, softPreferences: seq<Constraint<D>>,
    scoreComponents: seq<ScoreComponent<D>>, costComponents: seq<CostComponent<D>>, tieBreak: byte,
    tieBreakReason: Text, selectedReason: Text, rejectionReasons: ReasonMap, confidence: Confidence<D>,
    classification: byte, determinism: byte, provenance: Provenance, outcome: Option<Outcome>, lifecycle: byte)
}
