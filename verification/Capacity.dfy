/** What the body of a record can hold the reader can take: every string in it is within the reader's
    cap and every vector's count within 32 bits, since the body itself is no longer than that cap. */
module Capacity {
  import opened Base
  import opened Bytes
  import opened Model
  import opened Serialize
  import opened Records
  import opened RecordLog

  /** Writing grew the buffer, and what was written fits the reader unless the buffer has outgrown
      the longest string the reader takes. */
  predicate Sized(b: seq<byte>, after: seq<byte>, fits: bool) {
    |b| < |after| && (fits || |after| > MAX_STRING)
  }

  lemma U8Sized(b: seq<byte>, v: byte)
    ensures Sized(b, PutU8(b, v), true)
  {
  }

  lemma U32Sized(b: seq<byte>, v: u32)
    ensures Sized(b, PutU32(b, v), true)
  {
  }

  lemma U64Sized(b: seq<byte>, v: u64)
    ensures Sized(b, PutU64(b, v), true)
  {
  }

  lemma I64Sized(b: seq<byte>, v: i64)
    ensures Sized(b, PutI64(b, v), true)
  {
  }

  lemma BoolSized(b: seq<byte>, v: bool)
    ensures Sized(b, PutBool(b, v), true)
  {
  }

  lemma StrSized(b: seq<byte>, s: Text)
    ensures Sized(b, PutStr(b, s), FitsStr(s))
  {
    hide LE;
  }

  lemma ValueSized(b: seq<byte>, v: Value<Pattern>)
    ensures Sized(b, PutValue(b, v), FitsValue(v))
  {
    hide LE, PutStr, FitsStr;
    if v.Str? {
      StrSized(PutU8(b, 5), v.s);
    }
  }

  // ----- vectors and options

  /** Every element takes at least a byte, so a vector's count is bounded by the bytes it takes. */
  lemma {:induction false} ManySized<T(!new)>(b: seq<byte>, v: seq<T>, put: (seq<byte>, T) -> seq<byte>,
                                              fits: T -> bool)
    requires forall c, x :: x in v ==> Sized(c, put(c, x), fits(x))
    ensures |b| + |v| <= |PutMany(b, v, put)|
    ensures AllFit(v, fits) || |PutMany(b, v, put)| > MAX_STRING
    decreases |v|
  {
    hide AllFit;
    if v == [] {
      NothingFits(fits);
    } else {
      var x, rest := v[0], v[1..];
      assert v == [x] + rest && x in v;
      assert Sized(b, put(b, x), fits(x));
      ManySized(put(b, x), rest, put, fits);
      AllFitCons(x, rest, fits);
    }
  }

  lemma NothingFits<T>(fits: T -> bool)
    ensures AllFit([], fits)
  {
  }

  lemma VecSized<T(!new)>(b: seq<byte>, v: seq<T>, put: (seq<byte>, T) -> seq<byte>, fits: T -> bool)
    requires forall c, x :: x in v ==> Sized(c, put(c, x), fits(x))
    ensures Sized(b, PutVec(b, v, put), FitsVec(v, fits))
  {
    hide PutMany, AllFit, LE;
    ManySized(PutU32(b, |v| % TWO32), v, put, fits);
  }

  lemma StrsSized(b: seq<byte>, v: seq<Text>)
    ensures Sized(b, PutVec(b, v, PutStr), FitsVec(v, FitsStr))
  {
    forall c, x: Text | x in v
      ensures Sized(c, PutStr(c, x), FitsStr(x))
    {
      StrSized(c, x);
    }
    VecSized(b, v, PutStr, FitsStr);
  }

  lemma U64sSized(b: seq<byte>, v: seq<u64>)
    ensures Sized(b, PutVec(b, v, PutU64), FitsVec(v, FitsAny))
  {
    forall c, x: u64 | x in v
      ensures Sized(c, PutU64(c, x), FitsAny(x))
    {
      U64Sized(c, x);
    }
    VecSized(b, v, PutU64, FitsAny);
  }

  lemma ReasonsSized(b: seq<byte>, m: ReasonMap)
    ensures Sized(b, PutVec(b, m, PutReason), FitsReasonMap(m))
  {
    hide AllFit;
    forall c, x: Reason | x in m
      ensures Sized(c, PutReason(c, x), FitsReason(x))
    {
      U64Sized(c, x.candidateId);
      StrSized(PutU64(c, x.candidateId), x.text);
    }
    VecSized<Reason>(b, m, PutReason, FitsReason);
  }

  lemma OptionStrSized(b: seq<byte>, o: Option<Text>)
    ensures Sized(b, PutOption(b, o, PutStr), FitsOption(o, FitsStr))
  {
    hide PutStr, FitsStr;
    if o.Some? {
      StrSized(PutBool(b, true), o.value);
    }
  }

  lemma OptionU8Sized(b: seq<byte>, o: Option<byte>)
    ensures Sized(b, PutOption(b, o, PutU8), true)
  {
  }

  // ----- records

  lemma ProvenanceSized(b: seq<byte>, x: Provenance)
    ensures Sized(b, PutProvenance(b, x), FitsProvenance(x))
  {
    hide FitsStr, PutI64, PutStr, PutU64, PutU8;
    var b1 := PutU64(b, x.sourceId);
    var b2 := PutU64(b1, x.sourceGeneration);
    var b3 := PutU8(b2, x.sourceType);
    var b4 := PutU8(b3, x.collection);
    var b5 := PutU8(b4, x.reliability);
    var b6 := PutU8(b5, x.classification);
    var b7 := PutI64(b6, x.timestamp.wall);
    var b8 := PutU64(b7, x.timestamp.mono);
    var b9 := PutI64(b8, x.timestamp.uncertaintyNs);
    var b10 := PutU64(b9, x.workerBoot);
    var b11 := PutU64(b10, x.coordinatorEpoch);
    var b12 := PutStr(b11, x.collectionError);
    var b13 := PutStr(b12, x.normalizedField);
    U64Sized(b, x.sourceId);
    U64Sized(b1, x.sourceGeneration);
    U8Sized(b2, x.sourceType);
    U8Sized(b3, x.collection);
    U8Sized(b4, x.reliability);
    U8Sized(b5, x.classification);
    I64Sized(b6, x.timestamp.wall);
    U64Sized(b7, x.timestamp.mono);
    I64Sized(b8, x.timestamp.uncertaintyNs);
    U64Sized(b9, x.workerBoot);
    U64Sized(b10, x.coordinatorEpoch);
    StrSized(b11, x.collectionError);
    StrSized(b12, x.normalizedField);
    StrSized(b13, x.rawField);
  }

  lemma ProvenancesSized(b: seq<byte>, v: seq<Provenance>)
    ensures Sized(b, PutVec(b, v, PutProvenance), FitsVec(v, FitsProvenance))
  {
    forall c, x: Provenance | x in v
      ensures Sized(c, PutProvenance(c, x), FitsProvenance(x))
    {
      ProvenanceSized(c, x);
    }
    VecSized(b, v, PutProvenance, FitsProvenance);
  }

  lemma ConfidenceSized(b: seq<byte>, x: Confidence<Pattern>)
    ensures Sized(b, PutConfidence(b, x), FitsConfidence(x))
  {
    hide FitsStr, PutStr, PutU64, PutU8;
    var b1 := PutU8(b, x.cls);
    var b2 := PutU64(b1, x.numerator);
    var b3 := PutU64(b2, x.denominator);
    U8Sized(b, x.cls);
    U64Sized(b1, x.numerator);
    U64Sized(b2, x.denominator);
    StrSized(b3, x.derivation);
  }

  lemma MeasurementSized(b: seq<byte>, x: Measurement<Pattern>)
    ensures Sized(b, PutMeasurement(b, x), FitsMeasurement(x))
  {
    hide FitsProvenance, FitsStr, FitsValue, PutProvenance, PutStr, PutU8, PutValue;
    var b1 := PutStr(b, x.normalizedField);
    var b2 := PutStr(b1, x.rawField);
    var b3 := PutValue(b2, x.value);
    var b4 := PutU8(b3, x.classification);
    StrSized(b, x.normalizedField);
    StrSized(b1, x.rawField);
    ValueSized(b2, x.value);
    U8Sized(b3, x.classification);
    ProvenanceSized(b4, x.provenance);
  }

  lemma MeasurementsSized(b: seq<byte>, v: seq<Measurement<Pattern>>)
    ensures Sized(b, PutVec(b, v, PutMeasurement), FitsVec(v, FitsMeasurement))
  {
    forall c, x: Measurement<Pattern> | x in v
      ensures Sized(c, PutMeasurement(c, x), FitsMeasurement(x))
    {
      MeasurementSized(c, x);
    }
    VecSized(b, v, PutMeasurement, FitsMeasurement);
  }

  lemma SourceDescriptorSized(b: seq<byte>, x: SourceDescriptor)
    ensures Sized(b, PutSourceDescriptor(b, x), FitsSourceDescriptor(x))
  {
    hide FitsStr, PutBool, PutI64, PutStr, PutU64, PutU8;
    var b1 := PutU64(b, x.sourceId);
    var b2 := PutU64(b1, x.generation);
    var b3 := PutU8(b2, x.kind);
    var b4 := PutStr(b3, x.name);
    var b5 := PutU8(b4, x.reliability);
    var b6 := PutStr(b5, x.endpoint);
    var b7 := PutI64(b6, x.lastSeen.wall);
    var b8 := PutU64(b7, x.lastSeen.mono);
    U64Sized(b, x.sourceId);
    U64Sized(b1, x.generation);
    U8Sized(b2, x.kind);
    StrSized(b3, x.name);
    U8Sized(b4, x.reliability);
    StrSized(b5, x.endpoint);
    I64Sized(b6, x.lastSeen.wall);
    U64Sized(b7, x.lastSeen.mono);
    BoolSized(b8, x.synthetic);
  }

  lemma QueueDescriptorSized(b: seq<byte>, x: QueueDescriptor)
    ensures Sized(b, PutQueueDescriptor(b, x), FitsQueueDescriptor(x))
  {
    hide FitsStr, PutStr, PutU32, PutU64, PutU8;
    var b1 := PutStr(b, x.queueName);
    var b2 := PutU8(b1, x.state);
    var b3 := PutU32(b2, x.depth);
    var b4 := PutU64(b3, x.oldestAgeNs);
    var b5 := PutU64(b4, x.headWaitNs);
    var b6 := PutU64(b5, x.expectedWaitNs);
    StrSized(b, x.queueName);
    U8Sized(b1, x.state);
    U32Sized(b2, x.depth);
    U64Sized(b3, x.oldestAgeNs);
    U64Sized(b4, x.headWaitNs);
    U64Sized(b5, x.expectedWaitNs);
    U32Sized(b6, x.capacity);
  }

  lemma MemoryDescriptorSized(b: seq<byte>, x: MemoryDescriptor<Pattern>)
    ensures Sized(b, PutMemoryDescriptor(b, x), true)
  {
    hide PutU64, PutU8;
    var b1 := PutU64(b, x.totalBytes);
    var b2 := PutU64(b1, x.freeBytes);
    var b3 := PutU64(b2, x.usedBytes);
    var b4 := PutU8(b3, x.pressure);
    U64Sized(b, x.totalBytes);
    U64Sized(b1, x.freeBytes);
    U64Sized(b2, x.usedBytes);
    U8Sized(b3, x.pressure);
    U64Sized(b4, x.pressureRatio);
  }

  lemma LocalityDescriptorSized(b: seq<byte>, x: LocalityDescriptor<Pattern>)
    ensures Sized(b, PutLocalityDescriptor(b, x), FitsLocalityDescriptor(x))
  {
    hide FitsStr, PutBool, PutStr, PutU64, PutU8;
    var b1 := PutU8(b, x.kind);
    var b2 := PutStr(b1, x.stateKey);
    var b3 := PutU64(b2, x.deviceId);
    var b4 := PutU64(b3, x.nodeId);
    var b5 := PutBool(b4, x.present);
    U8Sized(b, x.kind);
    StrSized(b1, x.stateKey);
    U64Sized(b2, x.deviceId);
    U64Sized(b3, x.nodeId);
    BoolSized(b4, x.present);
    U64Sized(b5, x.benefit);
  }

  lemma LocalityDescriptorsSized(b: seq<byte>, v: seq<LocalityDescriptor<Pattern>>)
    ensures Sized(b, PutVec(b, v, PutLocalityDescriptor), FitsVec(v, FitsLocalityDescriptor))
  {
    forall c, x: LocalityDescriptor<Pattern> | x in v
      ensures Sized(c, PutLocalityDescriptor(c, x), FitsLocalityDescriptor(x))
    {
      LocalityDescriptorSized(c, x);
    }
    VecSized(b, v, PutLocalityDescriptor, FitsLocalityDescriptor);
  }

  lemma ConstraintSized(b: seq<byte>, x: Constraint<Pattern>)
    ensures Sized(b, PutConstraint(b, x), FitsConstraint(x))
  {
    hide FitsProvenance, FitsStr, FitsValue, PutProvenance, PutStr, PutU8, PutValue;
    var b1 := PutU8(b, x.cls);
    var b2 := PutU8(b1, x.kind);
    var b3 := PutStr(b2, x.field);
    var b4 := PutValue(b3, x.value);
    var b5 := PutStr(b4, x.requirementText);
    var b6 := PutU8(b5, x.classification);
    U8Sized(b, x.cls);
    U8Sized(b1, x.kind);
    StrSized(b2, x.field);
    ValueSized(b3, x.value);
    StrSized(b4, x.requirementText);
    U8Sized(b5, x.classification);
    ProvenanceSized(b6, x.provenance);
  }

  lemma ConstraintsSized(b: seq<byte>, v: seq<Constraint<Pattern>>)
    ensures Sized(b, PutVec(b, v, PutConstraint), FitsVec(v, FitsConstraint))
  {
    forall c, x: Constraint<Pattern> | x in v
      ensures Sized(c, PutConstraint(c, x), FitsConstraint(x))
    {
      ConstraintSized(c, x);
    }
    VecSized(b, v, PutConstraint, FitsConstraint);
  }

  lemma CostComponentSized(b: seq<byte>, x: CostComponent<Pattern>)
    ensures Sized(b, PutCostComponent(b, x), FitsCostComponent(x))
  {
    hide FitsProvenance, FitsStr, PutProvenance, PutStr, PutU64, PutU8;
    var b1 := PutU8(b, x.kind);
    var b2 := PutStr(b1, x.title);
    var b3 := PutU64(b2, x.cost);
    var b4 := PutU64(b3, x.policyWeight);
    var b5 := PutU8(b4, x.classification);
    var b6 := PutProvenance(b5, x.provenance);
    U8Sized(b, x.kind);
    StrSized(b1, x.title);
    U64Sized(b2, x.cost);
    U64Sized(b3, x.policyWeight);
    U8Sized(b4, x.classification);
    ProvenanceSized(b5, x.provenance);
    StrSized(b6, x.detail);
  }

  lemma CostComponentsSized(b: seq<byte>, v: seq<CostComponent<Pattern>>)
    ensures Sized(b, PutVec(b, v, PutCostComponent), FitsVec(v, FitsCostComponent))
  {
    forall c, x: CostComponent<Pattern> | x in v
      ensures Sized(c, PutCostComponent(c, x), FitsCostComponent(x))
    {
      CostComponentSized(c, x);
    }
    VecSized(b, v, PutCostComponent, FitsCostComponent);
  }

  lemma ScoreComponentSized(b: seq<byte>, x: ScoreComponent<Pattern>)
    ensures Sized(b, PutScoreComponent(b, x), FitsScoreComponent(x))
  {
    hide FitsProvenance, FitsStr, PutProvenance, PutStr, PutU64, PutU8;
    var b1 := PutU8(b, x.kind);
    var b2 := PutStr(b1, x.title);
    var b3 := PutU64(b2, x.value);
    var b4 := PutU8(b3, x.classification);
    U8Sized(b, x.kind);
    StrSized(b1, x.title);
    U64Sized(b2, x.value);
    U8Sized(b3, x.classification);
    ProvenanceSized(b4, x.provenance);
  }

  lemma ScoreComponentsSized(b: seq<byte>, v: seq<ScoreComponent<Pattern>>)
    ensures Sized(b, PutVec(b, v, PutScoreComponent), FitsVec(v, FitsScoreComponent))
  {
    forall c, x: ScoreComponent<Pattern> | x in v
      ensures Sized(c, PutScoreComponent(c, x), FitsScoreComponent(x))
    {
      ScoreComponentSized(c, x);
    }
    VecSized(b, v, PutScoreComponent, FitsScoreComponent);
  }

  lemma CandidateSized(b: seq<byte>, x: Candidate<Pattern>)
    ensures Sized(b, PutCandidate(b, x), FitsCandidate(x))
  {
    hide FitsOption, FitsQueueDescriptor, FitsStr, FitsVec, PutMemoryDescriptor, PutOption, PutQueueDescriptor,
      PutStr, PutU64, PutU8, PutVec;
    var b1 := PutU64(b, x.candidateId);
    var b2 := PutU64(b1, x.nodeId);
    var b3 := PutU64(b2, x.deviceId);
    var b4 := PutU64(b3, x.generation);
    var b5 := PutStr(b4, x.architecture);
    var b6 := PutVec(b5, x.capabilities, PutStr);
    var b7 := PutU8(b6, x.health);
    var b8 := PutMemoryDescriptor(b7, x.memory);
    var b9 := PutQueueDescriptor(b8, x.queue);
    var b10 := PutVec(b9, x.locality, PutLocalityDescriptor);
    var b11 := PutVec(b10, x.costs, PutCostComponent);
    var b12 := PutU64(b11, x.totalCost);
    var b13 := PutOption(b12, x.rejectionReasonText, PutStr);
    U64Sized(b, x.candidateId);
    U64Sized(b1, x.nodeId);
    U64Sized(b2, x.deviceId);
    U64Sized(b3, x.generation);
    StrSized(b4, x.architecture);
    StrsSized(b5, x.capabilities);
    U8Sized(b6, x.health);
    MemoryDescriptorSized(b7, x.memory);
    QueueDescriptorSized(b8, x.queue);
    LocalityDescriptorsSized(b9, x.locality);
    CostComponentsSized(b10, x.costs);
    U64Sized(b11, x.totalCost);
    OptionStrSized(b12, x.rejectionReasonText);
    OptionU8Sized(b13, x.rejectionReason);
  }

  lemma CandidatesSized(b: seq<byte>, v: seq<Candidate<Pattern>>)
    ensures Sized(b, PutVec(b, v, PutCandidate), FitsVec(v, FitsCandidate))
  {
    forall c, x: Candidate<Pattern> | x in v
      ensures Sized(c, PutCandidate(c, x), FitsCandidate(x))
    {
      CandidateSized(c, x);
    }
    VecSized(b, v, PutCandidate, FitsCandidate);
  }

  lemma CandidateSetSized(b: seq<byte>, x: CandidateSet<Pattern>)
    ensures Sized(b, PutCandidateSet(b, x), FitsCandidateSet(x))
  {
    hide FitsVec, PutBool, PutU8, PutVec;
    var b1 := PutVec(b, x.candidates, PutCandidate);
    var b2 := PutBool(b1, x.complete);
    var b3 := PutBool(b2, x.reconstructed);
    var b4 := PutU8(b3, x.classification);
    var b5 := PutVec(b4, x.sourceChain, PutProvenance);
    CandidatesSized(b, x.candidates);
    BoolSized(b1, x.complete);
    BoolSized(b2, x.reconstructed);
    U8Sized(b3, x.classification);
    ProvenancesSized(b4, x.sourceChain);
    StrsSized(b5, x.missingFields);
  }

  lemma OutcomeSized(b: seq<byte>, x: Outcome)
    ensures Sized(b, PutOutcome(b, x), FitsOutcome(x))
  {
    hide FitsProvenance, FitsStr, PutI64, PutProvenance, PutStr, PutU64, PutU8;
    var b1 := PutU64(b, x.decisionId);
    var b2 := PutU64(b1, x.attemptId);
    var b3 := PutU8(b2, x.disposition);
    var b4 := PutI64(b3, x.startDelayNs);
    var b5 := PutI64(b4, x.durationNs);
    var b6 := PutI64(b5, x.predictedDurationNs);
    var b7 := PutU64(b6, x.memoryUsedBytes);
    var b8 := PutStr(b7, x.error);
    var b9 := PutU8(b8, x.classification);
    U64Sized(b, x.decisionId);
    U64Sized(b1, x.attemptId);
    U8Sized(b2, x.disposition);
    I64Sized(b3, x.startDelayNs);
    I64Sized(b4, x.durationNs);
    I64Sized(b5, x.predictedDurationNs);
    U64Sized(b6, x.memoryUsedBytes);
    StrSized(b7, x.error);
    U8Sized(b8, x.classification);
    ProvenanceSized(b9, x.provenance);
  }

  lemma OptionOutcomeSized(b: seq<byte>, o: Option<Outcome>)
    ensures Sized(b, PutOption(b, o, PutOutcome), FitsOption(o, FitsOutcome))
  {
    hide PutOutcome, FitsOutcome;
    if o.Some? {
      OutcomeSized(PutBool(b, true), o.value);
    }
  }

  lemma ObservationSized(b: seq<byte>, x: Observation<Pattern>)
    ensures Sized(b, PutObservation(b, x), FitsObservation(x))
  {
    hide FitsVec, PutBool, PutI64, PutU64, PutU8, PutVec;
    var b1 := PutU64(b, x.observationId);
    var b2 := PutU64(b1, x.observationGeneration);
    var b3 := PutI64(b2, x.revision);
    var b4 := PutU64(b3, x.sourceId);
    var b5 := PutU64(b4, x.sourceGeneration);
    var b6 := PutU8(b5, x.sourceType);
    var b7 := PutI64(b6, x.timestamp.wall);
    var b8 := PutU64(b7, x.timestamp.mono);
    var b9 := PutI64(b8, x.timestamp.uncertaintyNs);
    var b10 := PutU64(b9, x.workerBoot);
    var b11 := PutU64(b10, x.coordinatorEpoch);
    var b12 := PutU64(b11, x.workloadId);
    var b13 := PutU64(b12, x.requestId);
    var b14 := PutU64(b13, x.tenantId);
    var b15 := PutU64(b14, x.namespaceId);
    var b16 := PutU64(b15, x.nodeId);
    var b17 := PutU64(b16, x.deviceId);
    var b18 := PutU64(b17, x.decisionId);
    var b19 := PutU64(b18, x.attemptId);
    var b20 := PutU64(b19, x.epoch);
    var b21 := PutU8(b20, x.lifecycle);
    var b22 := PutVec(b21, x.fields, PutMeasurement);
    var b23 := PutU8(b22, x.reliability);
    U64Sized(b, x.observationId);
    U64Sized(b1, x.observationGeneration);
    I64Sized(b2, x.revision);
    U64Sized(b3, x.sourceId);
    U64Sized(b4, x.sourceGeneration);
    U8Sized(b5, x.sourceType);
    I64Sized(b6, x.timestamp.wall);
    U64Sized(b7, x.timestamp.mono);
    I64Sized(b8, x.timestamp.uncertaintyNs);
    U64Sized(b9, x.workerBoot);
    U64Sized(b10, x.coordinatorEpoch);
    U64Sized(b11, x.workloadId);
    U64Sized(b12, x.requestId);
    U64Sized(b13, x.tenantId);
    U64Sized(b14, x.namespaceId);
    U64Sized(b15, x.nodeId);
    U64Sized(b16, x.deviceId);
    U64Sized(b17, x.decisionId);
    U64Sized(b18, x.attemptId);
    U64Sized(b19, x.epoch);
    U8Sized(b20, x.lifecycle);
    MeasurementsSized(b21, x.fields);
    U8Sized(b22, x.reliability);
    BoolSized(b23, x.synthetic);
  }

  lemma DecisionHeadSized(b: seq<byte>, x: DecisionHead<Pattern>)
    ensures Sized(b, PutDecisionHead(b, x), FitsDecisionHead(x))
  {
    hide FitsCandidateSet, FitsVec, PutCandidateSet, PutU64, PutVec;
    var b1 := PutU64(b, x.decisionId);
    var b2 := PutU64(b1, x.attemptId);
    var b3 := PutU64(b2, x.placementGeneration);
    var b4 := PutU64(b3, x.observationGeneration);
    var b5 := PutU64(b4, x.epoch);
    var b6 := PutU64(b5, x.policyGeneration);
    var b7 := PutU64(b6, x.workloadId);
    var b8 := PutU64(b7, x.requestId);
    var b9 := PutU64(b8, x.tenantId);
    var b10 := PutU64(b9, x.namespaceId);
    var b11 := PutU64(b10, x.nodeId);
    var b12 := PutU64(b11, x.deviceId);
    var b13 := PutCandidateSet(b12, x.candidateSet);
    var b14 := PutU64(b13, x.selectedCandidate);
    var b15 := PutVec(b14, x.rejectedCandidates, PutU64);
    var b16 := PutVec(b15, x.hardConstraints, PutConstraint);
    var b17 := PutVec(b16, x.softPreferences, PutConstraint);
    var b18 := PutVec(b17, x.scoreComponents, PutScoreComponent);
    U64Sized(b, x.decisionId);
    U64Sized(b1, x.attemptId);
    U64Sized(b2, x.placementGeneration);
    U64Sized(b3, x.observationGeneration);
    U64Sized(b4, x.epoch);
    U64Sized(b5, x.policyGeneration);
    U64Sized(b6, x.workloadId);
    U64Sized(b7, x.requestId);
    U64Sized(b8, x.tenantId);
    U64Sized(b9, x.namespaceId);
    U64Sized(b10, x.nodeId);
    U64Sized(b11, x.deviceId);
    CandidateSetSized(b12, x.candidateSet);
    U64Sized(b13, x.selectedCandidate);
    U64sSized(b14, x.rejectedCandidates);
    ConstraintsSized(b15, x.hardConstraints);
    ConstraintsSized(b16, x.softPreferences);
    ScoreComponentsSized(b17, x.scoreComponents);
    CostComponentsSized(b18, x.costComponents);
  }

  lemma DecisionTailSized(b: seq<byte>, x: DecisionTail<Pattern>)
    ensures Sized(b, PutDecisionTail(b, x), FitsDecisionTail(x))
  {
    hide FitsConfidence, FitsOption, FitsProvenance, FitsReasonMap, FitsStr, PutConfidence, PutOption,
      PutProvenance, PutStr, PutU8, PutVec;
    var b1 := PutU8(b, x.tieBreak);
    var b2 := PutStr(b1, x.tieBreakReason);
    var b3 := PutStr(b2, x.selectedReason);
    var b4 := PutVec(b3, x.rejectionReasons, PutReason);
    var b5 := PutConfidence(b4, x.confidence);
    var b6 := PutU8(b5, x.classification);
    var b7 := PutU8(b6, x.determinism);
    var b8 := PutProvenance(b7, x.provenance);
    var b9 := PutOption(b8, x.outcome, PutOutcome);
    U8Sized(b, x.tieBreak);
    StrSized(b1, x.tieBreakReason);
    StrSized(b2, x.selectedReason);
    ReasonsSized(b3, x.rejectionReasons);
    ConfidenceSized(b4, x.confidence);
    U8Sized(b5, x.classification);
    U8Sized(b6, x.determinism);
    ProvenanceSized(b7, x.provenance);
    OptionOutcomeSized(b8, x.outcome);
    U8Sized(b9, x.lifecycle);
  }

  lemma DecisionSized(b: seq<byte>, x: Decision<Pattern>)
    ensures Sized(b, PutDecision(b, x), FitsDecision(x))
  {
    hide PutDecisionHead, PutDecisionTail, FitsDecisionHead, FitsDecisionTail;
    DecisionHeadSized(b, HeadOf(x));
    DecisionTailSized(PutDecisionHead(b, HeadOf(x)), TailOf(x));
  }
}
