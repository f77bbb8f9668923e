/** The records of the data model: how each is written, what reading it back gives, and that the
    two agree. `Erase...` clears the fields the format does not carry; `Fits...` holds of the
    records that stay within the limits of the reader. */
module Records {
  import opened Base
  import opened Model
  import opened Sequences
  import opened Serialize

  function Same<T>(x: T): T {
    x
  }

  predicate FitsAny<T>(x: T) {
    true
  }

  lemma MapSame<T>(v: seq<T>)
    ensures MapSeq(Same, v) == v
  {
  }

  lemma StrElement(x: Text, data: seq<byte>)
    ensures ElementReads(x, PutStr, GetStr, Same, FitsStr, data)
  {
    forall b {:trigger PutStr(b, x)} | PutStr(b, x) <= data
      ensures b <= data && Reads(FitsStr(x), GetStr(data, |b|), Same(x), |PutStr(b, x)|)
    {
      StrReads(b, x, data);
    }
  }

  lemma StrsRead(b: seq<byte>, v: seq<Text>, data: seq<byte>)
    requires PutVec(b, v, PutStr) <= data
    ensures b <= data && Reads(FitsVec(v, FitsStr), GetVec(data, |b|, GetStr), v, |PutVec(b, v, PutStr)|)
  {
    forall x | x in v {
      StrElement(x, data);
    }
    VecReads(b, v, PutStr, GetStr, Same, FitsStr, data);
    MapSame(v);
  }

  lemma OptionalStrReads(b: seq<byte>, o: Option<Text>, data: seq<byte>)
    requires PutOption(b, o, PutStr) <= data
    ensures b <= data && Reads(FitsOption(o, FitsStr), GetOption(data, |b|, GetStr), o, |PutOption(b, o, PutStr)|)
  {
    if o.Some? {
      StrElement(o.value, data);
    }
    OptionReads(b, o, PutStr, GetStr, Same, FitsStr, data);
  }

  lemma U64Element(x: u64, data: seq<byte>)
    ensures ElementReads(x, PutU64, GetU64, Same, FitsAny, data)
  {
    forall b {:trigger PutU64(b, x)} | PutU64(b, x) <= data
      ensures b <= data && Reads(FitsAny(x), GetU64(data, |b|), Same(x), |PutU64(b, x)|)
    {
      U64Reads(b, x, data);
    }
  }

  lemma U64sRead(b: seq<byte>, v: seq<u64>, data: seq<byte>)
    requires PutVec(b, v, PutU64) <= data
    ensures b <= data && Reads(FitsVec(v, FitsAny), GetVec(data, |b|, GetU64), v, |PutVec(b, v, PutU64)|)
  {
    forall x | x in v {
      U64Element(x, data);
    }
    VecReads(b, v, PutU64, GetU64, Same, FitsAny, data);
    MapSame(v);
  }

  lemma U8Element(x: byte, data: seq<byte>)
    ensures ElementReads(x, PutU8, GetU8, Same, FitsAny, data)
  {
    forall b {:trigger PutU8(b, x)} | PutU8(b, x) <= data
      ensures b <= data && Reads(FitsAny(x), GetU8(data, |b|), Same(x), |PutU8(b, x)|)
    {
      U8Reads(b, x, data);
    }
  }

  lemma OptionalU8Reads(b: seq<byte>, o: Option<byte>, data: seq<byte>)
    requires PutOption(b, o, PutU8) <= data
    ensures b <= data && Reads(true, GetOption(data, |b|, GetU8), o, |PutOption(b, o, PutU8)|)
  {
    if o.Some? {
      U8Element(o.value, data);
    }
    OptionReads(b, o, PutU8, GetU8, Same, FitsAny, data);
  }

  // ----- Provenance

  /** `uncertaintyNs` is not written. */
  function PutProvenance(buf: seq<byte>, x: Provenance): seq<byte> {
    var buf := PutU64(buf, x.sourceId);
    var buf := PutU64(buf, x.sourceGeneration);
    var buf := PutU8(buf, x.sourceType);
    var buf := PutU8(buf, x.collection);
    var buf := PutU8(buf, x.reliability);
    var buf := PutU8(buf, x.classification);
    var buf := PutI64(buf, x.timestamp.wall);
    var buf := PutU64(buf, x.timestamp.mono);
    var buf := PutI64(buf, x.timestamp.uncertaintyNs);
    var buf := PutU64(buf, x.workerBoot);
    var buf := PutU64(buf, x.coordinatorEpoch);
    var buf := PutStr(buf, x.collectionError);
    var buf := PutStr(buf, x.normalizedField);
    PutStr(buf, x.rawField)
  }

  function GetProvenance(data: seq<byte>, pos: nat): Read<Provenance> {
    var (sourceId, pos) :- GetU64(data, pos);
    var (sourceGeneration, pos) :- GetU64(data, pos);
    var (sourceType, pos) :- GetU8(data, pos);
    var (collection, pos) :- GetU8(data, pos);
    var (reliability, pos) :- GetU8(data, pos);
    var (classification, pos) :- GetU8(data, pos);
    var (wall, pos) :- GetI64(data, pos);
    var (mono, pos) :- GetU64(data, pos);
    var (uncertainty, pos) :- GetI64(data, pos);
    var (workerBoot, pos) :- GetU64(data, pos);
    var (coordinatorEpoch, pos) :- GetU64(data, pos);
    var (collectionError, pos) :- GetStr(data, pos);
    var (normalizedField, pos) :- GetStr(data, pos);
    var (rawField, pos) :- GetStr(data, pos);
    Ok((Provenance(sourceId, sourceGeneration, sourceType, collection, reliability, classification,
            Timestamp(wall, mono, uncertainty), 0, workerBoot, coordinatorEpoch, collectionError, normalizedField,
            rawField), pos))
  }

  predicate FitsProvenance(x: Provenance) {
    && FitsStr(x.collectionError)
    && FitsStr(x.normalizedField)
    && FitsStr(x.rawField)
  }

  function EraseProvenance(x: Provenance): Provenance {
    x.(uncertaintyNs := 0)
  }

  lemma ProvenanceReads(b: seq<byte>, x: Provenance, data: seq<byte>)
    requires PutProvenance(b, x) <= data
    ensures b <= data && Reads(FitsProvenance(x), GetProvenance(data, |b|), EraseProvenance(x), |PutProvenance(b, x)|)
  {
    hide FitsStr, GetI64, GetStr, GetU64, GetU8, PutI64, PutStr, PutU64, PutU8;
    var b1 := PutU64(b, x.sourceId);
    var b2 := PutU64(b1, x.sourceGeneration);
    var b3 := PutU8(b2, x.sourceType);
    var b4 := PutU8(b3, x.collection);
    var b5 := PutU8(b4, x.reliability);
    var b6 := PutU8(b5, x.classification);
    var b7 := PutI64(b6, x.timestamp.wall);
    var b8 := PutU64(b7, x.timestamp.mono);
    var b9 := PutI64(b8, x.timestamp.uncertaintyNs);
    var b10 := PutU64(b9, x.workerBoot);
    var b11 := PutU64(b10, x.coordinatorEpoch);
    var b12 := PutStr(b11, x.collectionError);
    var b13 := PutStr(b12, x.normalizedField);
    StrReads(b13, x.rawField, data);
    StrReads(b12, x.normalizedField, data);
    StrReads(b11, x.collectionError, data);
    U64Reads(b10, x.coordinatorEpoch, data);
    U64Reads(b9, x.workerBoot, data);
    I64Reads(b8, x.timestamp.uncertaintyNs, data);
    U64Reads(b7, x.timestamp.mono, data);
    I64Reads(b6, x.timestamp.wall, data);
    U8Reads(b5, x.classification, data);
    U8Reads(b4, x.reliability, data);
    U8Reads(b3, x.collection, data);
    U8Reads(b2, x.sourceType, data);
    U64Reads(b1, x.sourceGeneration, data);
    U64Reads(b, x.sourceId, data);
  }

  lemma ProvenanceRewritten(b: seq<byte>, x: Provenance)
    ensures PutProvenance(b, EraseProvenance(x)) == PutProvenance(b, x)
  {
  }

  lemma ProvenanceElement(x: Provenance, data: seq<byte>)
    ensures ElementReads(x, PutProvenance, GetProvenance, EraseProvenance, FitsProvenance, data)
  {
    forall b {:trigger PutProvenance(b, x)} | PutProvenance(b, x) <= data
      ensures b <= data && Reads(FitsProvenance(x), GetProvenance(data, |b|), EraseProvenance(x), |PutProvenance(b, x)|)
    {
      ProvenanceReads(b, x, data);
    }
  }

  lemma ProvenancesRead(b: seq<byte>, v: seq<Provenance>, data: seq<byte>)
    requires PutVec(b, v, PutProvenance) <= data
    ensures b <= data && Reads(FitsVec(v, FitsProvenance), GetVec(data, |b|, GetProvenance),
            MapSeq(EraseProvenance, v), |PutVec(b, v, PutProvenance)|)
  {
    forall x | x in v {
      ProvenanceElement(x, data);
    }
    VecReads(b, v, PutProvenance, GetProvenance, EraseProvenance, FitsProvenance, data);
  }

  // ----- Confidence

  function PutConfidence(buf: seq<byte>, x: Confidence<Pattern>): seq<byte> {
    var buf := PutU8(buf, x.cls);
    var buf := PutU64(buf, x.numerator);
    var buf := PutU64(buf, x.denominator);
    PutStr(buf, x.derivation)
  }

  function GetConfidence(data: seq<byte>, pos: nat): Read<Confidence<Pattern>> {
    var (cls, pos) :- GetU8(data, pos);
    var (numerator, pos) :- GetU64(data, pos);
    var (denominator, pos) :- GetU64(data, pos);
    var (derivation, pos) :- GetStr(data, pos);
    Ok((Confidence(cls, numerator, denominator, derivation), pos))
  }

  predicate FitsConfidence(x: Confidence<Pattern>) {
    FitsStr(x.derivation)
  }

  lemma ConfidenceReads(b: seq<byte>, x: Confidence<Pattern>, data: seq<byte>)
    requires PutConfidence(b, x) <= data
    ensures b <= data && Reads(FitsConfidence(x), GetConfidence(data, |b|), x, |PutConfidence(b, x)|)
  {
    hide FitsStr, GetStr, GetU64, GetU8, PutStr, PutU64, PutU8;
    var b1 := PutU8(b, x.cls);
    var b2 := PutU64(b1, x.numerator);
    var b3 := PutU64(b2, x.denominator);
    StrReads(b3, x.derivation, data);
    U64Reads(b2, x.denominator, data);
    U64Reads(b1, x.numerator, data);
    U8Reads(b, x.cls, data);
  }

  // ----- Measurement

  function PutMeasurement(buf: seq<byte>, x: Measurement<Pattern>): seq<byte> {
    var buf := PutStr(buf, x.normalizedField);
    var buf := PutStr(buf, x.rawField);
    var buf := PutValue(buf, x.value);
    var buf := PutU8(buf, x.classification);
    PutProvenance(buf, x.provenance)
  }

  function GetMeasurement(data: seq<byte>, pos: nat): Read<Measurement<Pattern>> {
    var (normalizedField, pos) :- GetStr(data, pos);
    var (rawField, pos) :- GetStr(data, pos);
    var (value, pos) :- GetValue(data, pos);
    var (classification, pos) :- GetU8(data, pos);
    var (provenance, pos) :- GetProvenance(data, pos);
    Ok((Measurement(normalizedField, rawField, value, classification, provenance), pos))
  }

  predicate FitsMeasurement(x: Measurement<Pattern>) {
    && FitsStr(x.normalizedField)
    && FitsStr(x.rawField)
    && FitsValue(x.value)
    && FitsProvenance(x.provenance)
  }

  function EraseMeasurement(x: Measurement<Pattern>): Measurement<Pattern> {
    x.(provenance := EraseProvenance(x.provenance))
  }

  lemma MeasurementReads(b: seq<byte>, x: Measurement<Pattern>, data: seq<byte>)
    requires PutMeasurement(b, x) <= data
    ensures b <= data && Reads(FitsMeasurement(x), GetMeasurement(data, |b|), EraseMeasurement(x),
            |PutMeasurement(b, x)|)
  {
    hide EraseProvenance, FitsProvenance, FitsStr, FitsValue, GetProvenance, GetStr, GetU8, GetValue, PutProvenance,
      PutStr, PutU8, PutValue;
    var b1 := PutStr(b, x.normalizedField);
    var b2 := PutStr(b1, x.rawField);
    var b3 := PutValue(b2, x.value);
    var b4 := PutU8(b3, x.classification);
    ProvenanceReads(b4, x.provenance, data);
    U8Reads(b3, x.classification, data);
    ValueReads(b2, x.value, data);
    StrReads(b1, x.rawField, data);
    StrReads(b, x.normalizedField, data);
  }

  lemma MeasurementRewritten(b: seq<byte>, x: Measurement<Pattern>)
    ensures PutMeasurement(b, EraseMeasurement(x)) == PutMeasurement(b, x)
  {
    hide EraseProvenance, PutProvenance;
    var b1 := PutStr(b, x.normalizedField);
    var b2 := PutStr(b1, x.rawField);
    var b3 := PutValue(b2, x.value);
    var b4 := PutU8(b3, x.classification);
    ProvenanceRewritten(b4, x.provenance);
  }

  lemma MeasurementElement(x: Measurement<Pattern>, data: seq<byte>)
    ensures ElementReads(x, PutMeasurement, GetMeasurement, EraseMeasurement, FitsMeasurement, data)
  {
    forall b {:trigger PutMeasurement(b, x)} | PutMeasurement(b, x) <= data
      ensures b <= data && Reads(FitsMeasurement(x), GetMeasurement(data, |b|), EraseMeasurement(x),
              |PutMeasurement(b, x)|)
    {
      MeasurementReads(b, x, data);
    }
  }

  lemma MeasurementsRead(b: seq<byte>, v: seq<Measurement<Pattern>>, data: seq<byte>)
    requires PutVec(b, v, PutMeasurement) <= data
    ensures b <= data && Reads(FitsVec(v, FitsMeasurement), GetVec(data, |b|, GetMeasurement),
            MapSeq(EraseMeasurement, v), |PutVec(b, v, PutMeasurement)|)
  {
    forall x | x in v {
      MeasurementElement(x, data);
    }
    VecReads(b, v, PutMeasurement, GetMeasurement, EraseMeasurement, FitsMeasurement, data);
  }

  // ----- SourceDescriptor

  /** The clock uncertainty of `lastSeen` is not written. */
  function PutSourceDescriptor(buf: seq<byte>, x: SourceDescriptor): seq<byte> {
    var buf := PutU64(buf, x.sourceId);
    var buf := PutU64(buf, x.generation);
    var buf := PutU8(buf, x.kind);
    var buf := PutStr(buf, x.name);
    var buf := PutU8(buf, x.reliability);
    var buf := PutStr(buf, x.endpoint);
    var buf := PutI64(buf, x.lastSeen.wall);
    var buf := PutU64(buf, x.lastSeen.mono);
    PutBool(buf, x.synthetic)
  }

  function GetSourceDescriptor(data: seq<byte>, pos: nat): Read<SourceDescriptor> {
    var (sourceId, pos) :- GetU64(data, pos);
    var (generation, pos) :- GetU64(data, pos);
    var (kind, pos) :- GetU8(data, pos);
    var (name, pos) :- GetStr(data, pos);
    var (reliability, pos) :- GetU8(data, pos);
    var (endpoint, pos) :- GetStr(data, pos);
    var (wall, pos) :- GetI64(data, pos);
    var (mono, pos) :- GetU64(data, pos);
    var (synthetic, pos) :- GetBool(data, pos);
    Ok((SourceDescriptor(sourceId, generation, kind, name, reliability, endpoint, Timestamp(wall, mono, 0),
            synthetic), pos))
  }

  predicate FitsSourceDescriptor(x: SourceDescriptor) {
    && FitsStr(x.name)
    && FitsStr(x.endpoint)
  }

  function EraseSourceDescriptor(x: SourceDescriptor): SourceDescriptor {
    x.(lastSeen := x.lastSeen.(uncertaintyNs := 0))
  }

  lemma SourceDescriptorReads(b: seq<byte>, x: SourceDescriptor, data: seq<byte>)
    requires PutSourceDescriptor(b, x) <= data
    ensures b <= data && Reads(FitsSourceDescriptor(x), GetSourceDescriptor(data, |b|),
            EraseSourceDescriptor(x), |PutSourceDescriptor(b, x)|)
  {
    hide FitsStr, GetBool, GetI64, GetStr, GetU64, GetU8, PutBool, PutI64, PutStr, PutU64, PutU8;
    var b1 := PutU64(b, x.sourceId);
    var b2 := PutU64(b1, x.generation);
    var b3 := PutU8(b2, x.kind);
    var b4 := PutStr(b3, x.name);
    var b5 := PutU8(b4, x.reliability);
    var b6 := PutStr(b5, x.endpoint);
    var b7 := PutI64(b6, x.lastSeen.wall);
    var b8 := PutU64(b7, x.lastSeen.mono);
    BoolReads(b8, x.synthetic, data);
    U64Reads(b7, x.lastSeen.mono, data);
    I64Reads(b6, x.lastSeen.wall, data);
    StrReads(b5, x.endpoint, data);
    U8Reads(b4, x.reliability, data);
    StrReads(b3, x.name, data);
    U8Reads(b2, x.kind, data);
    U64Reads(b1, x.generation, data);
    U64Reads(b, x.sourceId, data);
  }

  lemma SourceDescriptorRewritten(b: seq<byte>, x: SourceDescriptor)
    ensures PutSourceDescriptor(b, EraseSourceDescriptor(x)) == PutSourceDescriptor(b, x)
  {
  }

  // ----- QueueDescriptor

  function PutQueueDescriptor(buf: seq<byte>, x: QueueDescriptor): seq<byte> {
    var buf := PutStr(buf, x.queueName);
    var buf := PutU8(buf, x.state);
    var buf := PutU32(buf, x.depth);
    var buf := PutU64(buf, x.oldestAgeNs);
    var buf := PutU64(buf, x.headWaitNs);
    var buf := PutU64(buf, x.expectedWaitNs);
    PutU32(buf, x.capacity)
  }

  function GetQueueDescriptor(data: seq<byte>, pos: nat): Read<QueueDescriptor> {
    var (queueName, pos) :- GetStr(data, pos);
    var (state, pos) :- GetU8(data, pos);
    var (depth, pos) :- GetU32(data, pos);
    var (oldestAgeNs, pos) :- GetU64(data, pos);
    var (headWaitNs, pos) :- GetU64(data, pos);
    var (expectedWaitNs, pos) :- GetU64(data, pos);
    var (capacity, pos) :- GetU32(data, pos);
    Ok((QueueDescriptor(queueName, state, depth, oldestAgeNs, headWaitNs, expectedWaitNs, capacity), pos))
  }

  predicate FitsQueueDescriptor(x: QueueDescriptor) {
    FitsStr(x.queueName)
  }

  lemma QueueDescriptorReads(b: seq<byte>, x: QueueDescriptor, data: seq<byte>)
    requires PutQueueDescriptor(b, x) <= data
    ensures b <= data && Reads(FitsQueueDescriptor(x), GetQueueDescriptor(data, |b|), x, |PutQueueDescriptor(b, x)|)
  {
    hide FitsStr, GetStr, GetU32, GetU64, GetU8, PutStr, PutU32, PutU64, PutU8;
    var b1 := PutStr(b, x.queueName);
    var b2 := PutU8(b1, x.state);
    var b3 := PutU32(b2, x.depth);
    var b4 := PutU64(b3, x.oldestAgeNs);
    var b5 := PutU64(b4, x.headWaitNs);
    var b6 := PutU64(b5, x.expectedWaitNs);
    U32Reads(b6, x.capacity, data);
    U64Reads(b5, x.expectedWaitNs, data);
    U64Reads(b4, x.headWaitNs, data);
    U64Reads(b3, x.oldestAgeNs, data);
    U32Reads(b2, x.depth, data);
    U8Reads(b1, x.state, data);
    StrReads(b, x.queueName, data);
  }

  // ----- MemoryDescriptor

  function PutMemoryDescriptor(buf: seq<byte>, x: MemoryDescriptor<Pattern>): seq<byte> {
    var buf := PutU64(buf, x.totalBytes);
    var buf := PutU64(buf, x.freeBytes);
    var buf := PutU64(buf, x.usedBytes);
    var buf := PutU8(buf, x.pressure);
    PutU64(buf, x.pressureRatio)
  }

  function GetMemoryDescriptor(data: seq<byte>, pos: nat): Read<MemoryDescriptor<Pattern>> {
    var (totalBytes, pos) :- GetU64(data, pos);
    var (freeBytes, pos) :- GetU64(data, pos);
    var (usedBytes, pos) :- GetU64(data, pos);
    var (pressure, pos) :- GetU8(data, pos);
    var (pressureRatio, pos) :- GetU64(data, pos);
    Ok((MemoryDescriptor(totalBytes, freeBytes, usedBytes, pressure, pressureRatio), pos))
  }

  lemma MemoryDescriptorReads(b: seq<byte>, x: MemoryDescriptor<Pattern>, data: seq<byte>)
    requires PutMemoryDescriptor(b, x) <= data
    ensures b <= data && Reads(true, GetMemoryDescriptor(data, |b|), x, |PutMemoryDescriptor(b, x)|)
  {
    hide GetU64, GetU8, PutU64, PutU8;
    var b1 := PutU64(b, x.totalBytes);
    var b2 := PutU64(b1, x.freeBytes);
    var b3 := PutU64(b2, x.usedBytes);
    var b4 := PutU8(b3, x.pressure);
    U64Reads(b4, x.pressureRatio, data);
    U8Reads(b3, x.pressure, data);
    U64Reads(b2, x.usedBytes, data);
    U64Reads(b1, x.freeBytes, data);
    U64Reads(b, x.totalBytes, data);
  }

  // ----- LocalityDescriptor

  function PutLocalityDescriptor(buf: seq<byte>, x: LocalityDescriptor<Pattern>): seq<byte> {
    var buf := PutU8(buf, x.kind);
    var buf := PutStr(buf, x.stateKey);
    var buf := PutU64(buf, x.deviceId);
    var buf := PutU64(buf, x.nodeId);
    var buf := PutBool(buf, x.present);
    PutU64(buf, x.benefit)
  }

  function GetLocalityDescriptor(data: seq<byte>, pos: nat): Read<LocalityDescriptor<Pattern>> {
    var (kind, pos) :- GetU8(data, pos);
    var (stateKey, pos) :- GetStr(data, pos);
    var (deviceId, pos) :- GetU64(data, pos);
    var (nodeId, pos) :- GetU64(data, pos);
    var (present, pos) :- GetBool(data, pos);
    var (benefit, pos) :- GetU64(data, pos);
    Ok((LocalityDescriptor(kind, stateKey, deviceId, nodeId, present, benefit), pos))
  }

  predicate FitsLocalityDescriptor(x: LocalityDescriptor<Pattern>) {
    FitsStr(x.stateKey)
  }

  lemma LocalityDescriptorReads(b: seq<byte>, x: LocalityDescriptor<Pattern>, data: seq<byte>)
    requires PutLocalityDescriptor(b, x) <= data
    ensures b <= data && Reads(FitsLocalityDescriptor(x), GetLocalityDescriptor(data, |b|), x,
            |PutLocalityDescriptor(b, x)|)
  {
    hide FitsStr, GetBool, GetStr, GetU64, GetU8, PutBool, PutStr, PutU64, PutU8;
    var b1 := PutU8(b, x.kind);
    var b2 := PutStr(b1, x.stateKey);
    var b3 := PutU64(b2, x.deviceId);
    var b4 := PutU64(b3, x.nodeId);
    var b5 := PutBool(b4, x.present);
    U64Reads(b5, x.benefit, data);
    BoolReads(b4, x.present, data);
    U64Reads(b3, x.nodeId, data);
    U64Reads(b2, x.deviceId, data);
    StrReads(b1, x.stateKey, data);
    U8Reads(b, x.kind, data);
  }

  lemma LocalityDescriptorElement(x: LocalityDescriptor<Pattern>, data: seq<byte>)
    ensures ElementReads(x, PutLocalityDescriptor, GetLocalityDescriptor, Same, FitsLocalityDescriptor, data)
  {
    forall b {:trigger PutLocalityDescriptor(b, x)} | PutLocalityDescriptor(b, x) <= data
      ensures b <= data && Reads(FitsLocalityDescriptor(x), GetLocalityDescriptor(data, |b|), Same(x),
              |PutLocalityDescriptor(b, x)|)
    {
      LocalityDescriptorReads(b, x, data);
    }
  }

  lemma LocalityDescriptorsRead(b: seq<byte>, v: seq<LocalityDescriptor<Pattern>>, data: seq<byte>)
    requires PutVec(b, v, PutLocalityDescriptor) <= data
    ensures b <= data && Reads(FitsVec(v, FitsLocalityDescriptor), GetVec(data, |b|, GetLocalityDescriptor),
            v, |PutVec(b, v, PutLocalityDescriptor)|)
  {
    forall x | x in v {
      LocalityDescriptorElement(x, data);
    }
    VecReads(b, v, PutLocalityDescriptor, GetLocalityDescriptor, Same, FitsLocalityDescriptor, data);
    MapSame(v);
  }

  // ----- Constraint

  function PutConstraint(buf: seq<byte>, x: Constraint<Pattern>): seq<byte> {
    var buf := PutU8(buf, x.cls);
    var buf := PutU8(buf, x.kind);
    var buf := PutStr(buf, x.field);
    var buf := PutValue(buf, x.value);
    var buf := PutStr(buf, x.requirementText);
    var buf := PutU8(buf, x.classification);
    PutProvenance(buf, x.provenance)
  }

  function GetConstraint(data: seq<byte>, pos: nat): Read<Constraint<Pattern>> {
    var (cls, pos) :- GetU8(data, pos);
    var (kind, pos) :- GetU8(data, pos);
    var (field, pos) :- GetStr(data, pos);
    var (value, pos) :- GetValue(data, pos);
    var (requirementText, pos) :- GetStr(data, pos);
    var (classification, pos) :- GetU8(data, pos);
    var (provenance, pos) :- GetProvenance(data, pos);
    Ok((Constraint(cls, kind, field, value, requirementText, classification, provenance), pos))
  }

  predicate FitsConstraint(x: Constraint<Pattern>) {
    && FitsStr(x.field)
    && FitsValue(x.value)
    && FitsStr(x.requirementText)
    && FitsProvenance(x.provenance)
  }

  function EraseConstraint(x: Constraint<Pattern>): Constraint<Pattern> {
    x.(provenance := EraseProvenance(x.provenance))
  }

  lemma ConstraintReads(b: seq<byte>, x: Constraint<Pattern>, data: seq<byte>)
    requires PutConstraint(b, x) <= data
    ensures b <= data && Reads(FitsConstraint(x), GetConstraint(data, |b|), EraseConstraint(x), |PutConstraint(b, x)|)
  {
    hide EraseProvenance, FitsProvenance, FitsStr, FitsValue, GetProvenance, GetStr, GetU8, GetValue, PutProvenance,
      PutStr, PutU8, PutValue;
    var b1 := PutU8(b, x.cls);
    var b2 := PutU8(b1, x.kind);
    var b3 := PutStr(b2, x.field);
    var b4 := PutValue(b3, x.value);
    var b5 := PutStr(b4, x.requirementText);
    var b6 := PutU8(b5, x.classification);
    ProvenanceReads(b6, x.provenance, data);
    U8Reads(b5, x.classification, data);
    StrReads(b4, x.requirementText, data);
    ValueReads(b3, x.value, data);
    StrReads(b2, x.field, data);
    U8Reads(b1, x.kind, data);
    U8Reads(b, x.cls, data);
  }

  lemma ConstraintRewritten(b: seq<byte>, x: Constraint<Pattern>)
    ensures PutConstraint(b, EraseConstraint(x)) == PutConstraint(b, x)
  {
    hide EraseProvenance, PutProvenance;
    var b1 := PutU8(b, x.cls);
    var b2 := PutU8(b1, x.kind);
    var b3 := PutStr(b2, x.field);
    var b4 := PutValue(b3, x.value);
    var b5 := PutStr(b4, x.requirementText);
    var b6 := PutU8(b5, x.classification);
    ProvenanceRewritten(b6, x.provenance);
  }

  lemma ConstraintElement(x: Constraint<Pattern>, data: seq<byte>)
    ensures ElementReads(x, PutConstraint, GetConstraint, EraseConstraint, FitsConstraint, data)
  {
    forall b {:trigger PutConstraint(b, x)} | PutConstraint(b, x) <= data
      ensures b <= data && Reads(FitsConstraint(x), GetConstraint(data, |b|), EraseConstraint(x), |PutConstraint(b, x)|)
    {
      ConstraintReads(b, x, data);
    }
  }

  lemma ConstraintsRead(b: seq<byte>, v: seq<Constraint<Pattern>>, data: seq<byte>)
    requires PutVec(b, v, PutConstraint) <= data
    ensures b <= data && Reads(FitsVec(v, FitsConstraint), GetVec(data, |b|, GetConstraint),
            MapSeq(EraseConstraint, v), |PutVec(b, v, PutConstraint)|)
  {
    forall x | x in v {
      ConstraintElement(x, data);
    }
    VecReads(b, v, PutConstraint, GetConstraint, EraseConstraint, FitsConstraint, data);
  }

  // ----- CostComponent

  function PutCostComponent(buf: seq<byte>, x: CostComponent<Pattern>): seq<byte> {
    var buf := PutU8(buf, x.kind);
    var buf := PutStr(buf, x.title);
    var buf := PutU64(buf, x.cost);
    var buf := PutU64(buf, x.policyWeight);
    var buf := PutU8(buf, x.classification);
    var buf := PutProvenance(buf, x.provenance);
    PutStr(buf, x.detail)
  }

  function GetCostComponent(data: seq<byte>, pos: nat): Read<CostComponent<Pattern>> {
    var (kind, pos) :- GetU8(data, pos);
    var (title, pos) :- GetStr(data, pos);
    var (cost, pos) :- GetU64(data, pos);
    var (policyWeight, pos) :- GetU64(data, pos);
    var (classification, pos) :- GetU8(data, pos);
    var (provenance, pos) :- GetProvenance(data, pos);
    var (detail, pos) :- GetStr(data, pos);
    Ok((CostComponent(kind, title, cost, policyWeight, classification, provenance, detail), pos))
  }

  predicate FitsCostComponent(x: CostComponent<Pattern>) {
    && FitsStr(x.title)
    && FitsProvenance(x.provenance)
    && FitsStr(x.detail)
  }

  function EraseCostComponent(x: CostComponent<Pattern>): CostComponent<Pattern> {
    x.(provenance := EraseProvenance(x.provenance))
  }

  lemma CostComponentReads(b: seq<byte>, x: CostComponent<Pattern>, data: seq<byte>)
    requires PutCostComponent(b, x) <= data
    ensures b <= data && Reads(FitsCostComponent(x), GetCostComponent(data, |b|), EraseCostComponent(x),
            |PutCostComponent(b, x)|)
  {
    hide EraseProvenance, FitsProvenance, FitsStr, GetProvenance, GetStr, GetU64, GetU8, PutProvenance, PutStr,
      PutU64, PutU8;
    var b1 := PutU8(b, x.kind);
    var b2 := PutStr(b1, x.title);
    var b3 := PutU64(b2, x.cost);
    var b4 := PutU64(b3, x.policyWeight);
    var b5 := PutU8(b4, x.classification);
    var b6 := PutProvenance(b5, x.provenance);
    StrReads(b6, x.detail, data);
    ProvenanceReads(b5, x.provenance, data);
    U8Reads(b4, x.classification, data);
    U64Reads(b3, x.policyWeight, data);
    U64Reads(b2, x.cost, data);
    StrReads(b1, x.title, data);
    U8Reads(b, x.kind, data);
  }

  lemma CostComponentRewritten(b: seq<byte>, x: CostComponent<Pattern>)
    ensures PutCostComponent(b, EraseCostComponent(x)) == PutCostComponent(b, x)
  {
    hide EraseProvenance, PutProvenance;
    var b1 := PutU8(b, x.kind);
    var b2 := PutStr(b1, x.title);
    var b3 := PutU64(b2, x.cost);
    var b4 := PutU64(b3, x.policyWeight);
    var b5 := PutU8(b4, x.classification);
    ProvenanceRewritten(b5, x.provenance);
  }

  lemma CostComponentElement(x: CostComponent<Pattern>, data: seq<byte>)
    ensures ElementReads(x, PutCostComponent, GetCostComponent, EraseCostComponent, FitsCostComponent, data)
  {
    forall b {:trigger PutCostComponent(b, x)} | PutCostComponent(b, x) <= data
      ensures b <= data && Reads(FitsCostComponent(x), GetCostComponent(data, |b|), EraseCostComponent(x),
              |PutCostComponent(b, x)|)
    {
      CostComponentReads(b, x, data);
    }
  }

  lemma CostComponentsRead(b: seq<byte>, v: seq<CostComponent<Pattern>>, data: seq<byte>)
    requires PutVec(b, v, PutCostComponent) <= data
    ensures b <= data && Reads(FitsVec(v, FitsCostComponent), GetVec(data, |b|, GetCostComponent),
            MapSeq(EraseCostComponent, v), |PutVec(b, v, PutCostComponent)|)
  {
    forall x | x in v {
      CostComponentElement(x, data);
    }
    VecReads(b, v, PutCostComponent, GetCostComponent, EraseCostComponent, FitsCostComponent, data);
  }

  // ----- ScoreComponent

  function PutScoreComponent(buf: seq<byte>, x: ScoreComponent<Pattern>): seq<byte> {
    var buf := PutU8(buf, x.kind);
    var buf := PutStr(buf, x.title);
    var buf := PutU64(buf, x.value);
    var buf := PutU8(buf, x.classification);
    PutProvenance(buf, x.provenance)
  }

  function GetScoreComponent(data: seq<byte>, pos: nat): Read<ScoreComponent<Pattern>> {
    var (kind, pos) :- GetU8(data, pos);
    var (title, pos) :- GetStr(data, pos);
    var (value, pos) :- GetU64(data, pos);
    var (classification, pos) :- GetU8(data, pos);
    var (provenance, pos) :- GetProvenance(data, pos);
    Ok((ScoreComponent(kind, title, value, classification, provenance), pos))
  }

  predicate FitsScoreComponent(x: ScoreComponent<Pattern>) {
    && FitsStr(x.title)
    && FitsProvenance(x.provenance)
  }

  function EraseScoreComponent(x: ScoreComponent<Pattern>): ScoreComponent<Pattern> {
    x.(provenance := EraseProvenance(x.provenance))
  }

  lemma ScoreComponentReads(b: seq<byte>, x: ScoreComponent<Pattern>, data: seq<byte>)
    requires PutScoreComponent(b, x) <= data
    ensures b <= data && Reads(FitsScoreComponent(x), GetScoreComponent(data, |b|), EraseScoreComponent(x),
            |PutScoreComponent(b, x)|)
  {
    hide EraseProvenance, FitsProvenance, FitsStr, GetProvenance, GetStr, GetU64, GetU8, PutProvenance, PutStr,
      PutU64, PutU8;
    var b1 := PutU8(b, x.kind);
    var b2 := PutStr(b1, x.title);
    var b3 := PutU64(b2, x.value);
    var b4 := PutU8(b3, x.classification);
    ProvenanceReads(b4, x.provenance, data);
    U8Reads(b3, x.classification, data);
    U64Reads(b2, x.value, data);
    StrReads(b1, x.title, data);
    U8Reads(b, x.kind, data);
  }

  lemma ScoreComponentRewritten(b: seq<byte>, x: ScoreComponent<Pattern>)
    ensures PutScoreComponent(b, EraseScoreComponent(x)) == PutScoreComponent(b, x)
  {
    hide EraseProvenance, PutProvenance;
    var b1 := PutU8(b, x.kind);
    var b2 := PutStr(b1, x.title);
    var b3 := PutU64(b2, x.value);
    var b4 := PutU8(b3, x.classification);
    ProvenanceRewritten(b4, x.provenance);
  }

  lemma ScoreComponentElement(x: ScoreComponent<Pattern>, data: seq<byte>)
    ensures ElementReads(x, PutScoreComponent, GetScoreComponent, EraseScoreComponent, FitsScoreComponent, data)
  {
    forall b {:trigger PutScoreComponent(b, x)} | PutScoreComponent(b, x) <= data
      ensures b <= data && Reads(FitsScoreComponent(x), GetScoreComponent(data, |b|), EraseScoreComponent(x),
              |PutScoreComponent(b, x)|)
    {
      ScoreComponentReads(b, x, data);
    }
  }

  lemma ScoreComponentsRead(b: seq<byte>, v: seq<ScoreComponent<Pattern>>, data: seq<byte>)
    requires PutVec(b, v, PutScoreComponent) <= data
    ensures b <= data && Reads(FitsVec(v, FitsScoreComponent), GetVec(data, |b|, GetScoreComponent),
            MapSeq(EraseScoreComponent, v), |PutVec(b, v, PutScoreComponent)|)
  {
    forall x | x in v {
      ScoreComponentElement(x, data);
    }
    VecReads(b, v, PutScoreComponent, GetScoreComponent, EraseScoreComponent, FitsScoreComponent, data);
  }

  // ----- Candidate

  function PutCandidate(buf: seq<byte>, x: Candidate<Pattern>): seq<byte> {
    var buf := PutU64(buf, x.candidateId);
    var buf := PutU64(buf, x.nodeId);
    var buf := PutU64(buf, x.deviceId);
    var buf := PutU64(buf, x.generation);
    var buf := PutStr(buf, x.architecture);
    var buf := PutVec(buf, x.capabilities, PutStr);
    var buf := PutU8(buf, x.health);
    var buf := PutMemoryDescriptor(buf, x.memory);
    var buf := PutQueueDescriptor(buf, x.queue);
    var buf := PutVec(buf, x.locality, PutLocalityDescriptor);
    var buf := PutVec(buf, x.costs, PutCostComponent);
    var buf := PutU64(buf, x.totalCost);
    var buf := PutOption(buf, x.rejectionReasonText, PutStr);
    PutOption(buf, x.rejectionReason, PutU8)
  }

  function GetCandidate(data: seq<byte>, pos: nat): Read<Candidate<Pattern>> {
    var (candidateId, pos) :- GetU64(data, pos);
    var (nodeId, pos) :- GetU64(data, pos);
    var (deviceId, pos) :- GetU64(data, pos);
    var (generation, pos) :- GetU64(data, pos);
    var (architecture, pos) :- GetStr(data, pos);
    var (capabilities, pos) :- GetVec(data, pos, GetStr);
    var (health, pos) :- GetU8(data, pos);
    var (memory, pos) :- GetMemoryDescriptor(data, pos);
    var (queue, pos) :- GetQueueDescriptor(data, pos);
    var (locality, pos) :- GetVec(data, pos, GetLocalityDescriptor);
    var (costs, pos) :- GetVec(data, pos, GetCostComponent);
    var (totalCost, pos) :- GetU64(data, pos);
    var (rejectionReasonText, pos) :- GetOption(data, pos, GetStr);
    var (rejectionReason, pos) :- GetOption(data, pos, GetU8);
    Ok((Candidate(candidateId, nodeId, deviceId, generation, architecture, capabilities, health, memory, queue,
            locality, costs, totalCost, rejectionReasonText, rejectionReason), pos))
  }

  predicate FitsCandidate(x: Candidate<Pattern>) {
    && FitsStr(x.architecture)
    && FitsVec(x.capabilities, FitsStr)
    && FitsQueueDescriptor(x.queue)
    && FitsVec(x.locality, FitsLocalityDescriptor)
    && FitsVec(x.costs, FitsCostComponent)
    && FitsOption(x.rejectionReasonText, FitsStr)
  }

  function EraseCandidate(x: Candidate<Pattern>): Candidate<Pattern> {
    x.(costs := MapSeq(EraseCostComponent, x.costs))
  }

  lemma CandidateReads(b: seq<byte>, x: Candidate<Pattern>, data: seq<byte>)
    requires PutCandidate(b, x) <= data
    ensures b <= data && Reads(FitsCandidate(x), GetCandidate(data, |b|), EraseCandidate(x), |PutCandidate(b, x)|)
  {
    hide FitsOption, FitsQueueDescriptor, FitsStr, FitsVec, GetMemoryDescriptor, GetOption, GetQueueDescriptor,
      GetStr, GetU64, GetU8, GetVec, PutMemoryDescriptor, PutOption, PutQueueDescriptor, PutStr, PutU64, PutU8,
      PutVec;
    var b1 := PutU64(b, x.candidateId);
    var b2 := PutU64(b1, x.nodeId);
    var b3 := PutU64(b2, x.deviceId);
    var b4 := PutU64(b3, x.generation);
    var b5 := PutStr(b4, x.architecture);
    var b6 := PutVec(b5, x.capabilities, PutStr);
    var b7 := PutU8(b6, x.health);
    var b8 := PutMemoryDescriptor(b7, x.memory);
    var b9 := PutQueueDescriptor(b8, x.queue);
    var b10 := PutVec(b9, x.locality, PutLocalityDescriptor);
    var b11 := PutVec(b10, x.costs, PutCostComponent);
    var b12 := PutU64(b11, x.totalCost);
    var b13 := PutOption(b12, x.rejectionReasonText, PutStr);
    OptionalU8Reads(b13, x.rejectionReason, data);
    OptionalStrReads(b12, x.rejectionReasonText, data);
    U64Reads(b11, x.totalCost, data);
    CostComponentsRead(b10, x.costs, data);
    LocalityDescriptorsRead(b9, x.locality, data);
    QueueDescriptorReads(b8, x.queue, data);
    MemoryDescriptorReads(b7, x.memory, data);
    U8Reads(b6, x.health, data);
    StrsRead(b5, x.capabilities, data);
    StrReads(b4, x.architecture, data);
    U64Reads(b3, x.generation, data);
    U64Reads(b2, x.deviceId, data);
    U64Reads(b1, x.nodeId, data);
    U64Reads(b, x.candidateId, data);
  }

  lemma CandidateRewritten(b: seq<byte>, x: Candidate<Pattern>)
    ensures PutCandidate(b, EraseCandidate(x)) == PutCandidate(b, x)
  {
    hide PutVec;
    var b1 := PutU64(b, x.candidateId);
    var b2 := PutU64(b1, x.nodeId);
    var b3 := PutU64(b2, x.deviceId);
    var b4 := PutU64(b3, x.generation);
    var b5 := PutStr(b4, x.architecture);
    var b6 := PutVec(b5, x.capabilities, PutStr);
    var b7 := PutU8(b6, x.health);
    var b8 := PutMemoryDescriptor(b7, x.memory);
    var b9 := PutQueueDescriptor(b8, x.queue);
    var b10 := PutVec(b9, x.locality, PutLocalityDescriptor);
    forall c, y | y in x.costs
      ensures PutCostComponent(c, EraseCostComponent(y)) == PutCostComponent(c, y)
    {
      CostComponentRewritten(c, y);
    }
    VecRewritten(b10, x.costs, PutCostComponent, EraseCostComponent);
  }

  lemma CandidateElement(x: Candidate<Pattern>, data: seq<byte>)
    ensures ElementReads(x, PutCandidate, GetCandidate, EraseCandidate, FitsCandidate, data)
  {
    forall b {:trigger PutCandidate(b, x)} | PutCandidate(b, x) <= data
      ensures b <= data && Reads(FitsCandidate(x), GetCandidate(data, |b|), EraseCandidate(x), |PutCandidate(b, x)|)
    {
      CandidateReads(b, x, data);
    }
  }

  lemma CandidatesRead(b: seq<byte>, v: seq<Candidate<Pattern>>, data: seq<byte>)
    requires PutVec(b, v, PutCandidate) <= data
    ensures b <= data && Reads(FitsVec(v, FitsCandidate), GetVec(data, |b|, GetCandidate),
            MapSeq(EraseCandidate, v), |PutVec(b, v, PutCandidate)|)
  {
    forall x | x in v {
      CandidateElement(x, data);
    }
    VecReads(b, v, PutCandidate, GetCandidate, EraseCandidate, FitsCandidate, data);
  }

  // ----- CandidateSet

  function PutCandidateSet(buf: seq<byte>, x: CandidateSet<Pattern>): seq<byte> {
    var buf := PutVec(buf, x.candidates, PutCandidate);
    var buf := PutBool(buf, x.complete);
    var buf := PutBool(buf, x.reconstructed);
    var buf := PutU8(buf, x.classification);
    var buf := PutVec(buf, x.sourceChain, PutProvenance);
    PutVec(buf, x.missingFields, PutStr)
  }

  function GetCandidateSet(data: seq<byte>, pos: nat): Read<CandidateSet<Pattern>> {
    var (candidates, pos) :- GetVec(data, pos, GetCandidate);
    var (complete, pos) :- GetBool(data, pos);
    var (reconstructed, pos) :- GetBool(data, pos);
    var (classification, pos) :- GetU8(data, pos);
    var (sourceChain, pos) :- GetVec(data, pos, GetProvenance);
    var (missingFields, pos) :- GetVec(data, pos, GetStr);
    Ok((CandidateSet(candidates, complete, reconstructed, classification, sourceChain, missingFields), pos))
  }

  predicate FitsCandidateSet(x: CandidateSet<Pattern>) {
    && FitsVec(x.candidates, FitsCandidate)
    && FitsVec(x.sourceChain, FitsProvenance)
    && FitsVec(x.missingFields, FitsStr)
  }

  function EraseCandidateSet(x: CandidateSet<Pattern>): CandidateSet<Pattern> {
    x.(candidates := MapSeq(EraseCandidate, x.candidates), sourceChain := MapSeq(EraseProvenance, x.sourceChain))
  }

  lemma CandidateSetReads(b: seq<byte>, x: CandidateSet<Pattern>, data: seq<byte>)
    requires PutCandidateSet(b, x) <= data
    ensures b <= data && Reads(FitsCandidateSet(x), GetCandidateSet(data, |b|), EraseCandidateSet(x),
            |PutCandidateSet(b, x)|)
  {
    hide FitsVec, GetBool, GetU8, GetVec, PutBool, PutU8, PutVec;
    var b1 := PutVec(b, x.candidates, PutCandidate);
    var b2 := PutBool(b1, x.complete);
    var b3 := PutBool(b2, x.reconstructed);
    var b4 := PutU8(b3, x.classification);
    var b5 := PutVec(b4, x.sourceChain, PutProvenance);
    StrsRead(b5, x.missingFields, data);
    ProvenancesRead(b4, x.sourceChain, data);
    U8Reads(b3, x.classification, data);
    BoolReads(b2, x.reconstructed, data);
    BoolReads(b1, x.complete, data);
    CandidatesRead(b, x.candidates, data);
  }

  lemma CandidateSetRewritten(b: seq<byte>, x: CandidateSet<Pattern>)
    ensures PutCandidateSet(b, EraseCandidateSet(x)) == PutCandidateSet(b, x)
  {
    hide PutVec;
    forall c, y | y in x.candidates
      ensures PutCandidate(c, EraseCandidate(y)) == PutCandidate(c, y)
    {
      CandidateRewritten(c, y);
    }
    VecRewritten(b, x.candidates, PutCandidate, EraseCandidate);
    var b1 := PutVec(b, x.candidates, PutCandidate);
    var b2 := PutBool(b1, x.complete);
    var b3 := PutBool(b2, x.reconstructed);
    var b4 := PutU8(b3, x.classification);
    forall c, y | y in x.sourceChain
      ensures PutProvenance(c, EraseProvenance(y)) == PutProvenance(c, y)
    {
      ProvenanceRewritten(c, y);
    }
    VecRewritten(b4, x.sourceChain, PutProvenance, EraseProvenance);
  }

  // ----- Outcome

  function PutOutcome(buf: seq<byte>, x: Outcome): seq<byte> {
    var buf := PutU64(buf, x.decisionId);
    var buf := PutU64(buf, x.attemptId);
    var buf := PutU8(buf, x.disposition);
    var buf := PutI64(buf, x.startDelayNs);
    var buf := PutI64(buf, x.durationNs);
    var buf := PutI64(buf, x.predictedDurationNs);
    var buf := PutU64(buf, x.memoryUsedBytes);
    var buf := PutStr(buf, x.error);
    var buf := PutU8(buf, x.classification);
    PutProvenance(buf, x.provenance)
  }

  function GetOutcome(data: seq<byte>, pos: nat): Read<Outcome> {
    var (decisionId, pos) :- GetU64(data, pos);
    var (attemptId, pos) :- GetU64(data, pos);
    var (disposition, pos) :- GetU8(data, pos);
    var (startDelayNs, pos) :- GetI64(data, pos);
    var (durationNs, pos) :- GetI64(data, pos);
    var (predictedDurationNs, pos) :- GetI64(data, pos);
    var (memoryUsedBytes, pos) :- GetU64(data, pos);
    var (error, pos) :- GetStr(data, pos);
    var (classification, pos) :- GetU8(data, pos);
    var (provenance, pos) :- GetProvenance(data, pos);
    Ok((Outcome(decisionId, attemptId, disposition, startDelayNs, durationNs, predictedDurationNs, memoryUsedBytes,
            error, classification, provenance), pos))
  }

  predicate FitsOutcome(x: Outcome) {
    && FitsStr(x.error)
    && FitsProvenance(x.provenance)
  }

  function EraseOutcome(x: Outcome): Outcome {
    x.(provenance := EraseProvenance(x.provenance))
  }

  lemma OutcomeReads(b: seq<byte>, x: Outcome, data: seq<byte>)
    requires PutOutcome(b, x) <= data
    ensures b <= data && Reads(FitsOutcome(x), GetOutcome(data, |b|), EraseOutcome(x), |PutOutcome(b, x)|)
  {
    hide EraseProvenance, FitsProvenance, FitsStr, GetI64, GetProvenance, GetStr, GetU64, GetU8, PutI64,
      PutProvenance, PutStr, PutU64, PutU8;
    var b1 := PutU64(b, x.decisionId);
    var b2 := PutU64(b1, x.attemptId);
    var b3 := PutU8(b2, x.disposition);
    var b4 := PutI64(b3, x.startDelayNs);
    var b5 := PutI64(b4, x.durationNs);
    var b6 := PutI64(b5, x.predictedDurationNs);
    var b7 := PutU64(b6, x.memoryUsedBytes);
    var b8 := PutStr(b7, x.error);
    var b9 := PutU8(b8, x.classification);
    ProvenanceReads(b9, x.provenance, data);
    U8Reads(b8, x.classification, data);
    StrReads(b7, x.error, data);
    U64Reads(b6, x.memoryUsedBytes, data);
    I64Reads(b5, x.predictedDurationNs, data);
    I64Reads(b4, x.durationNs, data);
    I64Reads(b3, x.startDelayNs, data);
    U8Reads(b2, x.disposition, data);
    U64Reads(b1, x.attemptId, data);
    U64Reads(b, x.decisionId, data);
  }

  lemma OutcomeRewritten(b: seq<byte>, x: Outcome)
    ensures PutOutcome(b, EraseOutcome(x)) == PutOutcome(b, x)
  {
    hide EraseProvenance, PutProvenance;
    var b1 := PutU64(b, x.decisionId);
    var b2 := PutU64(b1, x.attemptId);
    var b3 := PutU8(b2, x.disposition);
    var b4 := PutI64(b3, x.startDelayNs);
    var b5 := PutI64(b4, x.durationNs);
    var b6 := PutI64(b5, x.predictedDurationNs);
    var b7 := PutU64(b6, x.memoryUsedBytes);
    var b8 := PutStr(b7, x.error);
    var b9 := PutU8(b8, x.classification);
    ProvenanceRewritten(b9, x.provenance);
  }

  lemma OutcomeElement(x: Outcome, data: seq<byte>)
    ensures ElementReads(x, PutOutcome, GetOutcome, EraseOutcome, FitsOutcome, data)
  {
    forall b {:trigger PutOutcome(b, x)} | PutOutcome(b, x) <= data
      ensures b <= data && Reads(FitsOutcome(x), GetOutcome(data, |b|), EraseOutcome(x), |PutOutcome(b, x)|)
    {
      OutcomeReads(b, x, data);
    }
  }

  lemma OptionalOutcomeReads(b: seq<byte>, o: Option<Outcome>, data: seq<byte>)
    requires PutOption(b, o, PutOutcome) <= data
    ensures b <= data && Reads(FitsOption(o, FitsOutcome), GetOption(data, |b|, GetOutcome),
            MapOption(EraseOutcome, o), |PutOption(b, o, PutOutcome)|)
  {
    if o.Some? {
      OutcomeElement(o.value, data);
    }
    OptionReads(b, o, PutOutcome, GetOutcome, EraseOutcome, FitsOutcome, data);
  }

  // ----- Observation

  function PutObservation(buf: seq<byte>, x: Observation<Pattern>): seq<byte> {
    var buf := PutU64(buf, x.observationId);
    var buf := PutU64(buf, x.observationGeneration);
    var buf := PutI64(buf, x.revision);
    var buf := PutU64(buf, x.sourceId);
    var buf := PutU64(buf, x.sourceGeneration);
    var buf := PutU8(buf, x.sourceType);
    var buf := PutI64(buf, x.timestamp.wall);
    var buf := PutU64(buf, x.timestamp.mono);
    var buf := PutI64(buf, x.timestamp.uncertaintyNs);
    var buf := PutU64(buf, x.workerBoot);
    var buf := PutU64(buf, x.coordinatorEpoch);
    var buf := PutU64(buf, x.workloadId);
    var buf := PutU64(buf, x.requestId);
    var buf := PutU64(buf, x.tenantId);
    var buf := PutU64(buf, x.namespaceId);
    var buf := PutU64(buf, x.nodeId);
    var buf := PutU64(buf, x.deviceId);
    var buf := PutU64(buf, x.decisionId);
    var buf := PutU64(buf, x.attemptId);
    var buf := PutU64(buf, x.epoch);
    var buf := PutU8(buf, x.lifecycle);
    var buf := PutVec(buf, x.fields, PutMeasurement);
    var buf := PutU8(buf, x.reliability);
    PutBool(buf, x.synthetic)
  }

  function GetObservation(data: seq<byte>, pos: nat): Read<Observation<Pattern>> {
    var (observationId, pos) :- GetU64(data, pos);
    var (observationGeneration, pos) :- GetU64(data, pos);
    var (revision, pos) :- GetI64(data, pos);
    var (sourceId, pos) :- GetU64(data, pos);
    var (sourceGeneration, pos) :- GetU64(data, pos);
    var (sourceType, pos) :- GetU8(data, pos);
    var (wall, pos) :- GetI64(data, pos);
    var (mono, pos) :- GetU64(data, pos);
    var (uncertainty, pos) :- GetI64(data, pos);
    var (workerBoot, pos) :- GetU64(data, pos);
    var (coordinatorEpoch, pos) :- GetU64(data, pos);
    var (workloadId, pos) :- GetU64(data, pos);
    var (requestId, pos) :- GetU64(data, pos);
    var (tenantId, pos) :- GetU64(data, pos);
    var (namespaceId, pos) :- GetU64(data, pos);
    var (nodeId, pos) :- GetU64(data, pos);
    var (deviceId, pos) :- GetU64(data, pos);
    var (decisionId, pos) :- GetU64(data, pos);
    var (attemptId, pos) :- GetU64(data, pos);
    var (epoch, pos) :- GetU64(data, pos);
    var (lifecycle, pos) :- GetU8(data, pos);
    var (fields, pos) :- GetVec(data, pos, GetMeasurement);
    var (reliability, pos) :- GetU8(data, pos);
    var (synthetic, pos) :- GetBool(data, pos);
    Ok((Observation(observationId, observationGeneration, revision, sourceId, sourceGeneration, sourceType,
            Timestamp(wall, mono, uncertainty), workerBoot, coordinatorEpoch, workloadId, requestId, tenantId,
            namespaceId, nodeId, deviceId, decisionId, attemptId, epoch, lifecycle, fields, reliability,
            synthetic), pos))
  }

  predicate FitsObservation(x: Observation<Pattern>) {
    FitsVec(x.fields, FitsMeasurement)
  }

  function EraseObservation(x: Observation<Pattern>): Observation<Pattern> {
    x.(fields := MapSeq(EraseMeasurement, x.fields))
  }

  lemma ObservationReads(b: seq<byte>, x: Observation<Pattern>, data: seq<byte>)
    requires PutObservation(b, x) <= data
    ensures b <= data && Reads(FitsObservation(x), GetObservation(data, |b|), EraseObservation(x),
            |PutObservation(b, x)|)
  {
    hide FitsVec, GetBool, GetI64, GetU64, GetU8, GetVec, PutBool, PutI64, PutU64, PutU8, PutVec;
    var b1 := PutU64(b, x.observationId);
    var b2 := PutU64(b1, x.observationGeneration);
    var b3 := PutI64(b2, x.revision);
    var b4 := PutU64(b3, x.sourceId);
    var b5 := PutU64(b4, x.sourceGeneration);
    var b6 := PutU8(b5, x.sourceType);
    var b7 := PutI64(b6, x.timestamp.wall);
    var b8 := PutU64(b7, x.timestamp.mono);
    var b9 := PutI64(b8, x.timestamp.uncertaintyNs);
    var b10 := PutU64(b9, x.workerBoot);
    var b11 := PutU64(b10, x.coordinatorEpoch);
    var b12 := PutU64(b11, x.workloadId);
    var b13 := PutU64(b12, x.requestId);
    var b14 := PutU64(b13, x.tenantId);
    var b15 := PutU64(b14, x.namespaceId);
    var b16 := PutU64(b15, x.nodeId);
    var b17 := PutU64(b16, x.deviceId);
    var b18 := PutU64(b17, x.decisionId);
    var b19 := PutU64(b18, x.attemptId);
    var b20 := PutU64(b19, x.epoch);
    var b21 := PutU8(b20, x.lifecycle);
    var b22 := PutVec(b21, x.fields, PutMeasurement);
    var b23 := PutU8(b22, x.reliability);
    BoolReads(b23, x.synthetic, data);
    U8Reads(b22, x.reliability, data);
    MeasurementsRead(b21, x.fields, data);
    U8Reads(b20, x.lifecycle, data);
    U64Reads(b19, x.epoch, data);
    U64Reads(b18, x.attemptId, data);
    U64Reads(b17, x.decisionId, data);
    U64Reads(b16, x.deviceId, data);
    U64Reads(b15, x.nodeId, data);
    U64Reads(b14, x.namespaceId, data);
    U64Reads(b13, x.tenantId, data);
    U64Reads(b12, x.requestId, data);
    U64Reads(b11, x.workloadId, data);
    U64Reads(b10, x.coordinatorEpoch, data);
    U64Reads(b9, x.workerBoot, data);
    I64Reads(b8, x.timestamp.uncertaintyNs, data);
    U64Reads(b7, x.timestamp.mono, data);
    I64Reads(b6, x.timestamp.wall, data);
    U8Reads(b5, x.sourceType, data);
    U64Reads(b4, x.sourceGeneration, data);
    U64Reads(b3, x.sourceId, data);
    I64Reads(b2, x.revision, data);
    U64Reads(b1, x.observationGeneration, data);
    U64Reads(b, x.observationId, data);
  }

  lemma ObservationRewritten(b: seq<byte>, x: Observation<Pattern>)
    ensures PutObservation(b, EraseObservation(x)) == PutObservation(b, x)
  {
    hide PutVec;
    var b1 := PutU64(b, x.observationId);
    var b2 := PutU64(b1, x.observationGeneration);
    var b3 := PutI64(b2, x.revision);
    var b4 := PutU64(b3, x.sourceId);
    var b5 := PutU64(b4, x.sourceGeneration);
    var b6 := PutU8(b5, x.sourceType);
    var b7 := PutI64(b6, x.timestamp.wall);
    var b8 := PutU64(b7, x.timestamp.mono);
    var b9 := PutI64(b8, x.timestamp.uncertaintyNs);
    var b10 := PutU64(b9, x.workerBoot);
    var b11 := PutU64(b10, x.coordinatorEpoch);
    var b12 := PutU64(b11, x.workloadId);
    var b13 := PutU64(b12, x.requestId);
    var b14 := PutU64(b13, x.tenantId);
    var b15 := PutU64(b14, x.namespaceId);
    var b16 := PutU64(b15, x.nodeId);
    var b17 := PutU64(b16, x.deviceId);
    var b18 := PutU64(b17, x.decisionId);
    var b19 := PutU64(b18, x.attemptId);
    var b20 := PutU64(b19, x.epoch);
    var b21 := PutU8(b20, x.lifecycle);
    forall c, y | y in x.fields
      ensures PutMeasurement(c, EraseMeasurement(y)) == PutMeasurement(c, y)
    {
      MeasurementRewritten(c, y);
    }
    VecRewritten(b21, x.fields, PutMeasurement, EraseMeasurement);
  }

  // ----- Decision

  /** The first half of a decision, up to its cost components. */
  datatype DecisionHead<D> = DecisionHead(decisionId: u64, attemptId: u64, placementGeneration: u64,
    observationGeneration: u64, epoch: u64, policyGeneration: u64, workloadId: u64, requestId: u64, tenantId: u64,
    namespaceId: u64, nodeId: u64, deviceId: u64, candidateSet: CandidateSet<D>, selectedCandidate: u64,
    rejectedCandidates: seq<u64>, hardConstraints: seq<Constraint<D>>, softPreferences: seq<Constraint<D>>,
    scoreComponents: seq<ScoreComponent<D>>, costComponents: seq<CostComponent<D>>)

  /** The second half. */
  datatype DecisionTail<D> = DecisionTail(tieBreak: byte, tieBreakReason: Text, selectedReason: Text,
    rejectionReasons: ReasonMap, confidence: Confidence<D>, classification: byte, determinism: byte,
    provenance: Provenance, outcome: Option<Outcome>, lifecycle: byte)

  function HeadOf(x: Decision<Pattern>): DecisionHead<Pattern> {
    DecisionHead(x.decisionId, x.attemptId, x.placementGeneration, x.observationGeneration, x.epoch,
      x.policyGeneration, x.workloadId, x.requestId, x.tenantId, x.namespaceId, x.nodeId, x.deviceId, x.candidateSet,
      x.selectedCandidate, x.rejectedCandidates, x.hardConstraints, x.softPreferences, x.scoreComponents,
      x.costComponents)
  }

  function TailOf(x: Decision<Pattern>): DecisionTail<Pattern> {
    DecisionTail(x.tieBreak, x.tieBreakReason, x.selectedReason, x.rejectionReasons, x.confidence, x.classification,
      x.determinism, x.provenance, x.outcome, x.lifecycle)
  }

  function Join(h: DecisionHead<Pattern>, t: DecisionTail<Pattern>): Decision<Pattern> {
    Decision(h.decisionId, h.attemptId, h.placementGeneration, h.observationGeneration, h.epoch, h.policyGeneration,
      h.workloadId, h.requestId, h.tenantId, h.namespaceId, h.nodeId, h.deviceId, h.candidateSet,
      h.selectedCandidate, h.rejectedCandidates, h.hardConstraints, h.softPreferences, h.scoreComponents,
      h.costComponents, t.tieBreak, t.tieBreakReason, t.selectedReason, t.rejectionReasons, t.confidence,
      t.classification, t.determinism, t.provenance, t.outcome, t.lifecycle)
  }

  function PutDecisionHead(buf: seq<byte>, x: DecisionHead<Pattern>): seq<byte> {
    var buf := PutU64(buf, x.decisionId);
    var buf := PutU64(buf, x.attemptId);
    var buf := PutU64(buf, x.placementGeneration);
    var buf := PutU64(buf, x.observationGeneration);
    var buf := PutU64(buf, x.epoch);
    var buf := PutU64(buf, x.policyGeneration);
    var buf := PutU64(buf, x.workloadId);
    var buf := PutU64(buf, x.requestId);
    var buf := PutU64(buf, x.tenantId);
    var buf := PutU64(buf, x.namespaceId);
    var buf := PutU64(buf, x.nodeId);
    var buf := PutU64(buf, x.deviceId);
    var buf := PutCandidateSet(buf, x.candidateSet);
    var buf := PutU64(buf, x.selectedCandidate);
    var buf := PutVec(buf, x.rejectedCandidates, PutU64);
    var buf := PutVec(buf, x.hardConstraints, PutConstraint);
    var buf := PutVec(buf, x.softPreferences, PutConstraint);
    var buf := PutVec(buf, x.scoreComponents, PutScoreComponent);
    PutVec(buf, x.costComponents, PutCostComponent)
  }

  function GetDecisionHead(data: seq<byte>, pos: nat): Read<DecisionHead<Pattern>> {
    var (decisionId, pos) :- GetU64(data, pos);
    var (attemptId, pos) :- GetU64(data, pos);
    var (placementGeneration, pos) :- GetU64(data, pos);
    var (observationGeneration, pos) :- GetU64(data, pos);
    var (epoch, pos) :- GetU64(data, pos);
    var (policyGeneration, pos) :- GetU64(data, pos);
    var (workloadId, pos) :- GetU64(data, pos);
    var (requestId, pos) :- GetU64(data, pos);
    var (tenantId, pos) :- GetU64(data, pos);
    var (namespaceId, pos) :- GetU64(data, pos);
    var (nodeId, pos) :- GetU64(data, pos);
    var (deviceId, pos) :- GetU64(data, pos);
    var (candidateSet, pos) :- GetCandidateSet(data, pos);
    var (selectedCandidate, pos) :- GetU64(data, pos);
    var (rejectedCandidates, pos) :- GetVec(data, pos, GetU64);
    var (hardConstraints, pos) :- GetVec(data, pos, GetConstraint);
    var (softPreferences, pos) :- GetVec(data, pos, GetConstraint);
    var (scoreComponents, pos) :- GetVec(data, pos, GetScoreComponent);
    var (costComponents, pos) :- GetVec(data, pos, GetCostComponent);
    Ok((DecisionHead(decisionId, attemptId, placementGeneration, observationGeneration, epoch, policyGeneration,
            workloadId, requestId, tenantId, namespaceId, nodeId, deviceId, candidateSet, selectedCandidate,
            rejectedCandidates, hardConstraints, softPreferences, scoreComponents, costComponents), pos))
  }

  predicate FitsDecisionHead(x: DecisionHead<Pattern>) {
    && FitsCandidateSet(x.candidateSet)
    && FitsVec(x.rejectedCandidates, FitsAny)
    && FitsVec(x.hardConstraints, FitsConstraint)
    && FitsVec(x.softPreferences, FitsConstraint)
    && FitsVec(x.scoreComponents, FitsScoreComponent)
    && FitsVec(x.costComponents, FitsCostComponent)
  }

  function EraseDecisionHead(x: DecisionHead<Pattern>): DecisionHead<Pattern> {
    x.(candidateSet := EraseCandidateSet(x.candidateSet),
      hardConstraints := MapSeq(EraseConstraint, x.hardConstraints),
      softPreferences := MapSeq(EraseConstraint, x.softPreferences),
      scoreComponents := MapSeq(EraseScoreComponent, x.scoreComponents),
      costComponents := MapSeq(EraseCostComponent, x.costComponents))
  }

  lemma DecisionHeadReads(b: seq<byte>, x: DecisionHead<Pattern>, data: seq<byte>)
    requires PutDecisionHead(b, x) <= data
    ensures b <= data && Reads(FitsDecisionHead(x), GetDecisionHead(data, |b|), EraseDecisionHead(x),
            |PutDecisionHead(b, x)|)
  {
    hide EraseCandidateSet, FitsCandidateSet, FitsVec, GetCandidateSet, GetU64, GetVec, PutCandidateSet, PutU64,
      PutVec;
    var b1 := PutU64(b, x.decisionId);
    var b2 := PutU64(b1, x.attemptId);
    var b3 := PutU64(b2, x.placementGeneration);
    var b4 := PutU64(b3, x.observationGeneration);
    var b5 := PutU64(b4, x.epoch);
    var b6 := PutU64(b5, x.policyGeneration);
    var b7 := PutU64(b6, x.workloadId);
    var b8 := PutU64(b7, x.requestId);
    var b9 := PutU64(b8, x.tenantId);
    var b10 := PutU64(b9, x.namespaceId);
    var b11 := PutU64(b10, x.nodeId);
    var b12 := PutU64(b11, x.deviceId);
    var b13 := PutCandidateSet(b12, x.candidateSet);
    var b14 := PutU64(b13, x.selectedCandidate);
    var b15 := PutVec(b14, x.rejectedCandidates, PutU64);
    var b16 := PutVec(b15, x.hardConstraints, PutConstraint);
    var b17 := PutVec(b16, x.softPreferences, PutConstraint);
    var b18 := PutVec(b17, x.scoreComponents, PutScoreComponent);
    CostComponentsRead(b18, x.costComponents, data);
    ScoreComponentsRead(b17, x.scoreComponents, data);
    ConstraintsRead(b16, x.softPreferences, data);
    ConstraintsRead(b15, x.hardConstraints, data);
    U64sRead(b14, x.rejectedCandidates, data);
    U64Reads(b13, x.selectedCandidate, data);
    CandidateSetReads(b12, x.candidateSet, data);
    U64Reads(b11, x.deviceId, data);
    U64Reads(b10, x.nodeId, data);
    U64Reads(b9, x.namespaceId, data);
    U64Reads(b8, x.tenantId, data);
    U64Reads(b7, x.requestId, data);
    U64Reads(b6, x.workloadId, data);
    U64Reads(b5, x.policyGeneration, data);
    U64Reads(b4, x.epoch, data);
    U64Reads(b3, x.observationGeneration, data);
    U64Reads(b2, x.placementGeneration, data);
    U64Reads(b1, x.attemptId, data);
    U64Reads(b, x.decisionId, data);
  }

  lemma DecisionHeadRewritten(b: seq<byte>, x: DecisionHead<Pattern>)
    ensures PutDecisionHead(b, EraseDecisionHead(x)) == PutDecisionHead(b, x)
  {
    hide EraseCandidateSet, PutCandidateSet, PutVec;
    var b1 := PutU64(b, x.decisionId);
    var b2 := PutU64(b1, x.attemptId);
    var b3 := PutU64(b2, x.placementGeneration);
    var b4 := PutU64(b3, x.observationGeneration);
    var b5 := PutU64(b4, x.epoch);
    var b6 := PutU64(b5, x.policyGeneration);
    var b7 := PutU64(b6, x.workloadId);
    var b8 := PutU64(b7, x.requestId);
    var b9 := PutU64(b8, x.tenantId);
    var b10 := PutU64(b9, x.namespaceId);
    var b11 := PutU64(b10, x.nodeId);
    var b12 := PutU64(b11, x.deviceId);
    CandidateSetRewritten(b12, x.candidateSet);
    var b13 := PutCandidateSet(b12, x.candidateSet);
    var b14 := PutU64(b13, x.selectedCandidate);
    var b15 := PutVec(b14, x.rejectedCandidates, PutU64);
    forall c, y | y in x.hardConstraints
      ensures PutConstraint(c, EraseConstraint(y)) == PutConstraint(c, y)
    {
      ConstraintRewritten(c, y);
    }
    VecRewritten(b15, x.hardConstraints, PutConstraint, EraseConstraint);
    var b16 := PutVec(b15, x.hardConstraints, PutConstraint);
    forall c, y | y in x.softPreferences
      ensures PutConstraint(c, EraseConstraint(y)) == PutConstraint(c, y)
    {
      ConstraintRewritten(c, y);
    }
    VecRewritten(b16, x.softPreferences, PutConstraint, EraseConstraint);
    var b17 := PutVec(b16, x.softPreferences, PutConstraint);
    forall c, y | y in x.scoreComponents
      ensures PutScoreComponent(c, EraseScoreComponent(y)) == PutScoreComponent(c, y)
    {
      ScoreComponentRewritten(c, y);
    }
    VecRewritten(b17, x.scoreComponents, PutScoreComponent, EraseScoreComponent);
    var b18 := PutVec(b17, x.scoreComponents, PutScoreComponent);
    forall c, y | y in x.costComponents
      ensures PutCostComponent(c, EraseCostComponent(y)) == PutCostComponent(c, y)
    {
      CostComponentRewritten(c, y);
    }
    VecRewritten(b18, x.costComponents, PutCostComponent, EraseCostComponent);
  }

  function PutDecisionTail(buf: seq<byte>, x: DecisionTail<Pattern>): seq<byte> {
    var buf := PutU8(buf, x.tieBreak);
    var buf := PutStr(buf, x.tieBreakReason);
    var buf := PutStr(buf, x.selectedReason);
    var buf := PutVec(buf, x.rejectionReasons, PutReason);
    var buf := PutConfidence(buf, x.confidence);
    var buf := PutU8(buf, x.classification);
    var buf := PutU8(buf, x.determinism);
    var buf := PutProvenance(buf, x.provenance);
    var buf := PutOption(buf, x.outcome, PutOutcome);
    PutU8(buf, x.lifecycle)
  }

  function GetDecisionTail(data: seq<byte>, pos: nat): Read<DecisionTail<Pattern>> {
    var (tieBreak, pos) :- GetU8(data, pos);
    var (tieBreakReason, pos) :- GetStr(data, pos);
    var (selectedReason, pos) :- GetStr(data, pos);
    var (rejectionReasons, pos) :- GetReasonMap(data, pos);
    var (confidence, pos) :- GetConfidence(data, pos);
    var (classification, pos) :- GetU8(data, pos);
    var (determinism, pos) :- GetU8(data, pos);
    var (provenance, pos) :- GetProvenance(data, pos);
    var (outcome, pos) :- GetOption(data, pos, GetOutcome);
    var (lifecycle, pos) :- GetU8(data, pos);
    Ok((DecisionTail(tieBreak, tieBreakReason, selectedReason, rejectionReasons, confidence, classification,
            determinism, provenance, outcome, lifecycle), pos))
  }

  predicate FitsDecisionTail(x: DecisionTail<Pattern>) {
    && FitsStr(x.tieBreakReason)
    && FitsStr(x.selectedReason)
    && FitsReasonMap(x.rejectionReasons)
    && FitsConfidence(x.confidence)
    && FitsProvenance(x.provenance)
    && FitsOption(x.outcome, FitsOutcome)
  }

  function EraseDecisionTail(x: DecisionTail<Pattern>): DecisionTail<Pattern> {
    x.(provenance := EraseProvenance(x.provenance), outcome := MapOption(EraseOutcome, x.outcome))
  }

  lemma DecisionTailReads(b: seq<byte>, x: DecisionTail<Pattern>, data: seq<byte>)
    requires PutDecisionTail(b, x) <= data
    ensures b <= data && Reads(FitsDecisionTail(x), GetDecisionTail(data, |b|), EraseDecisionTail(x),
            |PutDecisionTail(b, x)|)
  {
    hide EraseProvenance, FitsConfidence, FitsOption, FitsProvenance, FitsReasonMap, FitsStr, GetConfidence,
      GetOption, GetProvenance, GetReasonMap, GetStr, GetU8, PutConfidence, PutOption, PutProvenance, PutStr, PutU8,
      PutVec;
    var b1 := PutU8(b, x.tieBreak);
    var b2 := PutStr(b1, x.tieBreakReason);
    var b3 := PutStr(b2, x.selectedReason);
    var b4 := PutVec(b3, x.rejectionReasons, PutReason);
    var b5 := PutConfidence(b4, x.confidence);
    var b6 := PutU8(b5, x.classification);
    var b7 := PutU8(b6, x.determinism);
    var b8 := PutProvenance(b7, x.provenance);
    var b9 := PutOption(b8, x.outcome, PutOutcome);
    U8Reads(b9, x.lifecycle, data);
    OptionalOutcomeReads(b8, x.outcome, data);
    ProvenanceReads(b7, x.provenance, data);
    U8Reads(b6, x.determinism, data);
    U8Reads(b5, x.classification, data);
    ConfidenceReads(b4, x.confidence, data);
    ReasonMapReads(b3, x.rejectionReasons, data);
    StrReads(b2, x.selectedReason, data);
    StrReads(b1, x.tieBreakReason, data);
    U8Reads(b, x.tieBreak, data);
  }

  lemma DecisionTailRewritten(b: seq<byte>, x: DecisionTail<Pattern>)
    ensures PutDecisionTail(b, EraseDecisionTail(x)) == PutDecisionTail(b, x)
  {
    hide EraseOutcome, EraseProvenance, PutOutcome, PutProvenance;
    var b1 := PutU8(b, x.tieBreak);
    var b2 := PutStr(b1, x.tieBreakReason);
    var b3 := PutStr(b2, x.selectedReason);
    var b4 := PutVec(b3, x.rejectionReasons, PutReason);
    var b5 := PutConfidence(b4, x.confidence);
    var b6 := PutU8(b5, x.classification);
    var b7 := PutU8(b6, x.determinism);
    ProvenanceRewritten(b7, x.provenance);
    var b8 := PutProvenance(b7, x.provenance);
    if x.outcome.Some? {
      OutcomeRewritten(PutBool(b8, true), x.outcome.value);
    }
  }

  function PutDecision(buf: seq<byte>, x: Decision<Pattern>): seq<byte> {
    PutDecisionTail(PutDecisionHead(buf, HeadOf(x)), TailOf(x))
  }

  function GetDecision(data: seq<byte>, pos: nat): Read<Decision<Pattern>> {
    var (h, pos) :- GetDecisionHead(data, pos);
    var (t, pos) :- GetDecisionTail(data, pos);
    Ok((Join(h, t), pos))
  }

  predicate FitsDecision(x: Decision<Pattern>) {
    FitsDecisionHead(HeadOf(x)) && FitsDecisionTail(TailOf(x))
  }

  function EraseDecision(x: Decision<Pattern>): Decision<Pattern> {
    Join(EraseDecisionHead(HeadOf(x)), EraseDecisionTail(TailOf(x)))
  }

  lemma DecisionReads(b: seq<byte>, x: Decision<Pattern>, data: seq<byte>)
    requires PutDecision(b, x) <= data
    ensures b <= data && Reads(FitsDecision(x), GetDecision(data, |b|), EraseDecision(x), |PutDecision(b, x)|)
  {
    hide PutDecisionHead, PutDecisionTail, GetDecisionHead, GetDecisionTail;
    hide FitsDecisionHead, FitsDecisionTail, EraseDecisionHead, EraseDecisionTail;
    var c := PutDecisionHead(b, HeadOf(x));
    DecisionTailReads(c, TailOf(x), data);
    DecisionHeadReads(b, HeadOf(x), data);
  }

  lemma DecisionRewritten(b: seq<byte>, x: Decision<Pattern>)
    ensures PutDecision(b, EraseDecision(x)) == PutDecision(b, x)
  {
    hide PutDecisionHead, PutDecisionTail, EraseDecisionHead, EraseDecisionTail;
    DecisionHeadRewritten(b, HeadOf(x));
    DecisionTailRewritten(PutDecisionHead(b, HeadOf(x)), TailOf(x));
  }
}
