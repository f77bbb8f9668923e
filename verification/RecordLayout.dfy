/** The bytes of every record, field by field: little-endian numbers, counted texts and lists, flagged
    options; and the bytes around a record in a file and around a frame on the wire. */
module RecordLayout {
  import opened Base
  import opened Bytes
  import opened Model
  import opened Serialize
  import opened Records
  import opened RecordLog
  import opened Persistence
  import opened Sequences
  import opened Store
  import Sha256
  import Crc
  import P = Protocol

  // ----- numbers, texts, lists, options

  function PowerOf256(k: nat): (p: nat)
    ensures p > 0
  {
    if k == 0 then 1 else 256 * PowerOf256(k - 1)
  }

  /** `k` bytes, each the digit of its place to the base 256, the lowest place first. */
  function Little(n: nat, k: nat): (s: seq<byte>)
    ensures |s| == k
  {
    seq(k, i requires 0 <= i < k => n / PowerOf256(i) % 256)
  }

  function Byte(v: byte): seq<byte> {
    [v]
  }

  function Word(v: u32): seq<byte> {
    Little(v, 4)
  }

  function Long(v: u64): seq<byte> {
    Little(v, 8)
  }

  /** Two's complement. */
  function Signed(v: i64): seq<byte> {
    Little(if v < 0 then v + 0x1_0000_0000_0000_0000 else v, 8)
  }

  function Flag(v: bool): seq<byte> {
    if v then [1] else [0]
  }

  /** The length in four bytes and the codes of the characters. */
  function TextBytes(s: Text): seq<byte> {
    Little(|s|, 4) + seq(|s|, i requires 0 <= i < |s| => s[i] as int)
  }

  function All<T>(v: seq<T>, each: T -> seq<byte>): seq<byte> {
    if v == [] then [] else each(v[0]) + All(v[1..], each)
  }

  /** The count, cut to 32 bits, and the elements one after the other. */
  function List<T>(v: seq<T>, each: T -> seq<byte>): seq<byte> {
    Little(|v| % 0x1_0000_0000, 4) + All(v, each)
  }

  /** A flag, and the content if there is one. */
  function Maybe<T>(o: Option<T>, each: T -> seq<byte>): seq<byte> {
    if o.Some? then [1] + each(o.value) else [0]
  }

  /** The number of the alternative, and its content; a double is its 64-bit pattern. */
  function ValueBytes(v: Value<Pattern>): seq<byte> {
    match v
    case NoValue => [0]
    case Int(i) => [1] + Signed(i)
    case UInt(u) => [2] + Long(u)
    case Double(d) => [3] + Long(d)
    case Bool(b) => [4] + Flag(b)
    case Str(s) => [5] + TextBytes(s)
  }

  function ReasonBytes(r: Reason): seq<byte> {
    Long(r.candidateId) + TextBytes(r.text)
  }

  lemma {:induction false} LittleIs(n: nat, k: nat)
    ensures LE(n, k) == Little(n, k)
  {
    if k == 0 {
    } else {
      LittleIs(n / 256, k - 1);
      forall i | 0 <= i < k
        ensures LE(n, k)[i] == Little(n, k)[i]
      {
        if i > 0 {
          NextPlace(n, i);
        }
      }
    }
  }

  lemma NextPlace(n: nat, i: nat)
    requires i > 0
    ensures n / 256 / PowerOf256(i - 1) == n / PowerOf256(i)
  {
    DivideTwice(n, 256, PowerOf256(i - 1));
  }

  lemma DivideTwice(n: nat, a: nat, b: nat)
    requires a > 0 && b > 0
    ensures a * b > 0 && n / a / b == n / (a * b)
  {
    var q := n / a;
    var r := q / b;
    var x, y := n - a * q, q - b * r;
    assert 0 <= x < a && 0 <= y < b;
    assert a * b > 0 by { Positive(a, b); }
    assert n == (a * b) * r + (a * y + x) by { Expand(n, a, b, q, r, x, y); }
    assert 0 <= a * y + x < a * b by { Bounded(a, b, x, y); }
    Quotient(n, a * b, r, a * y + x);
  }

  lemma Positive(a: nat, b: nat)
    requires a > 0 && b > 0
    ensures a * b > 0
  {
  }

  lemma Expand(n: nat, a: nat, b: nat, q: nat, r: nat, x: int, y: int)
    requires n == a * q + x && q == b * r + y
    ensures n == (a * b) * r + (a * y + x)
  {
    assert a * (b * r + y) == a * (b * r) + a * y;
    assert a * (b * r) == (a * b) * r;
  }

  lemma Bounded(a: nat, b: nat, x: int, y: int)
    requires 0 <= x < a && 0 <= y < b
    ensures 0 <= a * y + x < a * b
  {
    assert a * y <= a * (b - 1) by { Monotone(a, y, b - 1); }
    assert a * (b - 1) == a * b - a;
    assert 0 <= a * y by { Monotone(a, 0, y); }
  }

  lemma Monotone(a: nat, x: int, y: int)
    requires x <= y
    ensures a * x <= a * y
  {
  }

  lemma Quotient(n: nat, m: nat, q: nat, r: nat)
    requires m > 0 && n == m * q + r && r < m
    ensures n / m == q
  {
    var p := n / m;
    assert n == m * p + n % m;
    assert m * (p + 1) == m * p + m && m * (q + 1) == m * q + m;
    if p < q {
      Monotone(m, p + 1, q);
    } else if q < p {
      Monotone(m, q + 1, p);
    }
  }

  // ----- appending them

  lemma Then(buf: seq<byte>, c: seq<byte>, u: seq<byte>)
    ensures buf + c + u == buf + (c + u)
  {
  }

  lemma ByteIs(buf: seq<byte>, v: byte)
    ensures PutU8(buf, v) == buf + Byte(v)
  {
  }

  lemma WordIs(buf: seq<byte>, v: u32)
    ensures PutU32(buf, v) == buf + Word(v)
  {
    LittleIs(v, 4);
  }

  lemma LongIs(buf: seq<byte>, v: u64)
    ensures PutU64(buf, v) == buf + Long(v)
  {
    LittleIs(v, 8);
  }

  lemma SignedIs(buf: seq<byte>, v: i64)
    ensures PutI64(buf, v) == buf + Signed(v)
  {
    hide LE, Little;
    assert v % TWO64 == if v < 0 then v + TWO64 else v;
    LittleIs(v % TWO64, 8);
  }

  lemma FlagIs(buf: seq<byte>, v: bool)
    ensures PutBool(buf, v) == buf + Flag(v)
  {
  }

  lemma TextBytesIs(buf: seq<byte>, v: Text)
    ensures PutStr(buf, v) == buf + TextBytes(v)
  {
    hide LE, Little;
    LittleIs(|v|, 4);
    Then(buf, LE(|v|, 4), CharBytes(v));
  }

  lemma ValueBytesIs(buf: seq<byte>, v: Value<Pattern>)
    ensures PutValue(buf, v) == buf + ValueBytes(v)
  {
    hide PutI64, PutU64, PutBool, PutStr, Signed, Long, Flag, TextBytes;
    match v {
      case NoValue =>
      case Int(i) => SignedIs(buf + [1], i); Then(buf, [1], Signed(i));
      case UInt(u) => LongIs(buf + [2], u); Then(buf, [2], Long(u));
      case Double(d) => LongIs(buf + [3], d); Then(buf, [3], Long(d));
      case Bool(b) => FlagIs(buf + [4], b); Then(buf, [4], Flag(b));
      case Str(s) => TextBytesIs(buf + [5], s); Then(buf, [5], TextBytes(s));
    }
  }

  lemma ReasonBytesIs(buf: seq<byte>, v: Reason)
    ensures PutReason(buf, v) == buf + ReasonBytes(v)
  {
    hide PutU64, PutStr, Long, TextBytes;
    LongIs(buf, v.candidateId);
    TextBytesIs(buf + Long(v.candidateId), v.text);
    Then(buf, Long(v.candidateId), TextBytes(v.text));
  }

  lemma {:induction false} AllIs<T(!new)>(buf: seq<byte>, v: seq<T>, put: (seq<byte>, T) -> seq<byte>,
                                          each: T -> seq<byte>)
    requires forall b, x {:trigger put(b, x)} :: put(b, x) == b + each(x)
    ensures PutMany(buf, v, put) == buf + All(v, each)
    decreases |v|
  {
    if v == [] {
    } else {
      AllIs(put(buf, v[0]), v[1..], put, each);
      Then(buf, each(v[0]), All(v[1..], each));
    }
  }

  lemma ListIs<T(!new)>(buf: seq<byte>, v: seq<T>, put: (seq<byte>, T) -> seq<byte>, each: T -> seq<byte>)
    requires forall b, x {:trigger put(b, x)} :: put(b, x) == b + each(x)
    ensures PutVec(buf, v, put) == buf + List(v, each)
  {
    hide LE, Little, PutMany, All;
    var n := |v| % 0x1_0000_0000;
    LittleIs(n, 4);
    AllIs(buf + LE(n, 4), v, put, each);
    Then(buf, LE(n, 4), All(v, each));
  }

  lemma MaybeIs<T(!new)>(buf: seq<byte>, o: Option<T>, put: (seq<byte>, T) -> seq<byte>, each: T -> seq<byte>)
    requires forall b, x {:trigger put(b, x)} :: put(b, x) == b + each(x)
    ensures PutOption(buf, o, put) == buf + Maybe(o, each)
  {
    if o.Some? {
      assert PutBool(buf, true) == buf + [1];
      Then(buf, [1], each(o.value));
    }
  }

  // ----- the records

  /** The own uncertainty of a provenance is not written. */
  function ProvenanceBytes(x: Provenance): seq<byte> {
    Long(x.sourceId) + Long(x.sourceGeneration) + Byte(x.sourceType) + Byte(x.collection) + Byte(x.reliability) +
    Byte(x.classification) + Signed(x.timestamp.wall) + Long(x.timestamp.mono) + Signed(x.timestamp.uncertaintyNs) +
    Long(x.workerBoot) + Long(x.coordinatorEpoch) + TextBytes(x.collectionError) + TextBytes(x.normalizedField) +
    TextBytes(x.rawField)
  }

  lemma ProvenanceBytesIs(buf: seq<byte>, x: Provenance)
    ensures PutProvenance(buf, x) == buf + ProvenanceBytes(x)
  {
    hide Byte, Long, PutI64, PutStr, PutU64, PutU8, Signed, TextBytes;
    LongIs(buf, x.sourceId);
    var c1 := Long(x.sourceId);
    LongIs(buf + c1, x.sourceGeneration);
    Then(buf, c1, Long(x.sourceGeneration));
    var c2 := c1 + Long(x.sourceGeneration);
    ByteIs(buf + c2, x.sourceType);
    Then(buf, c2, Byte(x.sourceType));
    var c3 := c2 + Byte(x.sourceType);
    ByteIs(buf + c3, x.collection);
    Then(buf, c3, Byte(x.collection));
    var c4 := c3 + Byte(x.collection);
    ByteIs(buf + c4, x.reliability);
    Then(buf, c4, Byte(x.reliability));
    var c5 := c4 + Byte(x.reliability);
    ByteIs(buf + c5, x.classification);
    Then(buf, c5, Byte(x.classification));
    var c6 := c5 + Byte(x.classification);
    SignedIs(buf + c6, x.timestamp.wall);
    Then(buf, c6, Signed(x.timestamp.wall));
    var c7 := c6 + Signed(x.timestamp.wall);
    LongIs(buf + c7, x.timestamp.mono);
    Then(buf, c7, Long(x.timestamp.mono));
    var c8 := c7 + Long(x.timestamp.mono);
    SignedIs(buf + c8, x.timestamp.uncertaintyNs);
    Then(buf, c8, Signed(x.timestamp.uncertaintyNs));
    var c9 := c8 + Signed(x.timestamp.uncertaintyNs);
    LongIs(buf + c9, x.workerBoot);
    Then(buf, c9, Long(x.workerBoot));
    var c10 := c9 + Long(x.workerBoot);
    LongIs(buf + c10, x.coordinatorEpoch);
    Then(buf, c10, Long(x.coordinatorEpoch));
    var c11 := c10 + Long(x.coordinatorEpoch);
    TextBytesIs(buf + c11, x.collectionError);
    Then(buf, c11, TextBytes(x.collectionError));
    var c12 := c11 + TextBytes(x.collectionError);
    TextBytesIs(buf + c12, x.normalizedField);
    Then(buf, c12, TextBytes(x.normalizedField));
    var c13 := c12 + TextBytes(x.normalizedField);
    TextBytesIs(buf + c13, x.rawField);
    Then(buf, c13, TextBytes(x.rawField));
  }

  function ConfidenceBytes(x: Confidence<Pattern>): seq<byte> {
    Byte(x.cls) + Long(x.numerator) + Long(x.denominator) + TextBytes(x.derivation)
  }

  lemma ConfidenceBytesIs(buf: seq<byte>, x: Confidence<Pattern>)
    ensures PutConfidence(buf, x) == buf + ConfidenceBytes(x)
  {
    hide Byte, Long, PutStr, PutU64, PutU8, TextBytes;
    ByteIs(buf, x.cls);
    var c1 := Byte(x.cls);
    LongIs(buf + c1, x.numerator);
    Then(buf, c1, Long(x.numerator));
    var c2 := c1 + Long(x.numerator);
    LongIs(buf + c2, x.denominator);
    Then(buf, c2, Long(x.denominator));
    var c3 := c2 + Long(x.denominator);
    TextBytesIs(buf + c3, x.derivation);
    Then(buf, c3, TextBytes(x.derivation));
  }

  function MeasurementBytes(x: Measurement<Pattern>): seq<byte> {
    TextBytes(x.normalizedField) + TextBytes(x.rawField) + ValueBytes(x.value) + Byte(x.classification) +
    ProvenanceBytes(x.provenance)
  }

  lemma MeasurementBytesIs(buf: seq<byte>, x: Measurement<Pattern>)
    ensures PutMeasurement(buf, x) == buf + MeasurementBytes(x)
  {
    hide Byte, ProvenanceBytes, PutProvenance, PutStr, PutU8, PutValue, TextBytes, ValueBytes;
    TextBytesIs(buf, x.normalizedField);
    var c1 := TextBytes(x.normalizedField);
    TextBytesIs(buf + c1, x.rawField);
    Then(buf, c1, TextBytes(x.rawField));
    var c2 := c1 + TextBytes(x.rawField);
    ValueBytesIs(buf + c2, x.value);
    Then(buf, c2, ValueBytes(x.value));
    var c3 := c2 + ValueBytes(x.value);
    ByteIs(buf + c3, x.classification);
    Then(buf, c3, Byte(x.classification));
    var c4 := c3 + Byte(x.classification);
    ProvenanceBytesIs(buf + c4, x.provenance);
    Then(buf, c4, ProvenanceBytes(x.provenance));
  }

  /** The uncertainty of the time last seen is not written. */
  function SourceDescriptorBytes(x: SourceDescriptor): seq<byte> {
    Long(x.sourceId) + Long(x.generation) + Byte(x.kind) + TextBytes(x.name) + Byte(x.reliability) +
    TextBytes(x.endpoint) + Signed(x.lastSeen.wall) + Long(x.lastSeen.mono) + Flag(x.synthetic)
  }

  lemma SourceDescriptorBytesIs(buf: seq<byte>, x: SourceDescriptor)
    ensures PutSourceDescriptor(buf, x) == buf + SourceDescriptorBytes(x)
  {
    hide Byte, Flag, Long, PutBool, PutI64, PutStr, PutU64, PutU8, Signed, TextBytes;
    LongIs(buf, x.sourceId);
    var c1 := Long(x.sourceId);
    LongIs(buf + c1, x.generation);
    Then(buf, c1, Long(x.generation));
    var c2 := c1 + Long(x.generation);
    ByteIs(buf + c2, x.kind);
    Then(buf, c2, Byte(x.kind));
    var c3 := c2 + Byte(x.kind);
    TextBytesIs(buf + c3, x.name);
    Then(buf, c3, TextBytes(x.name));
    var c4 := c3 + TextBytes(x.name);
    ByteIs(buf + c4, x.reliability);
    Then(buf, c4, Byte(x.reliability));
    var c5 := c4 + Byte(x.reliability);
    TextBytesIs(buf + c5, x.endpoint);
    Then(buf, c5, TextBytes(x.endpoint));
    var c6 := c5 + TextBytes(x.endpoint);
    SignedIs(buf + c6, x.lastSeen.wall);
    Then(buf, c6, Signed(x.lastSeen.wall));
    var c7 := c6 + Signed(x.lastSeen.wall);
    LongIs(buf + c7, x.lastSeen.mono);
    Then(buf, c7, Long(x.lastSeen.mono));
    var c8 := c7 + Long(x.lastSeen.mono);
    FlagIs(buf + c8, x.synthetic);
    Then(buf, c8, Flag(x.synthetic));
  }

  function QueueDescriptorBytes(x: QueueDescriptor): seq<byte> {
    TextBytes(x.queueName) + Byte(x.state) + Word(x.depth) + Long(x.oldestAgeNs) + Long(x.headWaitNs) +
    Long(x.expectedWaitNs) + Word(x.capacity)
  }

  lemma QueueDescriptorBytesIs(buf: seq<byte>, x: QueueDescriptor)
    ensures PutQueueDescriptor(buf, x) == buf + QueueDescriptorBytes(x)
  {
    hide Byte, Long, PutStr, PutU32, PutU64, PutU8, TextBytes, Word;
    TextBytesIs(buf, x.queueName);
    var c1 := TextBytes(x.queueName);
    ByteIs(buf + c1, x.state);
    Then(buf, c1, Byte(x.state));
    var c2 := c1 + Byte(x.state);
    WordIs(buf + c2, x.depth);
    Then(buf, c2, Word(x.depth));
    var c3 := c2 + Word(x.depth);
    LongIs(buf + c3, x.oldestAgeNs);
    Then(buf, c3, Long(x.oldestAgeNs));
    var c4 := c3 + Long(x.oldestAgeNs);
    LongIs(buf + c4, x.headWaitNs);
    Then(buf, c4, Long(x.headWaitNs));
    var c5 := c4 + Long(x.headWaitNs);
    LongIs(buf + c5, x.expectedWaitNs);
    Then(buf, c5, Long(x.expectedWaitNs));
    var c6 := c5 + Long(x.expectedWaitNs);
    WordIs(buf + c6, x.capacity);
    Then(buf, c6, Word(x.capacity));
  }

  function MemoryDescriptorBytes(x: MemoryDescriptor<Pattern>): seq<byte> {
    Long(x.totalBytes) + Long(x.freeBytes) + Long(x.usedBytes) + Byte(x.pressure) + Long(x.pressureRatio)
  }

  lemma MemoryDescriptorBytesIs(buf: seq<byte>, x: MemoryDescriptor<Pattern>)
    ensures PutMemoryDescriptor(buf, x) == buf + MemoryDescriptorBytes(x)
  {
    hide Byte, Long, PutU64, PutU8;
    LongIs(buf, x.totalBytes);
    var c1 := Long(x.totalBytes);
    LongIs(buf + c1, x.freeBytes);
    Then(buf, c1, Long(x.freeBytes));
    var c2 := c1 + Long(x.freeBytes);
    LongIs(buf + c2, x.usedBytes);
    Then(buf, c2, Long(x.usedBytes));
    var c3 := c2 + Long(x.usedBytes);
    ByteIs(buf + c3, x.pressure);
    Then(buf, c3, Byte(x.pressure));
    var c4 := c3 + Byte(x.pressure);
    LongIs(buf + c4, x.pressureRatio);
    Then(buf, c4, Long(x.pressureRatio));
  }

  function LocalityDescriptorBytes(x: LocalityDescriptor<Pattern>): seq<byte> {
    Byte(x.kind) + TextBytes(x.stateKey) + Long(x.deviceId) + Long(x.nodeId) + Flag(x.present) + Long(x.benefit)
  }

  lemma LocalityDescriptorBytesIs(buf: seq<byte>, x: LocalityDescriptor<Pattern>)
    ensures PutLocalityDescriptor(buf, x) == buf + LocalityDescriptorBytes(x)
  {
    hide Byte, Flag, Long, PutBool, PutStr, PutU64, PutU8, TextBytes;
    ByteIs(buf, x.kind);
    var c1 := Byte(x.kind);
    TextBytesIs(buf + c1, x.stateKey);
    Then(buf, c1, TextBytes(x.stateKey));
    var c2 := c1 + TextBytes(x.stateKey);
    LongIs(buf + c2, x.deviceId);
    Then(buf, c2, Long(x.deviceId));
    var c3 := c2 + Long(x.deviceId);
    LongIs(buf + c3, x.nodeId);
    Then(buf, c3, Long(x.nodeId));
    var c4 := c3 + Long(x.nodeId);
    FlagIs(buf + c4, x.present);
    Then(buf, c4, Flag(x.present));
    var c5 := c4 + Flag(x.present);
    LongIs(buf + c5, x.benefit);
    Then(buf, c5, Long(x.benefit));
  }

  function ConstraintBytes(x: Constraint<Pattern>): seq<byte> {
    Byte(x.cls) + Byte(x.kind) + TextBytes(x.field) + ValueBytes(x.value) + TextBytes(x.requirementText) +
    Byte(x.classification) + ProvenanceBytes(x.provenance)
  }

  lemma ConstraintBytesIs(buf: seq<byte>, x: Constraint<Pattern>)
    ensures PutConstraint(buf, x) == buf + ConstraintBytes(x)
  {
    hide Byte, ProvenanceBytes, PutProvenance, PutStr, PutU8, PutValue, TextBytes, ValueBytes;
    ByteIs(buf, x.cls);
    var c1 := Byte(x.cls);
    ByteIs(buf + c1, x.kind);
    Then(buf, c1, Byte(x.kind));
    var c2 := c1 + Byte(x.kind);
    TextBytesIs(buf + c2, x.field);
    Then(buf, c2, TextBytes(x.field));
    var c3 := c2 + TextBytes(x.field);
    ValueBytesIs(buf + c3, x.value);
    Then(buf, c3, ValueBytes(x.value));
    var c4 := c3 + ValueBytes(x.value);
    TextBytesIs(buf + c4, x.requirementText);
    Then(buf, c4, TextBytes(x.requirementText));
    var c5 := c4 + TextBytes(x.requirementText);
    ByteIs(buf + c5, x.classification);
    Then(buf, c5, Byte(x.classification));
    var c6 := c5 + Byte(x.classification);
    ProvenanceBytesIs(buf + c6, x.provenance);
    Then(buf, c6, ProvenanceBytes(x.provenance));
  }

  function CostComponentBytes(x: CostComponent<Pattern>): seq<byte> {
    Byte(x.kind) + TextBytes(x.title) + Long(x.cost) + Long(x.policyWeight) + Byte(x.classification) +
    ProvenanceBytes(x.provenance) + TextBytes(x.detail)
  }

  lemma CostComponentBytesIs(buf: seq<byte>, x: CostComponent<Pattern>)
    ensures PutCostComponent(buf, x) == buf + CostComponentBytes(x)
  {
    hide Byte, Long, ProvenanceBytes, PutProvenance, PutStr, PutU64, PutU8, TextBytes;
    ByteIs(buf, x.kind);
    var c1 := Byte(x.kind);
    TextBytesIs(buf + c1, x.title);
    Then(buf, c1, TextBytes(x.title));
    var c2 := c1 + TextBytes(x.title);
    LongIs(buf + c2, x.cost);
    Then(buf, c2, Long(x.cost));
    var c3 := c2 + Long(x.cost);
    LongIs(buf + c3, x.policyWeight);
    Then(buf, c3, Long(x.policyWeight));
    var c4 := c3 + Long(x.policyWeight);
    ByteIs(buf + c4, x.classification);
    Then(buf, c4, Byte(x.classification));
    var c5 := c4 + Byte(x.classification);
    ProvenanceBytesIs(buf + c5, x.provenance);
    Then(buf, c5, ProvenanceBytes(x.provenance));
    var c6 := c5 + ProvenanceBytes(x.provenance);
    TextBytesIs(buf + c6, x.detail);
    Then(buf, c6, TextBytes(x.detail));
  }

  function ScoreComponentBytes(x: ScoreComponent<Pattern>): seq<byte> {
    Byte(x.kind) + TextBytes(x.title) + Long(x.value) + Byte(x.classification) + ProvenanceBytes(x.provenance)
  }

  lemma ScoreComponentBytesIs(buf: seq<byte>, x: ScoreComponent<Pattern>)
    ensures PutScoreComponent(buf, x) == buf + ScoreComponentBytes(x)
  {
    hide Byte, Long, ProvenanceBytes, PutProvenance, PutStr, PutU64, PutU8, TextBytes;
    ByteIs(buf, x.kind);
    var c1 := Byte(x.kind);
    TextBytesIs(buf + c1, x.title);
    Then(buf, c1, TextBytes(x.title));
    var c2 := c1 + TextBytes(x.title);
    LongIs(buf + c2, x.value);
    Then(buf, c2, Long(x.value));
    var c3 := c2 + Long(x.value);
    ByteIs(buf + c3, x.classification);
    Then(buf, c3, Byte(x.classification));
    var c4 := c3 + Byte(x.classification);
    ProvenanceBytesIs(buf + c4, x.provenance);
    Then(buf, c4, ProvenanceBytes(x.provenance));
  }

  lemma TextsAre(buf: seq<byte>, v: seq<Text>)
    ensures PutVec(buf, v, PutStr) == buf + List(v, TextBytes)
  {
    hide PutStr, TextBytes, PutVec, List;
    forall b, y {:trigger PutStr(b, y)}
      ensures PutStr(b, y) == b + TextBytes(y)
    {
      TextBytesIs(b, y);
    }
    ListIs(buf, v, PutStr, TextBytes);
  }

  lemma LocalityDescriptorsAre(buf: seq<byte>, v: seq<LocalityDescriptor<Pattern>>)
    ensures PutVec(buf, v, PutLocalityDescriptor) == buf + List(v, LocalityDescriptorBytes)
  {
    hide PutLocalityDescriptor, LocalityDescriptorBytes, PutVec, List;
    forall b, y {:trigger PutLocalityDescriptor(b, y)}
      ensures PutLocalityDescriptor(b, y) == b + LocalityDescriptorBytes(y)
    {
      LocalityDescriptorBytesIs(b, y);
    }
    ListIs(buf, v, PutLocalityDescriptor, LocalityDescriptorBytes);
  }

  lemma CostComponentsAre(buf: seq<byte>, v: seq<CostComponent<Pattern>>)
    ensures PutVec(buf, v, PutCostComponent) == buf + List(v, CostComponentBytes)
  {
    hide PutCostComponent, CostComponentBytes, PutVec, List;
    forall b, y {:trigger PutCostComponent(b, y)}
      ensures PutCostComponent(b, y) == b + CostComponentBytes(y)
    {
      CostComponentBytesIs(b, y);
    }
    ListIs(buf, v, PutCostComponent, CostComponentBytes);
  }

  lemma OptionalTextIs(buf: seq<byte>, o: Option<Text>)
    ensures PutOption(buf, o, PutStr) == buf + Maybe(o, TextBytes)
  {
    hide PutStr, TextBytes, PutOption, Maybe;
    forall b, y {:trigger PutStr(b, y)}
      ensures PutStr(b, y) == b + TextBytes(y)
    {
      TextBytesIs(b, y);
    }
    MaybeIs(buf, o, PutStr, TextBytes);
  }

  lemma OptionalByteIs(buf: seq<byte>, o: Option<byte>)
    ensures PutOption(buf, o, PutU8) == buf + Maybe(o, Byte)
  {
    hide PutU8, Byte, PutOption, Maybe;
    forall b, y {:trigger PutU8(b, y)}
      ensures PutU8(b, y) == b + Byte(y)
    {
      ByteIs(b, y);
    }
    MaybeIs(buf, o, PutU8, Byte);
  }

  function CandidateBytes(x: Candidate<Pattern>): seq<byte> {
    Long(x.candidateId) + Long(x.nodeId) + Long(x.deviceId) + Long(x.generation) + TextBytes(x.architecture) +
    List(x.capabilities, TextBytes) + Byte(x.health) + MemoryDescriptorBytes(x.memory) +
    QueueDescriptorBytes(x.queue) + List(x.locality, LocalityDescriptorBytes) + List(x.costs, CostComponentBytes) +
    Long(x.totalCost) + Maybe(x.rejectionReasonText, TextBytes) + Maybe(x.rejectionReason, Byte)
  }

  lemma CandidateBytesIs(buf: seq<byte>, x: Candidate<Pattern>)
    ensures PutCandidate(buf, x) == buf + CandidateBytes(x)
  {
    hide Byte, CostComponentBytes, List, LocalityDescriptorBytes, Long, Maybe, MemoryDescriptorBytes,
      PutCostComponent, PutLocalityDescriptor, PutMemoryDescriptor, PutOption, PutQueueDescriptor, PutStr, PutU64,
      PutU8, PutVec, QueueDescriptorBytes, TextBytes;
    LongIs(buf, x.candidateId);
    var c1 := Long(x.candidateId);
    LongIs(buf + c1, x.nodeId);
    Then(buf, c1, Long(x.nodeId));
    var c2 := c1 + Long(x.nodeId);
    LongIs(buf + c2, x.deviceId);
    Then(buf, c2, Long(x.deviceId));
    var c3 := c2 + Long(x.deviceId);
    LongIs(buf + c3, x.generation);
    Then(buf, c3, Long(x.generation));
    var c4 := c3 + Long(x.generation);
    TextBytesIs(buf + c4, x.architecture);
    Then(buf, c4, TextBytes(x.architecture));
    var c5 := c4 + TextBytes(x.architecture);
    TextsAre(buf + c5, x.capabilities);
    Then(buf, c5, List(x.capabilities, TextBytes));
    var c6 := c5 + List(x.capabilities, TextBytes);
    ByteIs(buf + c6, x.health);
    Then(buf, c6, Byte(x.health));
    var c7 := c6 + Byte(x.health);
    MemoryDescriptorBytesIs(buf + c7, x.memory);
    Then(buf, c7, MemoryDescriptorBytes(x.memory));
    var c8 := c7 + MemoryDescriptorBytes(x.memory);
    QueueDescriptorBytesIs(buf + c8, x.queue);
    Then(buf, c8, QueueDescriptorBytes(x.queue));
    var c9 := c8 + QueueDescriptorBytes(x.queue);
    LocalityDescriptorsAre(buf + c9, x.locality);
    Then(buf, c9, List(x.locality, LocalityDescriptorBytes));
    var c10 := c9 + List(x.locality, LocalityDescriptorBytes);
    CostComponentsAre(buf + c10, x.costs);
    Then(buf, c10, List(x.costs, CostComponentBytes));
    var c11 := c10 + List(x.costs, CostComponentBytes);
    LongIs(buf + c11, x.totalCost);
    Then(buf, c11, Long(x.totalCost));
    var c12 := c11 + Long(x.totalCost);
    OptionalTextIs(buf + c12, x.rejectionReasonText);
    Then(buf, c12, Maybe(x.rejectionReasonText, TextBytes));
    var c13 := c12 + Maybe(x.rejectionReasonText, TextBytes);
    OptionalByteIs(buf + c13, x.rejectionReason);
    Then(buf, c13, Maybe(x.rejectionReason, Byte));
  }

  lemma CandidatesAre(buf: seq<byte>, v: seq<Candidate<Pattern>>)
    ensures PutVec(buf, v, PutCandidate) == buf + List(v, CandidateBytes)
  {
    hide PutCandidate, CandidateBytes, PutVec, List;
    forall b, y {:trigger PutCandidate(b, y)}
      ensures PutCandidate(b, y) == b + CandidateBytes(y)
    {
      CandidateBytesIs(b, y);
    }
    ListIs(buf, v, PutCandidate, CandidateBytes);
  }

  lemma ProvenancesAre(buf: seq<byte>, v: seq<Provenance>)
    ensures PutVec(buf, v, PutProvenance) == buf + List(v, ProvenanceBytes)
  {
    hide PutProvenance, ProvenanceBytes, PutVec, List;
    forall b, y {:trigger PutProvenance(b, y)}
      ensures PutProvenance(b, y) == b + ProvenanceBytes(y)
    {
      ProvenanceBytesIs(b, y);
    }
    ListIs(buf, v, PutProvenance, ProvenanceBytes);
  }

  function CandidateSetBytes(x: CandidateSet<Pattern>): seq<byte> {
    List(x.candidates, CandidateBytes) + Flag(x.complete) + Flag(x.reconstructed) + Byte(x.classification) +
    List(x.sourceChain, ProvenanceBytes) + List(x.missingFields, TextBytes)
  }

  lemma CandidateSetBytesIs(buf: seq<byte>, x: CandidateSet<Pattern>)
    ensures PutCandidateSet(buf, x) == buf + CandidateSetBytes(x)
  {
    hide Byte, CandidateBytes, Flag, List, ProvenanceBytes, PutBool, PutCandidate, PutProvenance, PutStr, PutU8,
      PutVec, TextBytes;
    CandidatesAre(buf, x.candidates);
    var c1 := List(x.candidates, CandidateBytes);
    FlagIs(buf + c1, x.complete);
    Then(buf, c1, Flag(x.complete));
    var c2 := c1 + Flag(x.complete);
    FlagIs(buf + c2, x.reconstructed);
    Then(buf, c2, Flag(x.reconstructed));
    var c3 := c2 + Flag(x.reconstructed);
    ByteIs(buf + c3, x.classification);
    Then(buf, c3, Byte(x.classification));
    var c4 := c3 + Byte(x.classification);
    ProvenancesAre(buf + c4, x.sourceChain);
    Then(buf, c4, List(x.sourceChain, ProvenanceBytes));
    var c5 := c4 + List(x.sourceChain, ProvenanceBytes);
    TextsAre(buf + c5, x.missingFields);
    Then(buf, c5, List(x.missingFields, TextBytes));
  }

  function OutcomeBytes(x: Outcome): seq<byte> {
    Long(x.decisionId) + Long(x.attemptId) + Byte(x.disposition) + Signed(x.startDelayNs) + Signed(x.durationNs) +
    Signed(x.predictedDurationNs) + Long(x.memoryUsedBytes) + TextBytes(x.error) + Byte(x.classification) +
    ProvenanceBytes(x.provenance)
  }

  lemma OutcomeBytesIs(buf: seq<byte>, x: Outcome)
    ensures PutOutcome(buf, x) == buf + OutcomeBytes(x)
  {
    hide Byte, Long, ProvenanceBytes, PutI64, PutProvenance, PutStr, PutU64, PutU8, Signed, TextBytes;
    LongIs(buf, x.decisionId);
    var c1 := Long(x.decisionId);
    LongIs(buf + c1, x.attemptId);
    Then(buf, c1, Long(x.attemptId));
    var c2 := c1 + Long(x.attemptId);
    ByteIs(buf + c2, x.disposition);
    Then(buf, c2, Byte(x.disposition));
    var c3 := c2 + Byte(x.disposition);
    SignedIs(buf + c3, x.startDelayNs);
    Then(buf, c3, Signed(x.startDelayNs));
    var c4 := c3 + Signed(x.startDelayNs);
    SignedIs(buf + c4, x.durationNs);
    Then(buf, c4, Signed(x.durationNs));
    var c5 := c4 + Signed(x.durationNs);
    SignedIs(buf + c5, x.predictedDurationNs);
    Then(buf, c5, Signed(x.predictedDurationNs));
    var c6 := c5 + Signed(x.predictedDurationNs);
    LongIs(buf + c6, x.memoryUsedBytes);
    Then(buf, c6, Long(x.memoryUsedBytes));
    var c7 := c6 + Long(x.memoryUsedBytes);
    TextBytesIs(buf + c7, x.error);
    Then(buf, c7, TextBytes(x.error));
    var c8 := c7 + TextBytes(x.error);
    ByteIs(buf + c8, x.classification);
    Then(buf, c8, Byte(x.classification));
    var c9 := c8 + Byte(x.classification);
    ProvenanceBytesIs(buf + c9, x.provenance);
    Then(buf, c9, ProvenanceBytes(x.provenance));
  }

  lemma MeasurementsAre(buf: seq<byte>, v: seq<Measurement<Pattern>>)
    ensures PutVec(buf, v, PutMeasurement) == buf + List(v, MeasurementBytes)
  {
    hide PutMeasurement, MeasurementBytes, PutVec, List;
    forall b, y {:trigger PutMeasurement(b, y)}
      ensures PutMeasurement(b, y) == b + MeasurementBytes(y)
    {
      MeasurementBytesIs(b, y);
    }
    ListIs(buf, v, PutMeasurement, MeasurementBytes);
  }

  function ObservationBytes(x: Observation<Pattern>): seq<byte> {
    Long(x.observationId) + Long(x.observationGeneration) + Signed(x.revision) + Long(x.sourceId) +
    Long(x.sourceGeneration) + Byte(x.sourceType) + Signed(x.timestamp.wall) + Long(x.timestamp.mono) +
    Signed(x.timestamp.uncertaintyNs) + Long(x.workerBoot) + Long(x.coordinatorEpoch) + Long(x.workloadId) +
    Long(x.requestId) + Long(x.tenantId) + Long(x.namespaceId) + Long(x.nodeId) + Long(x.deviceId) +
    Long(x.decisionId) + Long(x.attemptId) + Long(x.epoch) + Byte(x.lifecycle) + List(x.fields, MeasurementBytes) +
    Byte(x.reliability) + Flag(x.synthetic)
  }

  lemma ObservationBytesIs(buf: seq<byte>, x: Observation<Pattern>)
    ensures PutObservation(buf, x) == buf + ObservationBytes(x)
  {
    hide Byte, Flag, List, Long, MeasurementBytes, PutBool, PutI64, PutMeasurement, PutU64, PutU8, PutVec, Signed;
    LongIs(buf, x.observationId);
    var c1 := Long(x.observationId);
    LongIs(buf + c1, x.observationGeneration);
    Then(buf, c1, Long(x.observationGeneration));
    var c2 := c1 + Long(x.observationGeneration);
    SignedIs(buf + c2, x.revision);
    Then(buf, c2, Signed(x.revision));
    var c3 := c2 + Signed(x.revision);
    LongIs(buf + c3, x.sourceId);
    Then(buf, c3, Long(x.sourceId));
    var c4 := c3 + Long(x.sourceId);
    LongIs(buf + c4, x.sourceGeneration);
    Then(buf, c4, Long(x.sourceGeneration));
    var c5 := c4 + Long(x.sourceGeneration);
    ByteIs(buf + c5, x.sourceType);
    Then(buf, c5, Byte(x.sourceType));
    var c6 := c5 + Byte(x.sourceType);
    SignedIs(buf + c6, x.timestamp.wall);
    Then(buf, c6, Signed(x.timestamp.wall));
    var c7 := c6 + Signed(x.timestamp.wall);
    LongIs(buf + c7, x.timestamp.mono);
    Then(buf, c7, Long(x.timestamp.mono));
    var c8 := c7 + Long(x.timestamp.mono);
    SignedIs(buf + c8, x.timestamp.uncertaintyNs);
    Then(buf, c8, Signed(x.timestamp.uncertaintyNs));
    var c9 := c8 + Signed(x.timestamp.uncertaintyNs);
    LongIs(buf + c9, x.workerBoot);
    Then(buf, c9, Long(x.workerBoot));
    var c10 := c9 + Long(x.workerBoot);
    LongIs(buf + c10, x.coordinatorEpoch);
    Then(buf, c10, Long(x.coordinatorEpoch));
    var c11 := c10 + Long(x.coordinatorEpoch);
    LongIs(buf + c11, x.workloadId);
    Then(buf, c11, Long(x.workloadId));
    var c12 := c11 + Long(x.workloadId);
    LongIs(buf + c12, x.requestId);
    Then(buf, c12, Long(x.requestId));
    var c13 := c12 + Long(x.requestId);
    LongIs(buf + c13, x.tenantId);
    Then(buf, c13, Long(x.tenantId));
    var c14 := c13 + Long(x.tenantId);
    LongIs(buf + c14, x.namespaceId);
    Then(buf, c14, Long(x.namespaceId));
    var c15 := c14 + Long(x.namespaceId);
    LongIs(buf + c15, x.nodeId);
    Then(buf, c15, Long(x.nodeId));
    var c16 := c15 + Long(x.nodeId);
    LongIs(buf + c16, x.deviceId);
    Then(buf, c16, Long(x.deviceId));
    var c17 := c16 + Long(x.deviceId);
    LongIs(buf + c17, x.decisionId);
    Then(buf, c17, Long(x.decisionId));
    var c18 := c17 + Long(x.decisionId);
    LongIs(buf + c18, x.attemptId);
    Then(buf, c18, Long(x.attemptId));
    var c19 := c18 + Long(x.attemptId);
    LongIs(buf + c19, x.epoch);
    Then(buf, c19, Long(x.epoch));
    var c20 := c19 + Long(x.epoch);
    ByteIs(buf + c20, x.lifecycle);
    Then(buf, c20, Byte(x.lifecycle));
    var c21 := c20 + Byte(x.lifecycle);
    MeasurementsAre(buf + c21, x.fields);
    Then(buf, c21, List(x.fields, MeasurementBytes));
    var c22 := c21 + List(x.fields, MeasurementBytes);
    ByteIs(buf + c22, x.reliability);
    Then(buf, c22, Byte(x.reliability));
    var c23 := c22 + Byte(x.reliability);
    FlagIs(buf + c23, x.synthetic);
    Then(buf, c23, Flag(x.synthetic));
  }

  lemma LongsAre(buf: seq<byte>, v: seq<u64>)
    ensures PutVec(buf, v, PutU64) == buf + List(v, Long)
  {
    hide PutU64, Long, PutVec, List;
    forall b, y {:trigger PutU64(b, y)}
      ensures PutU64(b, y) == b + Long(y)
    {
      LongIs(b, y);
    }
    ListIs(buf, v, PutU64, Long);
  }

  lemma ConstraintsAre(buf: seq<byte>, v: seq<Constraint<Pattern>>)
    ensures PutVec(buf, v, PutConstraint) == buf + List(v, ConstraintBytes)
  {
    hide PutConstraint, ConstraintBytes, PutVec, List;
    forall b, y {:trigger PutConstraint(b, y)}
      ensures PutConstraint(b, y) == b + ConstraintBytes(y)
    {
      ConstraintBytesIs(b, y);
    }
    ListIs(buf, v, PutConstraint, ConstraintBytes);
  }

  lemma ScoreComponentsAre(buf: seq<byte>, v: seq<ScoreComponent<Pattern>>)
    ensures PutVec(buf, v, PutScoreComponent) == buf + List(v, ScoreComponentBytes)
  {
    hide PutScoreComponent, ScoreComponentBytes, PutVec, List;
    forall b, y {:trigger PutScoreComponent(b, y)}
      ensures PutScoreComponent(b, y) == b + ScoreComponentBytes(y)
    {
      ScoreComponentBytesIs(b, y);
    }
    ListIs(buf, v, PutScoreComponent, ScoreComponentBytes);
  }

  function DecisionHeadBytes(x: Decision<Pattern>): seq<byte> {
    Long(x.decisionId) + Long(x.attemptId) + Long(x.placementGeneration) + Long(x.observationGeneration) +
    Long(x.epoch) + Long(x.policyGeneration) + Long(x.workloadId) + Long(x.requestId) + Long(x.tenantId) +
    Long(x.namespaceId) + Long(x.nodeId) + Long(x.deviceId) + CandidateSetBytes(x.candidateSet) +
    Long(x.selectedCandidate) + List(x.rejectedCandidates, Long) + List(x.hardConstraints, ConstraintBytes) +
    List(x.softPreferences, ConstraintBytes) + List(x.scoreComponents, ScoreComponentBytes) +
    List(x.costComponents, CostComponentBytes)
  }

  lemma DecisionHeadBytesIs(buf: seq<byte>, x: Decision<Pattern>)
    ensures PutDecisionHead(buf, HeadOf(x)) == buf + DecisionHeadBytes(x)
  {
    hide CandidateSetBytes, ConstraintBytes, CostComponentBytes, List, Long, PutCandidateSet, PutConstraint,
      PutCostComponent, PutScoreComponent, PutU64, PutVec, ScoreComponentBytes;
    LongIs(buf, x.decisionId);
    var c1 := Long(x.decisionId);
    LongIs(buf + c1, x.attemptId);
    Then(buf, c1, Long(x.attemptId));
    var c2 := c1 + Long(x.attemptId);
    LongIs(buf + c2, x.placementGeneration);
    Then(buf, c2, Long(x.placementGeneration));
    var c3 := c2 + Long(x.placementGeneration);
    LongIs(buf + c3, x.observationGeneration);
    Then(buf, c3, Long(x.observationGeneration));
    var c4 := c3 + Long(x.observationGeneration);
    LongIs(buf + c4, x.epoch);
    Then(buf, c4, Long(x.epoch));
    var c5 := c4 + Long(x.epoch);
    LongIs(buf + c5, x.policyGeneration);
    Then(buf, c5, Long(x.policyGeneration));
    var c6 := c5 + Long(x.policyGeneration);
    LongIs(buf + c6, x.workloadId);
    Then(buf, c6, Long(x.workloadId));
    var c7 := c6 + Long(x.workloadId);
    LongIs(buf + c7, x.requestId);
    Then(buf, c7, Long(x.requestId));
    var c8 := c7 + Long(x.requestId);
    LongIs(buf + c8, x.tenantId);
    Then(buf, c8, Long(x.tenantId));
    var c9 := c8 + Long(x.tenantId);
    LongIs(buf + c9, x.namespaceId);
    Then(buf, c9, Long(x.namespaceId));
    var c10 := c9 + Long(x.namespaceId);
    LongIs(buf + c10, x.nodeId);
    Then(buf, c10, Long(x.nodeId));
    var c11 := c10 + Long(x.nodeId);
    LongIs(buf + c11, x.deviceId);
    Then(buf, c11, Long(x.deviceId));
    var c12 := c11 + Long(x.deviceId);
    CandidateSetBytesIs(buf + c12, x.candidateSet);
    Then(buf, c12, CandidateSetBytes(x.candidateSet));
    var c13 := c12 + CandidateSetBytes(x.candidateSet);
    LongIs(buf + c13, x.selectedCandidate);
    Then(buf, c13, Long(x.selectedCandidate));
    var c14 := c13 + Long(x.selectedCandidate);
    LongsAre(buf + c14, x.rejectedCandidates);
    Then(buf, c14, List(x.rejectedCandidates, Long));
    var c15 := c14 + List(x.rejectedCandidates, Long);
    ConstraintsAre(buf + c15, x.hardConstraints);
    Then(buf, c15, List(x.hardConstraints, ConstraintBytes));
    var c16 := c15 + List(x.hardConstraints, ConstraintBytes);
    ConstraintsAre(buf + c16, x.softPreferences);
    Then(buf, c16, List(x.softPreferences, ConstraintBytes));
    var c17 := c16 + List(x.softPreferences, ConstraintBytes);
    ScoreComponentsAre(buf + c17, x.scoreComponents);
    Then(buf, c17, List(x.scoreComponents, ScoreComponentBytes));
    var c18 := c17 + List(x.scoreComponents, ScoreComponentBytes);
    CostComponentsAre(buf + c18, x.costComponents);
    Then(buf, c18, List(x.costComponents, CostComponentBytes));
  }

  lemma ReasonsAre(buf: seq<byte>, v: seq<Reason>)
    ensures PutVec(buf, v, PutReason) == buf + List(v, ReasonBytes)
  {
    hide PutReason, ReasonBytes, PutVec, List;
    forall b, y {:trigger PutReason(b, y)}
      ensures PutReason(b, y) == b + ReasonBytes(y)
    {
      ReasonBytesIs(b, y);
    }
    ListIs(buf, v, PutReason, ReasonBytes);
  }

  lemma OptionalOutcomeIs(buf: seq<byte>, o: Option<Outcome>)
    ensures PutOption(buf, o, PutOutcome) == buf + Maybe(o, OutcomeBytes)
  {
    hide PutOutcome, OutcomeBytes, PutOption, Maybe;
    forall b, y {:trigger PutOutcome(b, y)}
      ensures PutOutcome(b, y) == b + OutcomeBytes(y)
    {
      OutcomeBytesIs(b, y);
    }
    MaybeIs(buf, o, PutOutcome, OutcomeBytes);
  }

  function DecisionTailBytes(x: Decision<Pattern>): seq<byte> {
    Byte(x.tieBreak) + TextBytes(x.tieBreakReason) + TextBytes(x.selectedReason) +
    List(x.rejectionReasons, ReasonBytes) + ConfidenceBytes(x.confidence) + Byte(x.classification) +
    Byte(x.determinism) + ProvenanceBytes(x.provenance) + Maybe(x.outcome, OutcomeBytes) + Byte(x.lifecycle)
  }

  lemma DecisionTailBytesIs(buf: seq<byte>, x: Decision<Pattern>)
    ensures PutDecisionTail(buf, TailOf(x)) == buf + DecisionTailBytes(x)
  {
    hide Byte, ConfidenceBytes, List, Maybe, OutcomeBytes, ProvenanceBytes, PutConfidence, PutOption, PutOutcome,
      PutProvenance, PutReason, PutStr, PutU8, PutVec, ReasonBytes, TextBytes;
    ByteIs(buf, x.tieBreak);
    var c1 := Byte(x.tieBreak);
    TextBytesIs(buf + c1, x.tieBreakReason);
    Then(buf, c1, TextBytes(x.tieBreakReason));
    var c2 := c1 + TextBytes(x.tieBreakReason);
    TextBytesIs(buf + c2, x.selectedReason);
    Then(buf, c2, TextBytes(x.selectedReason));
    var c3 := c2 + TextBytes(x.selectedReason);
    ReasonsAre(buf + c3, x.rejectionReasons);
    Then(buf, c3, List(x.rejectionReasons, ReasonBytes));
    var c4 := c3 + List(x.rejectionReasons, ReasonBytes);
    ConfidenceBytesIs(buf + c4, x.confidence);
    Then(buf, c4, ConfidenceBytes(x.confidence));
    var c5 := c4 + ConfidenceBytes(x.confidence);
    ByteIs(buf + c5, x.classification);
    Then(buf, c5, Byte(x.classification));
    var c6 := c5 + Byte(x.classification);
    ByteIs(buf + c6, x.determinism);
    Then(buf, c6, Byte(x.determinism));
    var c7 := c6 + Byte(x.determinism);
    ProvenanceBytesIs(buf + c7, x.provenance);
    Then(buf, c7, ProvenanceBytes(x.provenance));
    var c8 := c7 + ProvenanceBytes(x.provenance);
    OptionalOutcomeIs(buf + c8, x.outcome);
    Then(buf, c8, Maybe(x.outcome, OutcomeBytes));
    var c9 := c8 + Maybe(x.outcome, OutcomeBytes);
    ByteIs(buf + c9, x.lifecycle);
    Then(buf, c9, Byte(x.lifecycle));
  }

  function DecisionBytes(x: Decision<Pattern>): seq<byte> {
    DecisionHeadBytes(x) + DecisionTailBytes(x)
  }

  lemma DecisionBytesIs(buf: seq<byte>, x: Decision<Pattern>)
    ensures PutDecision(buf, x) == buf + DecisionBytes(x)
  {
    hide PutDecisionHead, PutDecisionTail, DecisionHeadBytes, DecisionTailBytes, HeadOf, TailOf;
    DecisionHeadBytesIs(buf, x);
    DecisionTailBytesIs(buf + DecisionHeadBytes(x), x);
    Then(buf, DecisionHeadBytes(x), DecisionTailBytes(x));
  }

  // ----- around records and frames

  /** Magic, version, kind and length of the body, and the body. */
  function Headed(kind: byte, body: seq<byte>, version: u32): seq<byte> {
    [0x52, 0x42, 0x4D, 0x50] + Word(version) + Byte(kind) + Little(|body|, 8) + body
  }

  /** A record in a file is headed and followed by the digest of all that; it is accepted by kind, from
      1 to 8, and with a body of at most 64 MiB; version 1 is what is written and read. */
  lemma EnvelopeBytes(r: Record, version: u32)
    ensures Envelope(r, version) == Headed(r.kind, r.body, version) + Sha256.Digest(Headed(r.kind, r.body, version))
    ensures Envelope(r) == Envelope(r, 1)
    ensures Loadable(r) <==> 1 <= r.kind <= 8 && |r.body| <= 67108864
  {
    hide Sha256.Digest, Little, LE, Headed, Prefix;
    PrefixBytes(r, version);
  }

  lemma PrefixBytes(r: Record, version: u32)
    ensures Prefix(r, version) == Headed(r.kind, r.body, version)
  {
    hide Little, LE;
    Magic(RECORD_MAGIC);
    LittleIs(version, 4);
    LittleIs(|r.body|, 8);
    assert [] + LE(RECORD_MAGIC, 4) == LE(RECORD_MAGIC, 4);
  }

  lemma Magic(magic: u32)
    ensures LE(magic, 4) == [magic % 256, magic / 256 % 256, magic / 65536 % 256, magic / 16777216]
  {
    LE4(magic);
  }

  lemma WordReads(data: seq<byte>, at: nat, x: u32)
    ensures at + 4 > |data| ==> GetU32(data, at) == Err(TruncatedData)
    ensures at + 4 <= |data| ==>
              GetU32(data, at).Ok? && GetU32(data, at).value.1 == at + 4
              && (GetU32(data, at).value.0 == x <==> data[at..at + 4] == Word(x))
  {
    hide Little, LE, FromLE;
    if at + 4 <= |data| {
      Pow256Words();
      LittleIs(x, 4);
      FromLEOfLE(x, 4);
      LEOfFromLE(data[at..at + 4]);
    }
  }

  lemma LongReads(data: seq<byte>, at: nat, x: u64)
    requires at + 8 <= |data| && data[at..at + 8] == Long(x)
    ensures GetU64(data, at) == Ok((x, at + 8))
  {
    hide Little, LE, FromLE;
    Pow256Words();
    LittleIs(x, 8);
    FromLEOfLE(x, 8);
  }

  /** What reading a record gives, said of the bytes, `n` being the length they announce: the fault of
      the first check that fails, or the record and where it ends. */
  lemma RecordFaults(data: seq<byte>, streaming: bool, expected: u32, n: u64)
    requires |data| >= 17 ==> data[9..17] == Long(n)
    ensures DecodeRecord(data, streaming, expected) ==
            if |data| < 4 then Err(TruncatedData)
            else if data[..4] != [0x52, 0x42, 0x4D, 0x50] then Err(CorruptData)
            else if |data| < 8 then Err(TruncatedData)
            else if data[4..8] != Word(expected) then Err(CodecError.UnknownVersion)
            else if |data| < 9 then Err(TruncatedData)
            else if data[8] == 0 || data[8] > 8 then Err(CorruptData)
            else if |data| < 17 then Err(TruncatedData)
            else if n > 67108864 then Err(CorruptData)
            else if |data| < 17 + n + 32 then Err(TruncatedData)
            else if !streaming && |data| > 17 + n + 32 then Err(TrailingData)
            else if data[17 + n..17 + n + 32] != Sha256.Digest(data[..17 + n]) then Err(CorruptData)
            else Ok((Record(data[8], data[17..17 + n]), 17 + n + 32))
  {
    hide GetU32, GetU64, Word, Sha256.Digest;
    WordReads(data, 0, RECORD_MAGIC);
    MagicWord();
    WordReads(data, 4, expected);
    if |data| >= 17 {
      LongReads(data, 9, n);
    } else {
      ShortLong(data);
    }
  }

  lemma MagicWord()
    ensures Word(RECORD_MAGIC) == [0x52, 0x42, 0x4D, 0x50]
  {
    hide LE, Little;
    LittleIs(RECORD_MAGIC, 4);
    Magic(RECORD_MAGIC);
  }

  lemma ShortLong(data: seq<byte>)
    requires |data| < 17
    ensures GetU64(data, 9) == Err(TruncatedData)
  {
  }

  function Framed(kind: byte, payload: seq<byte>, version: u32): seq<byte> {
    [0x46, 0x50, 0x4F, 0x50] + Word(version) + Byte(kind) + Little(|payload|, 4) + payload
  }

  /** A frame on the wire is magic, version, type, length of the payload and payload, followed by the
      checksum of all that; types go up to 11 and payloads to 16 MiB. */
  lemma WireBytes(f: P.Frame, version: u32)
    ensures P.Wire(f, version) ==
            Framed(f.kind, f.payload, version) + Word(Crc.CrcValue(Framed(f.kind, f.payload, version)))
    ensures P.ValidFrame(f) <==> f.kind <= 11 && |f.payload| <= 16777216
    ensures P.PROTOCOL_VERSION == 1
  {
    hide Crc.CrcValue, Little, LE, Framed, P.Checked;
    CheckedBytes(f, version);
    LittleIs(Crc.CrcValue(Framed(f.kind, f.payload, version)), 4);
  }

  lemma CheckedBytes(f: P.Frame, version: u32)
    ensures P.Checked(f, version) == Framed(f.kind, f.payload, version)
  {
    hide Little, LE;
    Magic(P.FRAME_MAGIC);
    LittleIs(version, 4);
    LittleIs(|f.payload|, 4);
  }

  /** The number in the bytes of a frame or record header. */
  function NumberAt(data: seq<byte>, at: nat): nat
    requires at + 4 <= |data|
  {
    data[at] as int + 256 * (data[at + 1] as int) + 65536 * (data[at + 2] as int) + 16777216 * (data[at + 3] as int)
  }

  /** What is wrong with a buffer that holds no frame: the first check that fails, said of its bytes. */
  lemma WireFaults(data: seq<byte>)
    ensures P.Fault(data) ==
            if |data| < 17 then Some(P.TruncatedHeader)
            else if data[..4] != [0x46, 0x50, 0x4F, 0x50] then Some(P.BadMagic)
            else if data[4..8] != [1, 0, 0, 0] then Some(P.UnknownVersion)
            else if data[8] > 11 then Some(P.UnknownType)
            else if NumberAt(data, 9) > 16777216 then Some(P.FrameError.Oversized)
            else if |data| < 13 + NumberAt(data, 9) + 4 then Some(P.Truncated)
            else
              var end := 13 + NumberAt(data, 9);
              if data[end..end + 4] != Word(Crc.CrcValue(data[..end])) then Some(P.ChecksumMismatch) else None
  {
    hide Crc.CrcValue, Little, LE, FromLE;
    if |data| >= 17 {
      SameNumber(data, 0, P.FRAME_MAGIC);
      SameNumber(data, 4, 1);
      Magic(P.FRAME_MAGIC);
      Magic(1);
      assert P.ReadU32(data, 9) == NumberAt(data, 9);
      var end := 13 + NumberAt(data, 9);
      if end + 4 <= |data| {
        SameNumber(data, end, Crc.CrcValue(data[..end]));
        LittleIs(Crc.CrcValue(data[..end]), 4);
      }
    }
  }

  lemma SameNumber(data: seq<byte>, at: nat, n: u32)
    requires at + 4 <= |data|
    ensures P.ReadU32(data, at) == n <==> data[at..at + 4] == LE(n, 4)
  {
    P.ReadU32OfLE(data, at, n);
  }

  /** The limits of a text: at most 64 MiB, and all there. */
  lemma TextLimits(data: seq<byte>, pos: nat, n: u32)
    requires pos + 4 <= |data| && data[pos..pos + 4] == Word(n)
    ensures GetStr(data, pos) ==
            if n > 67108864 then Err(CorruptData)
            else if pos + 4 + n > |data| then Err(TruncatedData)
            else Ok((seq(n, i requires 0 <= i < n => data[pos + 4 + i] as char), pos + 4 + n))
  {
    hide Little, LE;
    LittleIs(n, 4);
    Pow256Words();
    FromLEOfLE(n, 4);
    assert GetU32(data, pos) == Ok((n, pos + 4));
    if n <= 67108864 && pos + 4 + n <= |data| {
      assert BytesChars(data[pos + 4..pos + 4 + n]) == seq(n, i requires 0 <= i < n => data[pos + 4 + i] as char);
    }
  }

  // ----- a saved file

  /** What is saved, in this order: the epoch as kind 8, the sources as kind 4, the observations as kind
      1, the decisions as kind 2 and the outcomes as kind 3. */
  lemma SavedBytes(s: State, sources: seq<SourceDescriptor>, outcomes: seq<Outcome>)
    ensures SavedRecords(s, sources, outcomes) ==
            [Record(8, Long(s.coordinator))]
            + MapSeq((d: SourceDescriptor) => Record(4, SourceDescriptorBytes(d)), sources)
            + MapSeq((o: Observation<Pattern>) => Record(1, ObservationBytes(o)), s.observed.log)
            + MapSeq((d: Decision<Pattern>) => Record(2, DecisionBytes(d)), s.decided.log)
            + MapSeq((o: Outcome) => Record(3, OutcomeBytes(o)), outcomes)
  {
    hide Little, PutSourceDescriptor, PutObservation, PutDecision, PutOutcome, SourceDescriptorBytes, ObservationBytes,
      DecisionBytes, OutcomeBytes;
    LongIs([], s.coordinator);
    assert [] + Long(s.coordinator) == Long(s.coordinator);
    forall d
      ensures SourceRecord(d) == Record(4, SourceDescriptorBytes(d))
    {
      SourceDescriptorBytesIs([], d);
      assert [] + SourceDescriptorBytes(d) == SourceDescriptorBytes(d);
    }
    forall o
      ensures ObsRecord(o) == Record(1, ObservationBytes(o))
    {
      ObservationBytesIs([], o);
      assert [] + ObservationBytes(o) == ObservationBytes(o);
    }
    forall d
      ensures DecRecord(d) == Record(2, DecisionBytes(d))
    {
      DecisionBytesIs([], d);
      assert [] + DecisionBytes(d) == DecisionBytes(d);
    }
    forall o
      ensures OutcomeRecord(o) == Record(3, OutcomeBytes(o))
    {
      OutcomeBytesIs([], o);
      assert [] + OutcomeBytes(o) == OutcomeBytes(o);
    }
  }
}
