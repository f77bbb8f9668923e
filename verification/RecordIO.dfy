/** The writer and reader objects, and the routines that move records through them. Each
    writing routine appends what the corresponding `Put` function describes; each reading
    routine returns what the corresponding `Get` function describes and advances as far. */
module RecordIO {
  import opened Base
  import opened Bytes
  import opened Model
  import opened Serialize
  import opened Records

  class BinWriter {
    var buf: seq<byte>

    constructor ()
      ensures buf == []
    {
      buf := [];
    }

    /** Appends the low `k` bytes of `v`, low byte first. */
    method LittleEndian(v: nat, k: nat)
      modifies this
      ensures buf == old(buf) + LE(v, k)
    {
      var rest := v;
      for i := 0 to k
        invariant buf + LE(rest, k - i) == old(buf) + LE(v, k)
      {
        assert buf + LE(rest, k - i) == (buf + [rest % 0x100]) + LE(rest / 0x100, k - i - 1);
        buf := buf + [rest % 0x100];
        rest := rest / 0x100;
      }
    }

    method U8(v: byte)
      modifies this
      ensures buf == PutU8(old(buf), v)
    {
      buf := buf + [v];
    }

    method U32(v: u32)
      modifies this
      ensures buf == PutU32(old(buf), v)
    {
      LittleEndian(v, 4);
    }

    method U64(v: u64)
      modifies this
      ensures buf == PutU64(old(buf), v)
    {
      LittleEndian(v, 8);
    }

    method I64(v: i64)
      modifies this
      ensures buf == PutI64(old(buf), v)
    {
      U64(v % TWO64);
    }

    method Bool(v: bool)
      modifies this
      ensures buf == PutBool(old(buf), v)
    {
      U8(if v then 1 else 0);
    }

    method Str(s: Text)
      modifies this
      ensures buf == PutStr(old(buf), s)
    {
      U32(|s|);
      buf := buf + CharBytes(s);
    }

    method Raw(p: seq<byte>)
      modifies this
      ensures buf == old(buf) + p
    {
      buf := buf + p;
    }
  }

  /** A reading routine did what its specification says: same value and position, or same error. */
  predicate Got<T(==)>(spec: Read<T>, res: Result<T, CodecError>, pos: nat) {
    match spec
    case Ok((v, p)) => res == Ok(v) && pos == p
    case Err(e) => res == Err(e)
  }

  class BinReader {
    const data: seq<byte>
    var pos: nat

    constructor (data: seq<byte>)
      ensures this.data == data && pos == 0
    {
      this.data := data;
      pos := 0;
    }

    method Need(n: nat) returns (res: Status<CodecError>)
      ensures res == if pos + n > |data| then Failed(TruncatedData) else Passed
    {
      return if pos + n > |data| then Failed(TruncatedData) else Passed;
    }

    /** Reads a `k`-byte integer, low byte first. */
    method LittleEndian(k: nat) returns (res: Result<nat, CodecError>)
      modifies this
      ensures Got(GetLE(data, old(pos), k), res, pos)
    {
      var enough := Need(k);
      if enough.Failed? {
        return Err(enough.error);
      }
      ghost var s := data[pos..pos + k];
      var v: nat := 0;
      for i := 0 to k
        invariant pos == old(pos)
        invariant v == FromLE(s[..i])
      {
        assert data[pos + i] == s[i];
        assert s[..i + 1] == s[..i] + [s[i]];
        NextDigit(s[..i], data[pos + i]);
        v := v + Shifted(data[pos + i], i);
      }
      assert s[..k] == s;
      pos := pos + k;
      return Ok(v);
    }

    method U8() returns (res: Result<byte, CodecError>)
      modifies this
      ensures Got(GetU8(data, old(pos)), res, pos)
    {
      var enough := Need(1);
      if enough.Failed? {
        return Err(enough.error);
      }
      pos := pos + 1;
      return Ok(data[pos - 1]);
    }

    method U32() returns (res: Result<u32, CodecError>)
      modifies this
      ensures Got(GetU32(data, old(pos)), res, pos)
    {
      ghost var spec := GetU32(data, pos);
      var v :- LittleEndian(4);
      return Ok(v);
    }

    method U64() returns (res: Result<u64, CodecError>)
      modifies this
      ensures Got(GetU64(data, old(pos)), res, pos)
    {
      ghost var spec := GetU64(data, pos);
      var v :- LittleEndian(8);
      return Ok(v);
    }

    method I64() returns (res: Result<i64, CodecError>)
      modifies this
      ensures Got(GetI64(data, old(pos)), res, pos)
    {
      var v :- U64();
      return Ok(if v < TWO64 / 2 then v else v - TWO64);
    }

    method Bool() returns (res: Result<bool, CodecError>)
      modifies this
      ensures Got(GetBool(data, old(pos)), res, pos)
    {
      var v :- U8();
      return Ok(v != 0);
    }

    method Str() returns (res: Result<Text, CodecError>)
      modifies this
      ensures Got(GetStr(data, old(pos)), res, pos)
    {
      var len :- U32();
      if len > MAX_STRING {
        return Err(CorruptData);
      }
      var enough := Need(len);
      if enough.Failed? {
        return Err(enough.error);
      }
      pos := pos + len;
      return Ok(BytesChars(data[pos - len..pos]));
    }
  }

  /** A number shifted left by `k` bytes. */
  function Shifted(v: nat, k: nat): nat {
    if k == 0 then v else 0x100 * Shifted(v, k - 1)
  }

  lemma {:induction false} NextDigit(s: seq<byte>, b: byte)
    ensures FromLE(s + [b]) == FromLE(s) + Shifted(b, |s|)
  {
    if s == [] {
      assert s + [b] == [b];
      assert [b][1..] == [];
    } else {
      assert (s + [b])[1..] == s[1..] + [b];
      NextDigit(s[1..], b);
    }
  }

  /** Elements already read, in front of the rest. */
  function Onto<T>(xs: seq<T>, tail: Read<seq<T>>): Read<seq<T>> {
    match tail
    case Ok((ys, p)) => Ok((xs + ys, p))
    case Err(e) => Err(e)
  }

  lemma OntoNothing<T>(tail: Read<seq<T>>)
    ensures Onto([], tail) == tail
  {
    if tail.Ok? {
      assert [] + tail.value.0 == tail.value.0;
    }
  }

  lemma OntoNext<T>(xs: seq<T>, x: T, tail: Read<seq<T>>)
    ensures Onto(xs + [x], tail) == Onto(xs, Onto([x], tail))
  {
    if tail.Ok? {
      assert (xs + [x]) + tail.value.0 == xs + ([x] + tail.value.0);
    }
  }

  method WriteValue(w: BinWriter, x: Value<Pattern>)
    modifies w
    ensures w.buf == PutValue(old(w.buf), x)
  {
    hide PutU8, PutI64, PutU64, PutBool, PutStr;
    match x
    case NoValue => w.U8(0);
    case Int(i) => w.U8(1); w.I64(i);
    case UInt(u) => w.U8(2); w.U64(u);
    case Double(d) => w.U8(3); w.U64(d);
    case Bool(b) => w.U8(4); w.Bool(b);
    case Str(s) => w.U8(5); w.Str(s);
  }

  method ReadValue(r: BinReader) returns (res: Result<Value<Pattern>, CodecError>)
    modifies r
    ensures Got(GetValue(r.data, old(r.pos)), res, r.pos)
  {
    hide GetU8, GetI64, GetU64, GetBool, GetStr;
    var k :- r.U8();
    match k
    case 0 => return Ok(NoValue);
    case 1 => var i :- r.I64(); return Ok(Int(i));
    case 2 => var u :- r.U64(); return Ok(UInt(u));
    case 3 => var d :- r.U64(); return Ok(Double(d));
    case 4 => var b :- r.Bool(); return Ok(Bool(b));
    case 5 => var s :- r.Str(); return Ok(Str(s));
    case _ => return Err(CorruptData);
  }

  method WriteReasons(w: BinWriter, m: ReasonMap)
    modifies w
    ensures w.buf == PutVec(old(w.buf), m, PutReason)
  {
    hide PutU32, PutU64, PutStr;
    w.U32(|m| % TWO32);
    for i := 0 to |m|
      invariant PutMany(w.buf, m[i..], PutReason) == PutVec(old(w.buf), m, PutReason)
    {
      assert m[i..][1..] == m[i + 1..];
      w.U64(m[i].candidateId);
      w.Str(m[i].text);
    }
  }

  method ReadReasons(r: BinReader) returns (res: Result<ReasonMap, CodecError>)
    modifies r
    ensures Got(GetReasonMap(r.data, old(r.pos)), res, r.pos)
  {
    hide GetU32, GetU64, GetStr, Assign;
    var n :- r.U32();
    var m: ReasonMap := [];
    for i := 0 to n
      invariant GetReasonMap(r.data, old(r.pos)) == GetReasons(r.data, r.pos, n - i, m)
    {
      var id :- r.U64();
      var text :- r.Str();
      m := Assign(m, Reason(id, text));
    }
    return Ok(m);
  }

  method WriteStrs(w: BinWriter, v: seq<Text>)
    modifies w
    ensures w.buf == PutVec(old(w.buf), v, PutStr)
  {
    hide PutStr, PutU32;
    w.U32(|v| % TWO32);
    for i := 0 to |v|
      invariant PutMany(w.buf, v[i..], PutStr) == PutVec(old(w.buf), v, PutStr)
    {
      assert v[i..][1..] == v[i + 1..];
      w.Str(v[i]);
    }
  }

  method ReadStrs(r: BinReader) returns (res: Result<seq<Text>, CodecError>)
    modifies r
    ensures Got(GetVec(r.data, old(r.pos), GetStr), res, r.pos)
  {
    hide GetStr, GetU32;
    var n :- r.U32();
    ghost var whole := GetMany(r.data, r.pos, n, GetStr);
    var out: seq<Text> := [];
    OntoNothing(whole);
    for i := 0 to n
      invariant whole == Onto(out, GetMany(r.data, r.pos, n - i, GetStr))
    {
      var x :- r.Str();
      OntoNext(out, x, GetMany(r.data, r.pos, n - i - 1, GetStr));
      out := out + [x];
    }
    assert out + [] == out;
    return Ok(out);
  }

  method WriteU64s(w: BinWriter, v: seq<u64>)
    modifies w
    ensures w.buf == PutVec(old(w.buf), v, PutU64)
  {
    hide PutU64, PutU32;
    w.U32(|v| % TWO32);
    for i := 0 to |v|
      invariant PutMany(w.buf, v[i..], PutU64) == PutVec(old(w.buf), v, PutU64)
    {
      assert v[i..][1..] == v[i + 1..];
      w.U64(v[i]);
    }
  }

  method ReadU64s(r: BinReader) returns (res: Result<seq<u64>, CodecError>)
    modifies r
    ensures Got(GetVec(r.data, old(r.pos), GetU64), res, r.pos)
  {
    hide GetU64, GetU32;
    var n :- r.U32();
    ghost var whole := GetMany(r.data, r.pos, n, GetU64);
    var out: seq<u64> := [];
    OntoNothing(whole);
    for i := 0 to n
      invariant whole == Onto(out, GetMany(r.data, r.pos, n - i, GetU64))
    {
      var x :- r.U64();
      OntoNext(out, x, GetMany(r.data, r.pos, n - i - 1, GetU64));
      out := out + [x];
    }
    assert out + [] == out;
    return Ok(out);
  }

  method WriteProvenance(w: BinWriter, x: Provenance)
    modifies w
    ensures w.buf == PutProvenance(old(w.buf), x)
  {
    hide PutI64, PutStr, PutU64, PutU8;
    w.U64(x.sourceId);
    w.U64(x.sourceGeneration);
    w.U8(x.sourceType);
    w.U8(x.collection);
    w.U8(x.reliability);
    w.U8(x.classification);
    w.I64(x.timestamp.wall);
    w.U64(x.timestamp.mono);
    w.I64(x.timestamp.uncertaintyNs);
    w.U64(x.workerBoot);
    w.U64(x.coordinatorEpoch);
    w.Str(x.collectionError);
    w.Str(x.normalizedField);
    w.Str(x.rawField);
  }

  method ReadProvenance(r: BinReader) returns (res: Result<Provenance, CodecError>)
    modifies r
    ensures Got(GetProvenance(r.data, old(r.pos)), res, r.pos)
  {
    hide GetI64, GetStr, GetU64, GetU8;
    var sourceId :- r.U64();
    var sourceGeneration :- r.U64();
    var sourceType :- r.U8();
    var collection :- r.U8();
    var reliability :- r.U8();
    var classification :- r.U8();
    var wall :- r.I64();
    var mono :- r.U64();
    var uncertainty :- r.I64();
    var workerBoot :- r.U64();
    var coordinatorEpoch :- r.U64();
    var collectionError :- r.Str();
    var normalizedField :- r.Str();
    var rawField :- r.Str();
    return Ok(Provenance(sourceId, sourceGeneration, sourceType, collection, reliability, classification,
      Timestamp(wall, mono, uncertainty), 0, workerBoot, coordinatorEpoch, collectionError, normalizedField,
      rawField));
  }

  method WriteProvenances(w: BinWriter, v: seq<Provenance>)
    modifies w
    ensures w.buf == PutVec(old(w.buf), v, PutProvenance)
  {
    hide PutProvenance, PutU32;
    w.U32(|v| % TWO32);
    for i := 0 to |v|
      invariant PutMany(w.buf, v[i..], PutProvenance) == PutVec(old(w.buf), v, PutProvenance)
    {
      assert v[i..][1..] == v[i + 1..];
      WriteProvenance(w, v[i]);
    }
  }

  method ReadProvenances(r: BinReader) returns (res: Result<seq<Provenance>, CodecError>)
    modifies r
    ensures Got(GetVec(r.data, old(r.pos), GetProvenance), res, r.pos)
  {
    hide GetProvenance, GetU32;
    var n :- r.U32();
    ghost var whole := GetMany(r.data, r.pos, n, GetProvenance);
    var out: seq<Provenance> := [];
    OntoNothing(whole);
    for i := 0 to n
      invariant whole == Onto(out, GetMany(r.data, r.pos, n - i, GetProvenance))
    {
      var x :- ReadProvenance(r);
      OntoNext(out, x, GetMany(r.data, r.pos, n - i - 1, GetProvenance));
      out := out + [x];
    }
    assert out + [] == out;
    return Ok(out);
  }

  method WriteConfidence(w: BinWriter, x: Confidence<Pattern>)
    modifies w
    ensures w.buf == PutConfidence(old(w.buf), x)
  {
    hide PutStr, PutU64, PutU8;
    w.U8(x.cls);
    w.U64(x.numerator);
    w.U64(x.denominator);
    w.Str(x.derivation);
  }

  method ReadConfidence(r: BinReader) returns (res: Result<Confidence<Pattern>, CodecError>)
    modifies r
    ensures Got(GetConfidence(r.data, old(r.pos)), res, r.pos)
  {
    hide GetStr, GetU64, GetU8;
    var cls :- r.U8();
    var numerator :- r.U64();
    var denominator :- r.U64();
    var derivation :- r.Str();
    return Ok(Confidence(cls, numerator, denominator, derivation));
  }

  method WriteMeasurement(w: BinWriter, x: Measurement<Pattern>)
    modifies w
    ensures w.buf == PutMeasurement(old(w.buf), x)
  {
    hide PutProvenance, PutStr, PutU8, PutValue;
    w.Str(x.normalizedField);
    w.Str(x.rawField);
    WriteValue(w, x.value);
    w.U8(x.classification);
    WriteProvenance(w, x.provenance);
  }

  method ReadMeasurement(r: BinReader) returns (res: Result<Measurement<Pattern>, CodecError>)
    modifies r
    ensures Got(GetMeasurement(r.data, old(r.pos)), res, r.pos)
  {
    hide GetProvenance, GetStr, GetU8, GetValue;
    var normalizedField :- r.Str();
    var rawField :- r.Str();
    var value :- ReadValue(r);
    var classification :- r.U8();
    var provenance :- ReadProvenance(r);
    return Ok(Measurement(normalizedField, rawField, value, classification, provenance));
  }

  method WriteMeasurements(w: BinWriter, v: seq<Measurement<Pattern>>)
    modifies w
    ensures w.buf == PutVec(old(w.buf), v, PutMeasurement)
  {
    hide PutMeasurement, PutU32;
    w.U32(|v| % TWO32);
    for i := 0 to |v|
      invariant PutMany(w.buf, v[i..], PutMeasurement) == PutVec(old(w.buf), v, PutMeasurement)
    {
      assert v[i..][1..] == v[i + 1..];
      WriteMeasurement(w, v[i]);
    }
  }

  method ReadMeasurements(r: BinReader) returns (res: Result<seq<Measurement<Pattern>>, CodecError>)
    modifies r
    ensures Got(GetVec(r.data, old(r.pos), GetMeasurement), res, r.pos)
  {
    hide GetMeasurement, GetU32;
    var n :- r.U32();
    ghost var whole := GetMany(r.data, r.pos, n, GetMeasurement);
    var out: seq<Measurement<Pattern>> := [];
    OntoNothing(whole);
    for i := 0 to n
      invariant whole == Onto(out, GetMany(r.data, r.pos, n - i, GetMeasurement))
    {
      var x :- ReadMeasurement(r);
      OntoNext(out, x, GetMany(r.data, r.pos, n - i - 1, GetMeasurement));
      out := out + [x];
    }
    assert out + [] == out;
    return Ok(out);
  }

  method WriteSourceDescriptor(w: BinWriter, x: SourceDescriptor)
    modifies w
    ensures w.buf == PutSourceDescriptor(old(w.buf), x)
  {
    hide PutBool, PutI64, PutStr, PutU64, PutU8;
    w.U64(x.sourceId);
    w.U64(x.generation);
    w.U8(x.kind);
    w.Str(x.name);
    w.U8(x.reliability);
    w.Str(x.endpoint);
    w.I64(x.lastSeen.wall);
    w.U64(x.lastSeen.mono);
    w.Bool(x.synthetic);
  }

  method ReadSourceDescriptor(r: BinReader) returns (res: Result<SourceDescriptor, CodecError>)
    modifies r
    ensures Got(GetSourceDescriptor(r.data, old(r.pos)), res, r.pos)
  {
    hide GetBool, GetI64, GetStr, GetU64, GetU8;
    var sourceId :- r.U64();
    var generation :- r.U64();
    var kind :- r.U8();
    var name :- r.Str();
    var reliability :- r.U8();
    var endpoint :- r.Str();
    var wall :- r.I64();
    var mono :- r.U64();
    var synthetic :- r.Bool();
    return Ok(SourceDescriptor(sourceId, generation, kind, name, reliability, endpoint, Timestamp(wall, mono, 0),
      synthetic));
  }

  method WriteQueueDescriptor(w: BinWriter, x: QueueDescriptor)
    modifies w
    ensures w.buf == PutQueueDescriptor(old(w.buf), x)
  {
    hide PutStr, PutU32, PutU64, PutU8;
    w.Str(x.queueName);
    w.U8(x.state);
    w.U32(x.depth);
    w.U64(x.oldestAgeNs);
    w.U64(x.headWaitNs);
    w.U64(x.expectedWaitNs);
    w.U32(x.capacity);
  }

  method ReadQueueDescriptor(r: BinReader) returns (res: Result<QueueDescriptor, CodecError>)
    modifies r
    ensures Got(GetQueueDescriptor(r.data, old(r.pos)), res, r.pos)
  {
    hide GetStr, GetU32, GetU64, GetU8;
    var queueName :- r.Str();
    var state :- r.U8();
    var depth :- r.U32();
    var oldestAgeNs :- r.U64();
    var headWaitNs :- r.U64();
    var expectedWaitNs :- r.U64();
    var capacity :- r.U32();
    return Ok(QueueDescriptor(queueName, state, depth, oldestAgeNs, headWaitNs, expectedWaitNs, capacity));
  }

  method WriteMemoryDescriptor(w: BinWriter, x: MemoryDescriptor<Pattern>)
    modifies w
    ensures w.buf == PutMemoryDescriptor(old(w.buf), x)
  {
    hide PutU64, PutU8;
    w.U64(x.totalBytes);
    w.U64(x.freeBytes);
    w.U64(x.usedBytes);
    w.U8(x.pressure);
    w.U64(x.pressureRatio);
  }

  method ReadMemoryDescriptor(r: BinReader) returns (res: Result<MemoryDescriptor<Pattern>, CodecError>)
    modifies r
    ensures Got(GetMemoryDescriptor(r.data, old(r.pos)), res, r.pos)
  {
    hide GetU64, GetU8;
    var totalBytes :- r.U64();
    var freeBytes :- r.U64();
    var usedBytes :- r.U64();
    var pressure :- r.U8();
    var pressureRatio :- r.U64();
    return Ok(MemoryDescriptor(totalBytes, freeBytes, usedBytes, pressure, pressureRatio));
  }

  method WriteLocalityDescriptor(w: BinWriter, x: LocalityDescriptor<Pattern>)
    modifies w
    ensures w.buf == PutLocalityDescriptor(old(w.buf), x)
  {
    hide PutBool, PutStr, PutU64, PutU8;
    w.U8(x.kind);
    w.Str(x.stateKey);
    w.U64(x.deviceId);
    w.U64(x.nodeId);
    w.Bool(x.present);
    w.U64(x.benefit);
  }

  method ReadLocalityDescriptor(r: BinReader) returns (res: Result<LocalityDescriptor<Pattern>, CodecError>)
    modifies r
    ensures Got(GetLocalityDescriptor(r.data, old(r.pos)), res, r.pos)
  {
    hide GetBool, GetStr, GetU64, GetU8;
    var kind :- r.U8();
    var stateKey :- r.Str();
    var deviceId :- r.U64();
    var nodeId :- r.U64();
    var present :- r.Bool();
    var benefit :- r.U64();
    return Ok(LocalityDescriptor(kind, stateKey, deviceId, nodeId, present, benefit));
  }

  method WriteLocalityDescriptors(w: BinWriter, v: seq<LocalityDescriptor<Pattern>>)
    modifies w
    ensures w.buf == PutVec(old(w.buf), v, PutLocalityDescriptor)
  {
    hide PutLocalityDescriptor, PutU32;
    w.U32(|v| % TWO32);
    for i := 0 to |v|
      invariant PutMany(w.buf, v[i..], PutLocalityDescriptor) == PutVec(old(w.buf), v, PutLocalityDescriptor)
    {
      assert v[i..][1..] == v[i + 1..];
      WriteLocalityDescriptor(w, v[i]);
    }
  }

  method ReadLocalityDescriptors(r: BinReader) returns (res: Result<seq<LocalityDescriptor<Pattern>>, CodecError>)
    modifies r
    ensures Got(GetVec(r.data, old(r.pos), GetLocalityDescriptor), res, r.pos)
  {
    hide GetLocalityDescriptor, GetU32;
    var n :- r.U32();
    ghost var whole := GetMany(r.data, r.pos, n, GetLocalityDescriptor);
    var out: seq<LocalityDescriptor<Pattern>> := [];
    OntoNothing(whole);
    for i := 0 to n
      invariant whole == Onto(out, GetMany(r.data, r.pos, n - i, GetLocalityDescriptor))
    {
      var x :- ReadLocalityDescriptor(r);
      OntoNext(out, x, GetMany(r.data, r.pos, n - i - 1, GetLocalityDescriptor));
      out := out + [x];
    }
    assert out + [] == out;
    return Ok(out);
  }

  method WriteConstraint(w: BinWriter, x: Constraint<Pattern>)
    modifies w
    ensures w.buf == PutConstraint(old(w.buf), x)
  {
    hide PutProvenance, PutStr, PutU8, PutValue;
    w.U8(x.cls);
    w.U8(x.kind);
    w.Str(x.field);
    WriteValue(w, x.value);
    w.Str(x.requirementText);
    w.U8(x.classification);
    WriteProvenance(w, x.provenance);
  }

  method ReadConstraint(r: BinReader) returns (res: Result<Constraint<Pattern>, CodecError>)
    modifies r
    ensures Got(GetConstraint(r.data, old(r.pos)), res, r.pos)
  {
    hide GetProvenance, GetStr, GetU8, GetValue;
    var cls :- r.U8();
    var kind :- r.U8();
    var field :- r.Str();
    var value :- ReadValue(r);
    var requirementText :- r.Str();
    var classification :- r.U8();
    var provenance :- ReadProvenance(r);
    return Ok(Constraint(cls, kind, field, value, requirementText, classification, provenance));
  }

  method WriteConstraints(w: BinWriter, v: seq<Constraint<Pattern>>)
    modifies w
    ensures w.buf == PutVec(old(w.buf), v, PutConstraint)
  {
    hide PutConstraint, PutU32;
    w.U32(|v| % TWO32);
    for i := 0 to |v|
      invariant PutMany(w.buf, v[i..], PutConstraint) == PutVec(old(w.buf), v, PutConstraint)
    {
      assert v[i..][1..] == v[i + 1..];
      WriteConstraint(w, v[i]);
    }
  }

  method ReadConstraints(r: BinReader) returns (res: Result<seq<Constraint<Pattern>>, CodecError>)
    modifies r
    ensures Got(GetVec(r.data, old(r.pos), GetConstraint), res, r.pos)
  {
    hide GetConstraint, GetU32;
    var n :- r.U32();
    ghost var whole := GetMany(r.data, r.pos, n, GetConstraint);
    var out: seq<Constraint<Pattern>> := [];
    OntoNothing(whole);
    for i := 0 to n
      invariant whole == Onto(out, GetMany(r.data, r.pos, n - i, GetConstraint))
    {
      var x :- ReadConstraint(r);
      OntoNext(out, x, GetMany(r.data, r.pos, n - i - 1, GetConstraint));
      out := out + [x];
    }
    assert out + [] == out;
    return Ok(out);
  }

  method WriteCostComponent(w: BinWriter, x: CostComponent<Pattern>)
    modifies w
    ensures w.buf == PutCostComponent(old(w.buf), x)
  {
    hide PutProvenance, PutStr, PutU64, PutU8;
    w.U8(x.kind);
    w.Str(x.title);
    w.U64(x.cost);
    w.U64(x.policyWeight);
    w.U8(x.classification);
    WriteProvenance(w, x.provenance);
    w.Str(x.detail);
  }

  method ReadCostComponent(r: BinReader) returns (res: Result<CostComponent<Pattern>, CodecError>)
    modifies r
    ensures Got(GetCostComponent(r.data, old(r.pos)), res, r.pos)
  {
    hide GetProvenance, GetStr, GetU64, GetU8;
    var kind :- r.U8();
    var title :- r.Str();
    var cost :- r.U64();
    var policyWeight :- r.U64();
    var classification :- r.U8();
    var provenance :- ReadProvenance(r);
    var detail :- r.Str();
    return Ok(CostComponent(kind, title, cost, policyWeight, classification, provenance, detail));
  }

  method WriteCostComponents(w: BinWriter, v: seq<CostComponent<Pattern>>)
    modifies w
    ensures w.buf == PutVec(old(w.buf), v, PutCostComponent)
  {
    hide PutCostComponent, PutU32;
    w.U32(|v| % TWO32);
    for i := 0 to |v|
      invariant PutMany(w.buf, v[i..], PutCostComponent) == PutVec(old(w.buf), v, PutCostComponent)
    {
      assert v[i..][1..] == v[i + 1..];
      WriteCostComponent(w, v[i]);
    }
  }

  method ReadCostComponents(r: BinReader) returns (res: Result<seq<CostComponent<Pattern>>, CodecError>)
    modifies r
    ensures Got(GetVec(r.data, old(r.pos), GetCostComponent), res, r.pos)
  {
    hide GetCostComponent, GetU32;
    var n :- r.U32();
    ghost var whole := GetMany(r.data, r.pos, n, GetCostComponent);
    var out: seq<CostComponent<Pattern>> := [];
    OntoNothing(whole);
    for i := 0 to n
      invariant whole == Onto(out, GetMany(r.data, r.pos, n - i, GetCostComponent))
    {
      var x :- ReadCostComponent(r);
      OntoNext(out, x, GetMany(r.data, r.pos, n - i - 1, GetCostComponent));
      out := out + [x];
    }
    assert out + [] == out;
    return Ok(out);
  }

  method WriteScoreComponent(w: BinWriter, x: ScoreComponent<Pattern>)
    modifies w
    ensures w.buf == PutScoreComponent(old(w.buf), x)
  {
    hide PutProvenance, PutStr, PutU64, PutU8;
    w.U8(x.kind);
    w.Str(x.title);
    w.U64(x.value);
    w.U8(x.classification);
    WriteProvenance(w, x.provenance);
  }

  method ReadScoreComponent(r: BinReader) returns (res: Result<ScoreComponent<Pattern>, CodecError>)
    modifies r
    ensures Got(GetScoreComponent(r.data, old(r.pos)), res, r.pos)
  {
    hide GetProvenance, GetStr, GetU64, GetU8;
    var kind :- r.U8();
    var title :- r.Str();
    var value :- r.U64();
    var classification :- r.U8();
    var provenance :- ReadProvenance(r);
    return Ok(ScoreComponent(kind, title, value, classification, provenance));
  }

  method WriteScoreComponents(w: BinWriter, v: seq<ScoreComponent<Pattern>>)
    modifies w
    ensures w.buf == PutVec(old(w.buf), v, PutScoreComponent)
  {
    hide PutScoreComponent, PutU32;
    w.U32(|v| % TWO32);
    for i := 0 to |v|
      invariant PutMany(w.buf, v[i..], PutScoreComponent) == PutVec(old(w.buf), v, PutScoreComponent)
    {
      assert v[i..][1..] == v[i + 1..];
      WriteScoreComponent(w, v[i]);
    }
  }

  method ReadScoreComponents(r: BinReader) returns (res: Result<seq<ScoreComponent<Pattern>>, CodecError>)
    modifies r
    ensures Got(GetVec(r.data, old(r.pos), GetScoreComponent), res, r.pos)
  {
    hide GetScoreComponent, GetU32;
    var n :- r.U32();
    ghost var whole := GetMany(r.data, r.pos, n, GetScoreComponent);
    var out: seq<ScoreComponent<Pattern>> := [];
    OntoNothing(whole);
    for i := 0 to n
      invariant whole == Onto(out, GetMany(r.data, r.pos, n - i, GetScoreComponent))
    {
      var x :- ReadScoreComponent(r);
      OntoNext(out, x, GetMany(r.data, r.pos, n - i - 1, GetScoreComponent));
      out := out + [x];
    }
    assert out + [] == out;
    return Ok(out);
  }

  method WriteCandidate(w: BinWriter, x: Candidate<Pattern>)
    modifies w
    ensures w.buf == PutCandidate(old(w.buf), x)
  {
    hide PutBool, PutMemoryDescriptor, PutQueueDescriptor, PutStr, PutU64, PutU8, PutVec;
    w.U64(x.candidateId);
    w.U64(x.nodeId);
    w.U64(x.deviceId);
    w.U64(x.generation);
    w.Str(x.architecture);
    WriteStrs(w, x.capabilities);
    w.U8(x.health);
    WriteMemoryDescriptor(w, x.memory);
    WriteQueueDescriptor(w, x.queue);
    WriteLocalityDescriptors(w, x.locality);
    WriteCostComponents(w, x.costs);
    w.U64(x.totalCost);
    w.Bool(x.rejectionReasonText.Some?);
    if x.rejectionReasonText.Some? {
      w.Str(x.rejectionReasonText.value);
    }
    w.Bool(x.rejectionReason.Some?);
    if x.rejectionReason.Some? {
      w.U8(x.rejectionReason.value);
    }
  }

  method ReadCandidate(r: BinReader) returns (res: Result<Candidate<Pattern>, CodecError>)
    modifies r
    ensures Got(GetCandidate(r.data, old(r.pos)), res, r.pos)
  {
    hide GetBool, GetMemoryDescriptor, GetQueueDescriptor, GetStr, GetU64, GetU8, GetVec;
    var candidateId :- r.U64();
    var nodeId :- r.U64();
    var deviceId :- r.U64();
    var generation :- r.U64();
    var architecture :- r.Str();
    var capabilities :- ReadStrs(r);
    var health :- r.U8();
    var memory :- ReadMemoryDescriptor(r);
    var queue :- ReadQueueDescriptor(r);
    var locality :- ReadLocalityDescriptors(r);
    var costs :- ReadCostComponents(r);
    var totalCost :- r.U64();
    var hasRejectionReasonText :- r.Bool();
    var rejectionReasonText: Option<Text> := None;
    if hasRejectionReasonText {
      var value :- r.Str();
      rejectionReasonText := Some(value);
    }
    var hasRejectionReason :- r.Bool();
    var rejectionReason: Option<byte> := None;
    if hasRejectionReason {
      var value :- r.U8();
      rejectionReason := Some(value);
    }
    return Ok(Candidate(candidateId, nodeId, deviceId, generation, architecture, capabilities, health, memory, queue,
      locality, costs, totalCost, rejectionReasonText, rejectionReason));
  }

  method WriteCandidates(w: BinWriter, v: seq<Candidate<Pattern>>)
    modifies w
    ensures w.buf == PutVec(old(w.buf), v, PutCandidate)
  {
    hide PutCandidate, PutU32;
    w.U32(|v| % TWO32);
    for i := 0 to |v|
      invariant PutMany(w.buf, v[i..], PutCandidate) == PutVec(old(w.buf), v, PutCandidate)
    {
      assert v[i..][1..] == v[i + 1..];
      WriteCandidate(w, v[i]);
    }
  }

  method ReadCandidates(r: BinReader) returns (res: Result<seq<Candidate<Pattern>>, CodecError>)
    modifies r
    ensures Got(GetVec(r.data, old(r.pos), GetCandidate), res, r.pos)
  {
    hide GetCandidate, GetU32;
    var n :- r.U32();
    ghost var whole := GetMany(r.data, r.pos, n, GetCandidate);
    var out: seq<Candidate<Pattern>> := [];
    OntoNothing(whole);
    for i := 0 to n
      invariant whole == Onto(out, GetMany(r.data, r.pos, n - i, GetCandidate))
    {
      var x :- ReadCandidate(r);
      OntoNext(out, x, GetMany(r.data, r.pos, n - i - 1, GetCandidate));
      out := out + [x];
    }
    assert out + [] == out;
    return Ok(out);
  }

  method WriteCandidateSet(w: BinWriter, x: CandidateSet<Pattern>)
    modifies w
    ensures w.buf == PutCandidateSet(old(w.buf), x)
  {
    hide PutBool, PutU8, PutVec;
    WriteCandidates(w, x.candidates);
    w.Bool(x.complete);
    w.Bool(x.reconstructed);
    w.U8(x.classification);
    WriteProvenances(w, x.sourceChain);
    WriteStrs(w, x.missingFields);
  }

  method ReadCandidateSet(r: BinReader) returns (res: Result<CandidateSet<Pattern>, CodecError>)
    modifies r
    ensures Got(GetCandidateSet(r.data, old(r.pos)), res, r.pos)
  {
    hide GetBool, GetU8, GetVec;
    var candidates :- ReadCandidates(r);
    var complete :- r.Bool();
    var reconstructed :- r.Bool();
    var classification :- r.U8();
    var sourceChain :- ReadProvenances(r);
    var missingFields :- ReadStrs(r);
    return Ok(CandidateSet(candidates, complete, reconstructed, classification, sourceChain, missingFields));
  }

  method WriteOutcome(w: BinWriter, x: Outcome)
    modifies w
    ensures w.buf == PutOutcome(old(w.buf), x)
  {
    hide PutI64, PutProvenance, PutStr, PutU64, PutU8;
    w.U64(x.decisionId);
    w.U64(x.attemptId);
    w.U8(x.disposition);
    w.I64(x.startDelayNs);
    w.I64(x.durationNs);
    w.I64(x.predictedDurationNs);
    w.U64(x.memoryUsedBytes);
    w.Str(x.error);
    w.U8(x.classification);
    WriteProvenance(w, x.provenance);
  }

  method ReadOutcome(r: BinReader) returns (res: Result<Outcome, CodecError>)
    modifies r
    ensures Got(GetOutcome(r.data, old(r.pos)), res, r.pos)
  {
    hide GetI64, GetProvenance, GetStr, GetU64, GetU8;
    var decisionId :- r.U64();
    var attemptId :- r.U64();
    var disposition :- r.U8();
    var startDelayNs :- r.I64();
    var durationNs :- r.I64();
    var predictedDurationNs :- r.I64();
    var memoryUsedBytes :- r.U64();
    var error :- r.Str();
    var classification :- r.U8();
    var provenance :- ReadProvenance(r);
    return Ok(Outcome(decisionId, attemptId, disposition, startDelayNs, durationNs, predictedDurationNs,
      memoryUsedBytes, error, classification, provenance));
  }

  method WriteObservation(w: BinWriter, x: Observation<Pattern>)
    modifies w
    ensures w.buf == PutObservation(old(w.buf), x)
  {
    hide PutBool, PutI64, PutU64, PutU8, PutVec;
    w.U64(x.observationId);
    w.U64(x.observationGeneration);
    w.I64(x.revision);
    w.U64(x.sourceId);
    w.U64(x.sourceGeneration);
    w.U8(x.sourceType);
    w.I64(x.timestamp.wall);
    w.U64(x.timestamp.mono);
    w.I64(x.timestamp.uncertaintyNs);
    w.U64(x.workerBoot);
    w.U64(x.coordinatorEpoch);
    w.U64(x.workloadId);
    w.U64(x.requestId);
    w.U64(x.tenantId);
    w.U64(x.namespaceId);
    w.U64(x.nodeId);
    w.U64(x.deviceId);
    w.U64(x.decisionId);
    w.U64(x.attemptId);
    w.U64(x.epoch);
    w.U8(x.lifecycle);
    WriteMeasurements(w, x.fields);
    w.U8(x.reliability);
    w.Bool(x.synthetic);
  }

  method ReadObservation(r: BinReader) returns (res: Result<Observation<Pattern>, CodecError>)
    modifies r
    ensures Got(GetObservation(r.data, old(r.pos)), res, r.pos)
  {
    hide GetBool, GetI64, GetU64, GetU8, GetVec;
    var observationId :- r.U64();
    var observationGeneration :- r.U64();
    var revision :- r.I64();
    var sourceId :- r.U64();
    var sourceGeneration :- r.U64();
    var sourceType :- r.U8();
    var wall :- r.I64();
    var mono :- r.U64();
    var uncertainty :- r.I64();
    var workerBoot :- r.U64();
    var coordinatorEpoch :- r.U64();
    var workloadId :- r.U64();
    var requestId :- r.U64();
    var tenantId :- r.U64();
    var namespaceId :- r.U64();
    var nodeId :- r.U64();
    var deviceId :- r.U64();
    var decisionId :- r.U64();
    var attemptId :- r.U64();
    var epoch :- r.U64();
    var lifecycle :- r.U8();
    var fields :- ReadMeasurements(r);
    var reliability :- r.U8();
    var synthetic :- r.Bool();
    return Ok(Observation(observationId, observationGeneration, revision, sourceId, sourceGeneration, sourceType,
      Timestamp(wall, mono, uncertainty), workerBoot, coordinatorEpoch, workloadId, requestId, tenantId, namespaceId,
      nodeId, deviceId, decisionId, attemptId, epoch, lifecycle, fields, reliability, synthetic));
  }

  method WriteDecisionHead(w: BinWriter, x: DecisionHead<Pattern>)
    modifies w
    ensures w.buf == PutDecisionHead(old(w.buf), x)
  {
    hide PutCandidateSet, PutU64, PutVec;
    w.U64(x.decisionId);
    w.U64(x.attemptId);
    w.U64(x.placementGeneration);
    w.U64(x.observationGeneration);
    w.U64(x.epoch);
    w.U64(x.policyGeneration);
    w.U64(x.workloadId);
    w.U64(x.requestId);
    w.U64(x.tenantId);
    w.U64(x.namespaceId);
    w.U64(x.nodeId);
    w.U64(x.deviceId);
    WriteCandidateSet(w, x.candidateSet);
    w.U64(x.selectedCandidate);
    WriteU64s(w, x.rejectedCandidates);
    WriteConstraints(w, x.hardConstraints);
    WriteConstraints(w, x.softPreferences);
    WriteScoreComponents(w, x.scoreComponents);
    WriteCostComponents(w, x.costComponents);
  }

  method ReadDecisionHead(r: BinReader) returns (res: Result<DecisionHead<Pattern>, CodecError>)
    modifies r
    ensures Got(GetDecisionHead(r.data, old(r.pos)), res, r.pos)
  {
    hide GetCandidateSet, GetU64, GetVec;
    var decisionId :- r.U64();
    var attemptId :- r.U64();
    var placementGeneration :- r.U64();
    var observationGeneration :- r.U64();
    var epoch :- r.U64();
    var policyGeneration :- r.U64();
    var workloadId :- r.U64();
    var requestId :- r.U64();
    var tenantId :- r.U64();
    var namespaceId :- r.U64();
    var nodeId :- r.U64();
    var deviceId :- r.U64();
    var candidateSet :- ReadCandidateSet(r);
    var selectedCandidate :- r.U64();
    var rejectedCandidates :- ReadU64s(r);
    var hardConstraints :- ReadConstraints(r);
    var softPreferences :- ReadConstraints(r);
    var scoreComponents :- ReadScoreComponents(r);
    var costComponents :- ReadCostComponents(r);
    return Ok(DecisionHead(decisionId, attemptId, placementGeneration, observationGeneration, epoch,
      policyGeneration, workloadId, requestId, tenantId, namespaceId, nodeId, deviceId, candidateSet,
      selectedCandidate, rejectedCandidates, hardConstraints, softPreferences, scoreComponents, costComponents));
  }

  method WriteDecisionTail(w: BinWriter, x: DecisionTail<Pattern>)
    modifies w
    ensures w.buf == PutDecisionTail(old(w.buf), x)
  {
    hide PutBool, PutConfidence, PutOutcome, PutProvenance, PutStr, PutU8, PutVec;
    w.U8(x.tieBreak);
    w.Str(x.tieBreakReason);
    w.Str(x.selectedReason);
    WriteReasons(w, x.rejectionReasons);
    WriteConfidence(w, x.confidence);
    w.U8(x.classification);
    w.U8(x.determinism);
    WriteProvenance(w, x.provenance);
    w.Bool(x.outcome.Some?);
    if x.outcome.Some? {
      WriteOutcome(w, x.outcome.value);
    }
    w.U8(x.lifecycle);
  }

  method ReadDecisionTail(r: BinReader) returns (res: Result<DecisionTail<Pattern>, CodecError>)
    modifies r
    ensures Got(GetDecisionTail(r.data, old(r.pos)), res, r.pos)
  {
    hide GetBool, GetConfidence, GetOutcome, GetProvenance, GetReasonMap, GetStr, GetU8;
    var tieBreak :- r.U8();
    var tieBreakReason :- r.Str();
    var selectedReason :- r.Str();
    var rejectionReasons :- ReadReasons(r);
    var confidence :- ReadConfidence(r);
    var classification :- r.U8();
    var determinism :- r.U8();
    var provenance :- ReadProvenance(r);
    var hasOutcome :- r.Bool();
    var outcome: Option<Outcome> := None;
    if hasOutcome {
      var value :- ReadOutcome(r);
      outcome := Some(value);
    }
    var lifecycle :- r.U8();
    return Ok(DecisionTail(tieBreak, tieBreakReason, selectedReason, rejectionReasons, confidence, classification,
      determinism, provenance, outcome, lifecycle));
  }

  method WriteDecision(w: BinWriter, x: Decision<Pattern>)
    modifies w
    ensures w.buf == PutDecision(old(w.buf), x)
  {
    hide PutDecisionHead, PutDecisionTail;
    WriteDecisionHead(w, HeadOf(x));
    WriteDecisionTail(w, TailOf(x));
  }

  method ReadDecision(r: BinReader) returns (res: Result<Decision<Pattern>, CodecError>)
    modifies r
    ensures Got(GetDecision(r.data, old(r.pos)), res, r.pos)
  {
    hide GetDecisionHead, GetDecisionTail;
    var h :- ReadDecisionHead(r);
    var t :- ReadDecisionTail(r);
    return Ok(Join(h, t));
  }
}
