/** The checksummed record envelope, logs made of such records, and what survives truncation;
    and the codec's main results: exact round trips, prefix-freeness and stable re-encoding. */
module RecordLog {
  import opened Base
  import opened Bytes
  import opened Model
  import opened Serialize
  import opened Records
  import opened RecordIO
  import Sha256

  const RECORD_MAGIC: u32 := 0x504D_4252
  const RECORD_VERSION: u32 := 1
  const MAX_BODY: nat := 64 * 1024 * 1024
  const ENVELOPE_HEADER: nat := 17
  const DIGEST_LEN: nat := 32

  // Record kinds.
  const OBSERVATION: byte := 1
  const DECISION: byte := 2
  const OUTCOME: byte := 3
  const SOURCE_DESCRIPTOR: byte := 4
  const EPOCH: byte := 8

  datatype Record = Record(kind: byte, body: seq<byte>)

  predicate ValidKind(k: byte) {
    1 <= k <= 8
  }

  predicate Loadable(r: Record) {
    ValidKind(r.kind) && |r.body| <= MAX_BODY
  }

  // ----- the envelope

  function Prefix(r: Record, version: u32 := RECORD_VERSION): (p: seq<byte>)
    ensures |p| == ENVELOPE_HEADER + |r.body|
  {
    PutU8(PutU32(PutU32([], RECORD_MAGIC), version), r.kind) + LE(|r.body|, 8) + r.body
  }

  function Envelope(r: Record, version: u32 := RECORD_VERSION): (e: seq<byte>)
    ensures |e| == ENVELOPE_HEADER + |r.body| + DIGEST_LEN
  {
    Prefix(r, version) + Sha256.Digest(Prefix(r, version))
  }

  method EncodeRecord(kind: byte, body: seq<byte>, version: u32 := RECORD_VERSION) returns (out: seq<byte>)
    ensures out == Envelope(Record(kind, body), version)
  {
    hide Sha256.Digest;
    var w := new BinWriter();
    w.U32(RECORD_MAGIC);
    w.U32(version);
    w.U8(kind);
    w.LittleEndian(|body|, 8);
    w.Raw(body);
    var d := Sha256.DigestOf(w.buf);
    out := w.buf + d;
  }

  /** Reads the record of version `expected` at the front of `data`; in streaming mode bytes may
      follow it. */
  function DecodeRecord(data: seq<byte>, streaming: bool, expected: u32 := RECORD_VERSION)
    : Result<(Record, nat), CodecError>
  {
    var (magic, p) :- GetU32(data, 0);
    if magic != RECORD_MAGIC then Err(CorruptData) else
    var (version, p) :- GetU32(data, p);
    if version != expected then Err(CodecError.UnknownVersion) else
    var (kind, p) :- GetU8(data, p);
    if !ValidKind(kind) then Err(CorruptData) else
    var (len, p) :- GetU64(data, p);
    if len > MAX_BODY then Err(CorruptData)
    else if |data| - p < len + DIGEST_LEN then Err(TruncatedData)
    else
      var total := ENVELOPE_HEADER + len + DIGEST_LEN;
      if !streaming && |data| != total then Err(TrailingData)
      else if Sha256.Digest(data[..ENVELOPE_HEADER + len]) != data[ENVELOPE_HEADER + len..total] then Err(CorruptData)
      else Ok((Record(kind, data[ENVELOPE_HEADER..ENVELOPE_HEADER + len]), total))
  }

  method ReadRecord(data: seq<byte>, streaming: bool, expected: u32 := RECORD_VERSION)
    returns (res: Result<(Record, nat), CodecError>)
    ensures res == DecodeRecord(data, streaming, expected)
  {
    hide Sha256.Digest;
    var r := new BinReader(data);
    var magic :- r.U32();
    if magic != RECORD_MAGIC { return Err(CorruptData); }
    var version :- r.U32();
    if version != expected { return Err(CodecError.UnknownVersion); }
    var kind :- r.U8();
    if !ValidKind(kind) { return Err(CorruptData); }
    var len :- r.U64();
    if len > MAX_BODY { return Err(CorruptData); }
    if |data| - r.pos < len + DIGEST_LEN { return Err(TruncatedData); }
    var total := ENVELOPE_HEADER + len + DIGEST_LEN;
    if !streaming && |data| != total { return Err(TrailingData); }
    var d := Sha256.DigestOf(data[..ENVELOPE_HEADER + len]);
    if d != data[ENVELOPE_HEADER + len..total] { return Err(CorruptData); }
    return Ok((Record(kind, data[ENVELOPE_HEADER..ENVELOPE_HEADER + len]), total));
  }

  /** The header fields of an enveloped record, read back from any data that carries them. */
  lemma HeaderReads(r: Record, data: seq<byte>, version: u32 := RECORD_VERSION)
    requires |r.body| < TWO64
    requires ENVELOPE_HEADER <= |data| && data[..ENVELOPE_HEADER] == Prefix(r, version)[..ENVELOPE_HEADER]
    ensures GetU32(data, 0) == Ok((RECORD_MAGIC, 4)) && GetU32(data, 4) == Ok((version, 8))
    ensures GetU8(data, 8) == Ok((r.kind, 9)) && GetU64(data, 9) == Ok((|r.body|, 17))
  {
    var b1 := PutU32([], RECORD_MAGIC);
    var b2 := PutU32(b1, version);
    var b3 := PutU8(b2, r.kind);
    var b4 := PutU64(b3, |r.body|);
    assert Prefix(r, version)[..ENVELOPE_HEADER] == b4;
    assert b4 <= data;
    U64Reads(b3, |r.body|, data);
    U8Reads(b2, r.kind, data);
    U32Reads(b1, version, data);
    U32Reads([], RECORD_MAGIC, data);
  }

  /** An enveloped record is read back exactly when its kind is known, its body within the cap,
      and nothing follows it or the reader streams. */
  lemma EnvelopeReads(r: Record, rest: seq<byte>, streaming: bool := true, version: u32 := RECORD_VERSION)
    requires |r.body| < TWO64
    ensures DecodeRecord(Envelope(r, version) + rest, streaming, version) ==
            if !Loadable(r) then Err(CorruptData)
            else if streaming || rest == [] then Ok((r, |Envelope(r, version)|))
            else Err(TrailingData)
  {
    hide GetU32, GetU64, GetU8, Sha256.Digest, Prefix;
    var data := Envelope(r, version) + rest;
    var end := ENVELOPE_HEADER + |r.body|;
    assert data[..end] == Prefix(r, version);
    assert data[..ENVELOPE_HEADER] == Prefix(r, version)[..ENVELOPE_HEADER];
    HeaderReads(r, data, version);
    BodyOfPrefix(r, version);
    assert data[ENVELOPE_HEADER..end] == Prefix(r, version)[ENVELOPE_HEADER..];
    assert data[end..end + DIGEST_LEN] == Sha256.Digest(Prefix(r, version));
  }

  /** A record of any other version is refused for its version, before anything after it is
      looked at. */
  lemma OtherVersionRefused(r: Record, rest: seq<byte>, streaming: bool, version: u32, expected: u32)
    requires |r.body| < TWO64 && version != expected
    ensures DecodeRecord(Envelope(r, version) + rest, streaming, expected) == Err(CodecError.UnknownVersion)
  {
    hide GetU32, GetU64, GetU8, Sha256.Digest, Prefix;
    var data := Envelope(r, version) + rest;
    assert data[..ENVELOPE_HEADER] == Prefix(r, version)[..ENVELOPE_HEADER];
    HeaderReads(r, data, version);
  }

  lemma BodyOfPrefix(r: Record, version: u32 := RECORD_VERSION)
    ensures Prefix(r, version)[ENVELOPE_HEADER..] == r.body
  {
  }

  /** A record cut short anywhere is never accepted. */
  lemma CutRecordRejected(r: Record, n: nat, streaming: bool := true, version: u32 := RECORD_VERSION)
    requires |r.body| < TWO64 && n < |Envelope(r, version)|
    ensures DecodeRecord(Envelope(r, version)[..n], streaming, version).Err?
  {
    hide Sha256.Digest, Prefix;
    var data := Envelope(r, version)[..n];
    if n >= ENVELOPE_HEADER {
      hide GetU32, GetU64, GetU8;
      assert data[..ENVELOPE_HEADER] == Prefix(r, version)[..ENVELOPE_HEADER];
      HeaderReads(r, data, version);
    }
  }

  // ----- logs

  function LogOf(rs: seq<Record>): seq<byte> {
    if rs == [] then [] else Envelope(rs[0]) + LogOf(rs[1..])
  }

  lemma ConsumedIsPositive(data: seq<byte>)
    requires DecodeRecord(data, true).Ok?
    ensures 0 < DecodeRecord(data, true).value.1 <= |data|
  {
  }

  /** The records streamed from a log: decoding stops at the first one that is corrupt, cut
      short or of an unknown version. */
  function Parse(log: seq<byte>): seq<Record>
    decreases |log|
  {
    match DecodeRecord(log, true)
    case Err(_) => []
    case Ok((r, n)) =>
      ConsumedIsPositive(log);
      [r] + Parse(log[n..])
  }

  predicate Bounded(rs: seq<Record>) {
    forall i :: 0 <= i < |rs| ==> |rs[i].body| < TWO64
  }

  /** The records a log yields are the ones before the first that is over the cap. */
  function LoadablePart(rs: seq<Record>): seq<Record> {
    if rs == [] || !Loadable(rs[0]) then [] else [rs[0]] + LoadablePart(rs[1..])
  }

  /** Crash safety: whatever prefix of a log is left, exactly the records lying wholly inside it
      are streamed, followed by nothing from the record that was cut. */
  lemma {:induction false} ParsePrefix(rs: seq<Record>, n: nat) returns (k: nat)
    requires Bounded(rs) && n <= |LogOf(rs)|
    ensures k <= |rs| && |LogOf(rs[..k])| <= n
    ensures k < |rs| ==> n < |LogOf(rs[..k + 1])|
    ensures Parse(LogOf(rs)[..n]) == LoadablePart(rs[..k]) == Parse(LogOf(rs[..k]))
    decreases |rs|
  {
    hide DecodeRecord, Envelope;
    if rs == [] {
      k := 0;
      EmptyLog();
    } else {
      var e, tail := Envelope(rs[0]), LogOf(rs[1..]);
      if n < |e| {
        k := 0;
        assert LogOf(rs)[..n] == e[..n];
        CutRecordRejected(rs[0], n);
        EmptyLog();
        assert rs[..1][1..] == [] && LogOf(rs[..1]) == e + LogOf([]);
      } else {
        var j := ParsePrefix(rs[1..], n - |e|);
        k := j + 1;
        LogPrefix(rs, j);
        if j < |rs| - 1 {
          LogPrefix(rs, j + 1);
        }
        assert LogOf(rs)[..n] == e + tail[..n - |e|];
        ParseStep(rs[0], tail[..n - |e|]);
        ParseStep(rs[0], LogOf(rs[1..][..j]));
        assert rs[..k][0] == rs[0] && rs[..k][1..] == rs[1..][..j];
      }
    }
  }

  lemma EmptyLog()
    ensures DecodeRecord([], true).Err? && Parse([]) == [] && LogOf([]) == []
  {
  }

  lemma LogPrefix(rs: seq<Record>, j: nat)
    requires rs != [] && j < |rs|
    ensures LogOf(rs[..j + 1]) == Envelope(rs[0]) + LogOf(rs[1..][..j])
  {
    assert rs[..j + 1][1..] == rs[1..][..j];
  }

  lemma ParseStep(r: Record, rest: seq<byte>)
    requires |r.body| < TWO64
    ensures Parse(Envelope(r) + rest) == if Loadable(r) then [r] + Parse(rest) else []
  {
    hide DecodeRecord, Envelope;
    EnvelopeReads(r, rest);
    assert (Envelope(r) + rest)[|Envelope(r)|..] == rest;
  }

  /** A whole log streams back its records, up to the first that is over the cap. */
  lemma {:induction false} ParseLog(rs: seq<Record>)
    requires Bounded(rs)
    ensures Parse(LogOf(rs)) == LoadablePart(rs)
    decreases |rs|
  {
    if rs == [] {
      EmptyLog();
    } else {
      hide Envelope;
      ParseLog(rs[1..]);
      ParseStep(rs[0], LogOf(rs[1..]));
    }
  }

  lemma {:induction false} AllLoadable(rs: seq<Record>)
    requires forall i :: 0 <= i < |rs| ==> Loadable(rs[i])
    ensures LoadablePart(rs) == rs
    decreases |rs|
  {
    if rs == [] {
    } else {
      AllLoadable(rs[1..]);
    }
  }

  // ----- the codec's results for whole records

  /** A decision comes back erased, with the position exactly behind its encoding, whatever
      follows, if and only if it fits the reader's limits. */
  lemma DecisionRoundTrip(d: Decision<Pattern>, rest: seq<byte>)
    ensures GetDecision(PutDecision([], d) + rest, 0) == Ok((EraseDecision(d), |PutDecision([], d)|)) <==>
            FitsDecision(d)
  {
    hide GetDecision, PutDecision, EraseDecision, FitsDecision;
    DecisionReads([], d, PutDecision([], d) + rest);
  }

  /** No encoding of a fitting decision is a prefix of another's: what was written can be cut off
      the front in only one way. */
  lemma DecisionPrefixFree(d1: Decision<Pattern>, rest1: seq<byte>, d2: Decision<Pattern>, rest2: seq<byte>)
    requires FitsDecision(d1) && FitsDecision(d2)
    requires PutDecision([], d1) + rest1 == PutDecision([], d2) + rest2
    ensures EraseDecision(d1) == EraseDecision(d2) && rest1 == rest2
  {
    hide GetDecision, PutDecision, EraseDecision, FitsDecision;
    DecisionRoundTrip(d1, rest1);
    DecisionRoundTrip(d2, rest2);
    var data := PutDecision([], d1) + rest1;
    var n := |PutDecision([], d1)|;
    assert rest1 == data[n..] == rest2;
  }

  /** Writing again what was read gives the same bytes. */
  lemma DecisionReencoding(d: Decision<Pattern>, rest: seq<byte>)
    requires FitsDecision(d)
    ensures var r := GetDecision(PutDecision([], d) + rest, 0);
            r.Ok? && PutDecision([], r.value.0) == PutDecision([], d)
  {
    hide GetDecision, PutDecision, EraseDecision, FitsDecision;
    DecisionRoundTrip(d, rest);
    DecisionRewritten([], d);
  }
}
