/** The framed transport: encoding, strict decoding, and reception from a byte stream. */
module Protocol {
  import opened Base
  import opened Bits
  import opened Bytes
  import opened Crc

  const FRAME_MAGIC: u32 := 0x504F_5046
  const PROTOCOL_VERSION: u32 := 1
  const MAX_FRAME_PAYLOAD: nat := 16 * 1024 * 1024
  const HEADER_LEN: nat := 13

  // Message types.
  const HELLO: byte := 0
  const REGISTER_SOURCE: byte := 1
  const OBSERVATION: byte := 2
  const DECISION: byte := 3
  const OUTCOME: byte := 4
  const ACK: byte := 5
  const COORDINATOR_EPOCH: byte := 6
  const SHUTDOWN: byte := 7
  const STATUS: byte := 10
  const CONFIRM: byte := 11

  datatype Frame = Frame(kind: byte, payload: seq<byte>)

  datatype FrameError =
    | TruncatedHeader
    | BadMagic
    | UnknownVersion
    | UnknownType
    | Oversized
    | Truncated
    | ChecksumMismatch

  datatype EncodeError = PayloadExceedsCap | InvalidType

  predicate ValidType(t: byte) {
    t <= CONFIRM
  }

  predicate ValidFrame(f: Frame) {
    ValidType(f.kind) && |f.payload| <= MAX_FRAME_PAYLOAD
  }

  // ----- encoding

  function Header(kind: byte, length: nat, version: u32): (h: seq<byte>)
    ensures |h| == HEADER_LEN
  {
    LE(FRAME_MAGIC, 4) + LE(version, 4) + [kind] + LE(length, 4)
  }

  function Checked(f: Frame, version: u32): seq<byte> {
    Header(f.kind, |f.payload|, version) + f.payload
  }

  /** The bytes of a frame on the wire. */
  function Wire(f: Frame, version: u32): (w: seq<byte>)
    ensures |w| == HEADER_LEN + |f.payload| + 4
  {
    Checked(f, version) + LE(CrcValue(Checked(f, version)), 4)
  }

  method PutU32(v: seq<byte>, x: u32) returns (out: seq<byte>)
    ensures out == v + LE(x, 4)
  {
    out := v + [x % 0x100];
    out := out + [x / 0x100 % 0x100];
    out := out + [x / 0x1_0000 % 0x100];
    out := out + [x / 0x100_0000 % 0x100];
    LE4(x);
    hide LE;
    assert out == v + [x % 0x100, x / 0x100 % 0x100, x / 0x1_0000 % 0x100, x / 0x100_0000 % 0x100];
  }

  method EncodeFrame(kind: byte, payload: seq<byte>, version: u32) returns (r: Result<seq<byte>, EncodeError>)
    ensures |payload| > MAX_FRAME_PAYLOAD ==> r == Err(PayloadExceedsCap)
    ensures |payload| <= MAX_FRAME_PAYLOAD && !ValidType(kind) ==> r == Err(InvalidType)
    ensures ValidFrame(Frame(kind, payload)) ==> r == Ok(Wire(Frame(kind, payload), version))
  {
    if |payload| > MAX_FRAME_PAYLOAD {
      return Err(PayloadExceedsCap);
    }
    if !ValidType(kind) {
      return Err(InvalidType);
    }
    hide CrcValue, LE;
    var out := PutU32([], FRAME_MAGIC);
    assert out == LE(FRAME_MAGIC, 4);
    out := PutU32(out, version);
    out := out + [kind];
    out := PutU32(out, |payload|);
    out := out + payload;
    assert out == Checked(Frame(kind, payload), version);
    var crc := Crc32(out);
    out := PutU32(out, crc);
    return Ok(out);
  }

  // ----- decoding

  function ReadU32(data: seq<byte>, at: nat): (n: u32)
    requires at + 4 <= |data|
    ensures n == FromLE(data[at..at + 4])
  {
    FromLE4(data[at..at + 4]);
    data[at] as int + 0x100 * (data[at + 1] as int) + 0x1_0000 * (data[at + 2] as int) +
      0x100_0000 * (data[at + 3] as int)
  }

  /** The first check a buffer fails, in the decoder's order. */
  function Fault(data: seq<byte>): Option<FrameError> {
    if |data| < HEADER_LEN + 4 then Some(TruncatedHeader)
    else if ReadU32(data, 0) != FRAME_MAGIC then Some(BadMagic)
    else if ReadU32(data, 4) != PROTOCOL_VERSION then Some(UnknownVersion)
    else if !ValidType(data[8]) then Some(UnknownType)
    else if ReadU32(data, 9) > MAX_FRAME_PAYLOAD then Some(Oversized)
    else
      var end := HEADER_LEN + ReadU32(data, 9);
      if |data| < end + 4 then Some(Truncated)
      else if ReadU32(data, end) != CrcValue(data[..end]) then Some(ChecksumMismatch)
      else None
  }

  /** The frame at the front of a buffer and the number of bytes it occupies. */
  function Decode(data: seq<byte>): (r: Result<(Frame, nat), FrameError>)
    ensures r.Ok? ==> r.value.1 <= |data|
  {
    match Fault(data)
    case Some(e) => Err(e)
    case None =>
      var end := HEADER_LEN + ReadU32(data, 9);
      Ok((Frame(data[8], data[HEADER_LEN..end]), end + 4))
  }

  lemma ReadU32OfLE(data: seq<byte>, at: nat, x: u32)
    requires at + 4 <= |data|
    ensures ReadU32(data, at) == x <==> data[at..at + 4] == LE(x, 4)
  {
    Pow256Words();
    FromLEOfLE(x, 4);
    LEOfFromLE(data[at..at + 4]);
  }

  /** Exactly the buffers that start with the wire form of a valid frame decode, to that frame. */
  lemma DecodeCharacterized(data: seq<byte>, f: Frame, n: nat)
    ensures Decode(data) == Ok((f, n)) <==>
            ValidFrame(f) && Wire(f, PROTOCOL_VERSION) <= data && n == |Wire(f, PROTOCOL_VERSION)|
  {
    if Decode(data) == Ok((f, n)) {
      DecodeSound(data, f, n);
    }
    if ValidFrame(f) && Wire(f, PROTOCOL_VERSION) <= data && n == |Wire(f, PROTOCOL_VERSION)| {
      DecodeComplete(data, f);
    }
  }

  lemma DecodeSound(data: seq<byte>, f: Frame, n: nat)
    requires Decode(data) == Ok((f, n))
    ensures ValidFrame(f) && n == |Wire(f, PROTOCOL_VERSION)| && Wire(f, PROTOCOL_VERSION) == data[..n]
  {
    hide Decode, Header, LE, CrcValue;
    var end := HEADER_LEN + |f.payload|;
    DecodedHeader(data, f, n);
    DecodedTrailer(data, f, n);
    assert data[..end] == data[..HEADER_LEN] + f.payload;
    assert data[..n] == data[..end] + data[end..n];
  }

  lemma DecodedHeader(data: seq<byte>, f: Frame, n: nat)
    requires Decode(data) == Ok((f, n))
    ensures ValidFrame(f) && n == HEADER_LEN + |f.payload| + 4 <= |data|
    ensures data[..HEADER_LEN] == Header(f.kind, |f.payload|, PROTOCOL_VERSION)
  {
    hide Header, LE, CrcValue;
    HeaderOfReads(data, |f.payload|);
  }

  lemma DecodedTrailer(data: seq<byte>, f: Frame, n: nat)
    requires Decode(data) == Ok((f, n)) && n == HEADER_LEN + |f.payload| + 4 <= |data|
    ensures data[HEADER_LEN..n - 4] == f.payload && data[n - 4..n] == LE(CrcValue(data[..n - 4]), 4)
  {
    hide Header, LE, CrcValue;
    ReadU32OfLE(data, n - 4, CrcValue(data[..n - 4]));
  }

  lemma HeaderOfReads(data: seq<byte>, length: u32)
    requires |data| >= HEADER_LEN
    ensures ReadU32(data, 0) == FRAME_MAGIC && ReadU32(data, 4) == PROTOCOL_VERSION && ReadU32(data, 9) == length
            <==> data[..HEADER_LEN] == Header(data[8], length, PROTOCOL_VERSION)
  {
    ReadU32OfLE(data, 0, FRAME_MAGIC);
    ReadU32OfLE(data, 4, PROTOCOL_VERSION);
    ReadU32OfLE(data, 9, length);
    var d, h := data[..HEADER_LEN], Header(data[8], length, PROTOCOL_VERSION);
    assert d == d[0..4] + d[4..8] + [d[8]] + d[9..13];
    assert h[0..4] == LE(FRAME_MAGIC, 4) && h[4..8] == LE(PROTOCOL_VERSION, 4) && h[9..13] == LE(length, 4);
    assert data[0..4] == d[0..4] && data[4..8] == d[4..8] && data[9..13] == d[9..13];
  }

  lemma DecodeComplete(data: seq<byte>, f: Frame)
    requires ValidFrame(f) && Wire(f, PROTOCOL_VERSION) <= data
    ensures Decode(data) == Ok((f, |Wire(f, PROTOCOL_VERSION)|))
  {
    hide Wire, Header, LE, CrcValue;
    var end := HEADER_LEN + |f.payload|;
    WireParts(data, f);
    HeaderOfReads(data, |f.payload|);
    ReadU32OfLE(data, end, CrcValue(data[..end]));
  }

  /** The parts of a frame at the front of a buffer. */
  lemma WireParts(data: seq<byte>, f: Frame)
    requires Wire(f, PROTOCOL_VERSION) <= data
    ensures
      var end := HEADER_LEN + |f.payload|;
      && end + 4 <= |data| && data[8] == f.kind && data[HEADER_LEN..end] == f.payload
      && data[..HEADER_LEN] == Header(f.kind, |f.payload|, PROTOCOL_VERSION)
      && data[end..end + 4] == LE(CrcValue(data[..end]), 4)
  {
    hide LE, CrcValue;
    var w, c := Wire(f, PROTOCOL_VERSION), Checked(f, PROTOCOL_VERSION);
    var h := Header(f.kind, |f.payload|, PROTOCOL_VERSION);
    assert data[..|c|] == w[..|c|] == c;
    assert data[|c|..|w|] == w[|c|..] == LE(CrcValue(c), 4);
    assert data[..HEADER_LEN] == c[..HEADER_LEN] == h;
    assert data[HEADER_LEN..|c|] == data[..|c|][HEADER_LEN..] == f.payload;
    assert data[8] == h[8] == f.kind;
  }

  method DecodeFrame(data: seq<byte>) returns (ok: bool, consumed: nat, out: Frame, err: Option<FrameError>)
    ensures ok <==> Decode(data).Ok?
    ensures ok ==> Decode(data) == Ok((out, consumed))
    ensures ok ==> ValidFrame(out) && Wire(out, PROTOCOL_VERSION) == data[..consumed]
    ensures err == Fault(data)
  {
    ok, consumed, out, err := false, 0, Frame(HELLO, []), None;
    if |data| < HEADER_LEN + 4 { err := Some(TruncatedHeader); return; }
    var magic := ReadU32(data, 0);
    if magic != FRAME_MAGIC { err := Some(BadMagic); return; }
    var version := ReadU32(data, 4);
    if version != PROTOCOL_VERSION { err := Some(UnknownVersion); return; }
    var kind := data[8];
    if !ValidType(kind) { err := Some(UnknownType); return; }
    var length := ReadU32(data, 9);
    if length > MAX_FRAME_PAYLOAD { err := Some(Oversized); return; }
    var total := HEADER_LEN + length + 4;
    if |data| < total { err := Some(Truncated); return; }
    var stored := ReadU32(data, HEADER_LEN + length);
    var computed := Crc32(data[..HEADER_LEN + length]);
    if stored != computed { err := Some(ChecksumMismatch); return; }
    ok, consumed, out := true, total, Frame(kind, data[HEADER_LEN..HEADER_LEN + length]);
    DecodeSound(data, out, consumed);
  }

  // ----- error detection

  /** Data followed by its own checksum leaves the constant residue in the register. */
  lemma WireResidue(data: seq<byte>)
    ensures Lfsr(Ones(32), BitsOf(data + LE(CrcValue(data), 4)), Generator()) == Residue(Generator())
  {
    var g := Generator();
    var r := Lfsr(Ones(32), BitsOf(data), g);
    BitsOfConcat(data, LE(CrcValue(data), 4));
    BitsOfLE(CrcValue(data), 4);
    LfsrConcat(Ones(32), BitsOf(data), NumBits(CrcValue(data), 32), g);
    ChecksumIsFrameCheckSequence(data);
    ResidueCharacterizes(r, NumBits(CrcValue(data), 32), g);
  }

  /** Every change of a frame's bits inside a window of at most 32 consecutive bits, wherever
      the window lies, is rejected, as long as the length field still reads the same. */
  lemma BurstRejected(f: Frame, damaged: seq<byte>, at: nat, width: nat, rest: seq<byte>)
    requires ValidFrame(f)
    requires var w := Wire(f, PROTOCOL_VERSION);
             |damaged| == |w| && damaged != w && damaged[9..13] == w[9..13]
    requires width <= 32 && at + width <= 8 * |damaged|
    requires var u, v := BitsOf(Wire(f, PROTOCOL_VERSION)), BitsOf(damaged);
             u[..at] == v[..at] && u[at + width..] == v[at + width..]
    ensures Decode(damaged + rest).Err?
  {
    if Decode(damaged + rest).Ok? {
      var w := Wire(f, PROTOCOL_VERSION);
      var f' := DecodedWhole(f, damaged, rest);
      WireResidue(Checked(f, PROTOCOL_VERSION));
      WireResidue(Checked(f', PROTOCOL_VERSION));
      BurstSeparates(w, damaged, at, width);
    }
  }

  lemma DecodedLength(data: seq<byte>)
    requires Decode(data).Ok?
    ensures |data| >= HEADER_LEN && Decode(data).value.1 == HEADER_LEN + ReadU32(data, 9) + 4
  {
  }

  lemma LengthField(f: Frame)
    requires |f.payload| < TWO32
    ensures Wire(f, PROTOCOL_VERSION)[9..13] == LE(|f.payload|, 4)
  {
  }

  /** With the length field intact, a damaged frame that decodes is the whole wire form of a frame. */
  lemma DecodedWhole(f: Frame, damaged: seq<byte>, rest: seq<byte>) returns (f': Frame)
    requires ValidFrame(f) && Decode(damaged + rest).Ok?
    requires var w := Wire(f, PROTOCOL_VERSION); |damaged| == |w| && damaged[9..13] == w[9..13]
    ensures damaged == Wire(f', PROTOCOL_VERSION)
  {
    hide Wire, Decode, ReadU32, LE;
    f' := Decode(damaged + rest).value.0;
    DecodeSound(damaged + rest, f', Decode(damaged + rest).value.1);
    DecodedLength(damaged + rest);
    LengthField(f);
    FrontSlices(damaged, rest);
    ReadU32OfLE(damaged + rest, 9, |f.payload|);
  }

  lemma FrontSlices(a: seq<byte>, b: seq<byte>)
    requires |a| >= 13
    ensures (a + b)[9..13] == a[9..13] && (a + b)[..|a|] == a
  {
  }

  lemma BurstSeparates(a: seq<byte>, b: seq<byte>, at: nat, width: nat)
    requires |a| == |b| && a != b
    requires width <= 32 && at + width <= 8 * |a|
    requires BitsOf(a)[..at] == BitsOf(b)[..at] && BitsOf(a)[at + width..] == BitsOf(b)[at + width..]
    ensures Lfsr(Ones(32), BitsOf(a), Generator()) != Lfsr(Ones(32), BitsOf(b), Generator())
  {
    var u, v := BitsOf(a), BitsOf(b);
    var x, y := u[at..at + width], v[at..at + width];
    assert u == u[..at] + x + u[at + width..];
    assert v == u[..at] + y + u[at + width..];
    if x == y {
      BitsOfInjective(a, b);
    }
    BurstChangesRegister(Ones(32), u[..at], x, y, u[at + width..], Generator());
  }

  /** The same for whole bytes: any damage confined to four consecutive bytes is detected. */
  lemma FourByteDamageRejected(f: Frame, damaged: seq<byte>, at: nat, rest: seq<byte>)
    requires ValidFrame(f)
    requires var w := Wire(f, PROTOCOL_VERSION);
             |damaged| == |w| && damaged != w && damaged[9..13] == w[9..13] && at + 4 <= |w|
             && damaged[..at] == w[..at] && damaged[at + 4..] == w[at + 4..]
    ensures Decode(damaged + rest).Err?
  {
    SameBitsOutside(Wire(f, PROTOCOL_VERSION), damaged, at);
    BurstRejected(f, damaged, 8 * at, 32, rest);
  }

  lemma SameBitsOutside(a: seq<byte>, b: seq<byte>, at: nat)
    requires |a| == |b| && at + 4 <= |a| && a[..at] == b[..at] && a[at + 4..] == b[at + 4..]
    ensures BitsOf(a)[..8 * at] == BitsOf(b)[..8 * at]
    ensures BitsOf(a)[8 * at + 32..] == BitsOf(b)[8 * at + 32..]
  {
    hide BitsOf;
    BitsOfSlices(a, at);
    BitsOfSlices(b, at);
    BitsOfSlices(a, at + 4);
    BitsOfSlices(b, at + 4);
  }

  lemma BitsOfSlices(a: seq<byte>, k: nat)
    requires k <= |a|
    ensures BitsOf(a)[..8 * k] == BitsOf(a[..k]) && BitsOf(a)[8 * k..] == BitsOf(a[k..])
  {
    hide BitsOf;
    assert a == a[..k] + a[k..];
    BitsOfConcat(a[..k], a[k..]);
  }

  // ----- reception from a stream

  /** A connected peer: the bytes it will still deliver before closing. How they are cut into
      reads is not determined. */
  class Socket {
    var incoming: seq<byte>
    const open: bool

    constructor (bytes: seq<byte>, open: bool)
      ensures incoming == bytes && this.open == open
    {
      this.incoming := bytes;
      this.open := open;
    }

    /** One read: any non-empty prefix of at most `n` bytes, or nothing once the peer has closed. */
    method Recv(n: nat) returns (chunk: seq<byte>)
      requires n > 0
      modifies this
      ensures |chunk| <= n && old(incoming) == chunk + incoming
      ensures chunk == [] <==> old(incoming) == []
    {
      if incoming == [] {
        return [];
      }
      var k: nat :| 1 <= k <= n && k <= |incoming|;
      chunk := incoming[..k];
      incoming := incoming[k..];
    }

    /** Reads exactly `n` bytes, or reports that the peer closed first. */
    method RecvExact(n: nat) returns (ok: bool, data: seq<byte>)
      modifies this
      ensures ok <==> open && n <= |old(incoming)|
      ensures ok ==> data == old(incoming)[..n] && incoming == old(incoming)[n..]
    {
      data := [];
      if !open {
        return false, data;
      }
      while |data| < n
        invariant |data| <= n && old(incoming) == data + incoming
        decreases n - |data|
      {
        var chunk := Recv(n - |data|);
        if chunk == [] {
          return false, data;
        }
        data := data + chunk;
      }
      ok := true;
    }
  }

  /** Receives one frame. It succeeds exactly when the buffer decoder accepts the same bytes,
      with the same frame, and leaves the stream just behind that frame. */
  method RecvFrame(s: Socket) returns (ok: bool, f: Frame)
    modifies s
    ensures ok <==> s.open && Decode(old(s.incoming)).Ok?
    ensures ok ==> f == Decode(old(s.incoming)).value.0
    ensures ok ==> s.incoming == old(s.incoming)[Decode(old(s.incoming)).value.1..]
  {
    ghost var stream := s.incoming;
    f := Frame(HELLO, []);
    var hdr;
    ok, hdr := s.RecvExact(HEADER_LEN);
    if !ok { return; }
    ok := false;
    HeaderReads(stream, hdr);
    if ReadU32(hdr, 0) != FRAME_MAGIC { return; }
    if ReadU32(hdr, 4) != PROTOCOL_VERSION { return; }
    var kind := hdr[8];
    if !ValidType(kind) { return; }
    var length := ReadU32(hdr, 9);
    if length > MAX_FRAME_PAYLOAD { return; }
    var end := HEADER_LEN + length;
    var payload: seq<byte> := [];
    if length > 0 {
      ok, payload := s.RecvExact(length);
      if !ok { return; }
      ok := false;
    }
    var trailer;
    ok, trailer := s.RecvExact(4);
    if !ok { return; }
    PartsRead(stream, hdr, payload, trailer);
    var stored := ReadU32(trailer, 0);
    var computed := Crc32(hdr + payload);
    f := Frame(kind, payload);
    ok := stored == computed;
  }

  lemma PartsRead(stream: seq<byte>, hdr: seq<byte>, payload: seq<byte>, trailer: seq<byte>)
    requires |hdr| == HEADER_LEN && |trailer| == 4 && hdr + payload + trailer <= stream
    ensures var end := HEADER_LEN + |payload|;
            stream[..end] == hdr + payload && stream[HEADER_LEN..end] == payload
            && ReadU32(trailer, 0) == ReadU32(stream, end)
  {
    var end := HEADER_LEN + |payload|;
    var all := hdr + payload + trailer;
    assert stream[..end] == all[..end] && stream[HEADER_LEN..end] == all[HEADER_LEN..end];
    assert stream[end..end + 4] == all[end..] == trailer;
    assert trailer[0..4] == trailer;
  }

  lemma HeaderReads(stream: seq<byte>, hdr: seq<byte>)
    requires |stream| >= HEADER_LEN && hdr == stream[..HEADER_LEN]
    ensures ReadU32(hdr, 0) == ReadU32(stream, 0) && ReadU32(hdr, 4) == ReadU32(stream, 4)
    ensures ReadU32(hdr, 9) == ReadU32(stream, 9) && hdr[8] == stream[8]
  {
  }

  // ----- sequences of frames

  function WireAll(fs: seq<Frame>): seq<byte> {
    if fs == [] then [] else Wire(fs[0], PROTOCOL_VERSION) + WireAll(fs[1..])
  }

  /** The frames repeated reception yields before it first fails. */
  function Frames(stream: seq<byte>): seq<Frame>
    decreases |stream|
  {
    match Decode(stream)
    case Err(_) => []
    case Ok((f, n)) =>
      DecodeSound(stream, f, n);
      [f] + Frames(stream[n..])
  }

  /** Any concatenation of encoded frames is received as exactly that sequence, whatever
      undecodable bytes follow. */
  lemma {:induction false} FramesOfWireAll(fs: seq<Frame>, tail: seq<byte>)
    requires forall i :: 0 <= i < |fs| ==> ValidFrame(fs[i])
    requires Decode(tail).Err?
    ensures Frames(WireAll(fs) + tail) == fs
    decreases |fs|
  {
    hide Decode, Wire, Frames;
    var stream := WireAll(fs) + tail;
    if fs == [] {
      assert stream == tail;
      NoFrames(tail);
    } else {
      var w := Wire(fs[0], PROTOCOL_VERSION);
      var after := WireAll(fs[1..]) + tail;
      assert stream == w + after;
      DecodeComplete(stream, fs[0]);
      assert stream[|w|..] == after;
      FramesOfWireAll(fs[1..], tail);
      FramesStep(stream, fs[0], |w|);
    }
  }

  lemma NoFrames(stream: seq<byte>)
    requires Decode(stream).Err?
    ensures Frames(stream) == []
  {
  }

  lemma FramesStep(stream: seq<byte>, f: Frame, n: nat)
    requires Decode(stream) == Ok((f, n))
    ensures n <= |stream| && Frames(stream) == [f] + Frames(stream[n..])
  {
    DecodeSound(stream, f, n);
  }
}
