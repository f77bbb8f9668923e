/** SHA-256 as FIPS 180-4 defines it, and the streaming computation of it. */
module Sha256 {
  import opened Base

  // ----- words and functions (FIPS 180-4, sections 3.2 and 4.1.2)

  /** Addition modulo 2^32. */
  function Plus(x: u32, y: u32): u32 {
    (x + y) % TWO32
  }

  function Rotr(x: bv32, n: nat): bv32
    requires 0 < n < 32
  {
    (x >> n) | (x << (32 - n))
  }

  function Shr(x: bv32, n: nat): bv32
    requires 0 < n < 32
  {
    x >> n
  }

  function Ch(x: u32, y: u32, z: u32): u32 {
    var x, y, z := x as bv32, y as bv32, z as bv32;
    ((x & y) ^ (!x & z)) as int
  }

  function Maj(x: u32, y: u32, z: u32): u32 {
    var x, y, z := x as bv32, y as bv32, z as bv32;
    ((x & y) ^ (x & z) ^ (y & z)) as int
  }

  function BigSigma0(x: u32): u32 {
    var x := x as bv32;
    (Rotr(x, 2) ^ Rotr(x, 13) ^ Rotr(x, 22)) as int
  }

  function BigSigma1(x: u32): u32 {
    var x := x as bv32;
    (Rotr(x, 6) ^ Rotr(x, 11) ^ Rotr(x, 25)) as int
  }

  function SmallSigma0(x: u32): u32 {
    var x := x as bv32;
    (Rotr(x, 7) ^ Rotr(x, 18) ^ Shr(x, 3)) as int
  }

  function SmallSigma1(x: u32): u32 {
    var x := x as bv32;
    (Rotr(x, 17) ^ Rotr(x, 19) ^ Shr(x, 10)) as int
  }

  function BigEndianWord(b0: byte, b1: byte, b2: byte, b3: byte): u32 {
    0x100_0000 * (b0 as int) + 0x1_0000 * (b1 as int) + 0x100 * (b2 as int) + b3 as int
  }

  function BigEndianBytes(w: u32): (s: seq<byte>)
    ensures |s| == 4
  {
    [w / 0x100_0000, w / 0x1_0000 % 0x100, w / 0x100 % 0x100, w % 0x100]
  }

  // ----- the hash computation (section 6.2.2)

  datatype Hash = Hash(a: u32, b: u32, c: u32, d: u32, e: u32, f: u32, g: u32, h: u32)

  type Block = s: seq<byte> | |s| == 64 witness seq(64, _ => 0)

  function Schedule(m: Block, t: nat): u32
    requires t < 64
  {
    if t < 16 then BigEndianWord(m[4 * t], m[4 * t + 1], m[4 * t + 2], m[4 * t + 3])
    else Plus(Plus(Plus(SmallSigma1(Schedule(m, t - 2)), Schedule(m, t - 7)),
      SmallSigma0(Schedule(m, t - 15))), Schedule(m, t - 16))
  }

  /** One round, with schedule word `w` and constant `k`. */
  function Round(s: Hash, k: u32, w: u32): Hash {
    var t1 := Plus(Plus(Plus(Plus(s.h, BigSigma1(s.e)), Ch(s.e, s.f, s.g)), k), w);
    var t2 := Plus(BigSigma0(s.a), Maj(s.a, s.b, s.c));
    Hash(Plus(t1, t2), s.a, s.b, s.c, Plus(s.d, t1), s.e, s.f, s.g)
  }

  /** The state after the first `n` rounds. */
  function Rounds(s: Hash, k: seq<u32>, m: Block, n: nat): Hash
    requires n <= 64 == |k|
    decreases n
  {
    if n == 0 then s else Round(Rounds(s, k, m, n - 1), k[n - 1], Schedule(m, n - 1))
  }

  function Add(x: Hash, y: Hash): Hash {
    Hash(Plus(x.a, y.a), Plus(x.b, y.b), Plus(x.c, y.c), Plus(x.d, y.d),
         Plus(x.e, y.e), Plus(x.f, y.f), Plus(x.g, y.g), Plus(x.h, y.h))
  }

  function Compress(s: Hash, k: seq<u32>, m: Block): Hash
    requires |k| == 64
  {
    Add(Rounds(s, k, m, |k|), s)
  }

  /** The hash value after all complete blocks of `data`. */
  function HashBlocks(s: Hash, k: seq<u32>, data: seq<byte>): Hash
    requires |k| == 64
    decreases |data|
  {
    if |data| < 64 then s else HashBlocks(Compress(s, k, data[..64]), k, data[64..])
  }

  // ----- padding (section 5.1.1)

  function ZeroBytes(n: nat): (s: seq<byte>)
    ensures |s| == n && forall i :: 0 <= i < n ==> s[i] == 0
  {
    seq(n, _ => 0)
  }

  /** A 64-bit big-endian integer. */
  function BigEndian64(n: u64): (s: seq<byte>)
    ensures |s| == 8
  {
    var hi, lo := n / 0x1_0000_0000, n % 0x1_0000_0000;
    [hi / 0x100_0000, hi / 0x1_0000 % 0x100, hi / 0x100 % 0x100, hi % 0x100,
     lo / 0x100_0000, lo / 0x1_0000 % 0x100, lo / 0x100 % 0x100, lo % 0x100]
  }

  /** The number of zero bytes after the first padding byte. */
  function ZeroCount(length: nat): nat {
    (55 - length) % 64
  }

  function Padding(length: nat): (s: seq<byte>)
    ensures |s| == 1 + ZeroCount(length) + 8
  {
    [0x80] + ZeroBytes(ZeroCount(length)) + BigEndian64(8 * length % TWO64)
  }

  function Pad(msg: seq<byte>): seq<byte> {
    msg + Padding(|msg|)
  }

  /** `k` zero bits after the one bit bring a message of `bits` bits to 448 modulo 512. */
  predicate Aligns(bits: nat, k: nat) {
    (bits + 1 + k) % 512 == 448
  }

  /** The padding is the standard's: one bit, then the least number k of zero bits that makes the
      total 448 modulo 512, then the length; so the padded message is a whole number of blocks. */
  lemma PaddingIsStandard(length: nat)
    requires 8 * length < TWO64
    ensures Aligns(8 * length, 7 + 8 * ZeroCount(length))
    ensures forall j :: 0 <= j < 7 + 8 * ZeroCount(length) ==> !Aligns(8 * length, j)
    ensures Padding(length) == [0x80] + ZeroBytes(ZeroCount(length)) + BigEndian64(8 * length)
    ensures (length + |Padding(length)|) % 64 == 0
  {
    hide BigEndian64;
    var z := ZeroCount(length);
    ZerosAlign(length, z);
    assert 8 * length % TWO64 == 8 * length;
    forall j | 0 <= j < 7 + 8 * z
      ensures !Aligns(8 * length, j)
    {
      LeastAligning(8 * length, 7 + 8 * z, j);
    }
  }

  lemma ZerosAlign(length: nat, z: nat)
    requires z == (55 - length) % 64
    ensures (length + 1 + z) % 64 == 56 && Aligns(8 * length, 7 + 8 * z)
  {
    var q := (length + 1 + z) / 64;
    assert 8 * length + 8 + 8 * z == 512 * q + 448;
  }

  lemma LeastAligning(bits: nat, k: nat, j: nat)
    requires Aligns(bits, k) && j < k < 512
    ensures !Aligns(bits, j)
  {
  }

  /** Different messages have different padded forms. */
  lemma PadInjective(a: seq<byte>, b: seq<byte>)
    requires 8 * |a| < TWO64 && 8 * |b| < TWO64
    requires Pad(a) == Pad(b)
    ensures a == b
  {
    LengthField(a);
    LengthField(b);
    BigEndian64Injective(8 * |a|, 8 * |b|);
    assert a == Pad(a)[..|a|] && b == Pad(b)[..|b|];
  }

  lemma LengthField(a: seq<byte>)
    requires 8 * |a| < TWO64
    ensures Pad(a)[|Pad(a)| - 8..] == BigEndian64(8 * |a|)
  {
    assert 8 * |a| % TWO64 == 8 * |a|;
  }

  lemma BigEndian64Injective(m: u64, n: u64)
    requires BigEndian64(m) == BigEndian64(n)
    ensures m == n
  {
    HalvesEqual(m / 0x1_0000_0000, n / 0x1_0000_0000, BigEndian64(m)[..4], BigEndian64(n)[..4]);
    HalvesEqual(m % 0x1_0000_0000, n % 0x1_0000_0000, BigEndian64(m)[4..], BigEndian64(n)[4..]);
  }

  lemma HalvesEqual(m: u32, n: u32, s: seq<byte>, t: seq<byte>)
    requires s == t
    requires s == [m / 0x100_0000, m / 0x1_0000 % 0x100, m / 0x100 % 0x100, m % 0x100]
    requires t == [n / 0x100_0000, n / 0x1_0000 % 0x100, n / 0x100 % 0x100, n % 0x100]
    ensures m == n
  {
    FourDigits(m);
    FourDigits(n);
    assert s[0] == t[0] && s[1] == t[1] && s[2] == t[2] && s[3] == t[3];
  }

  lemma FourDigits(m: u32)
    ensures m == 0x100_0000 * (m / 0x100_0000) + 0x1_0000 * (m / 0x1_0000 % 0x100) +
            0x100 * (m / 0x100 % 0x100) + m % 0x100
  {
    var q := m / 0x100;
    var r := q / 0x100;
    assert m == 0x100 * q + m % 0x100;
    assert q == 0x100 * r + q % 0x100;
    assert r == m / 0x1_0000 && r / 0x100 == m / 0x100_0000;
    assert r == 0x100 * (r / 0x100) + r % 0x100;
  }

  // ----- the digest

  const INITIAL: Hash := Hash(0x6a09e667, 0xbb67ae85, 0x3c6ef372, 0xa54ff53a, 0x510e527f, 0x9b05688c,
    0x1f83d9ab, 0x5be0cd19)

  /** The 64 round constants. */
  function Constants(): (k: seq<u32>)
    ensures |k| == 64
  {
    Constants0() + Constants16() + Constants32() + Constants48()
  }

  function Constants0(): (k: seq<u32>)
    ensures |k| == 16
  {
    [0x428a2f98, 0x71374491, 0xb5c0fbcf, 0xe9b5dba5, 0x3956c25b, 0x59f111f1, 0x923f82a4, 0xab1c5ed5,
     0xd807aa98, 0x12835b01, 0x243185be, 0x550c7dc3, 0x72be5d74, 0x80deb1fe, 0x9bdc06a7, 0xc19bf174]
  }

  function Constants16(): (k: seq<u32>)
    ensures |k| == 16
  {
    [0xe49b69c1, 0xefbe4786, 0x0fc19dc6, 0x240ca1cc, 0x2de92c6f, 0x4a7484aa, 0x5cb0a9dc, 0x76f988da,
     0x983e5152, 0xa831c66d, 0xb00327c8, 0xbf597fc7, 0xc6e00bf3, 0xd5a79147, 0x06ca6351, 0x14292967]
  }

  function Constants32(): (k: seq<u32>)
    ensures |k| == 16
  {
    [0x27b70a85, 0x2e1b2138, 0x4d2c6dfc, 0x53380d13, 0x650a7354, 0x766a0abb, 0x81c2c92e, 0x92722c85,
     0xa2bfe8a1, 0xa81a664b, 0xc24b8b70, 0xc76c51a3, 0xd192e819, 0xd6990624, 0xf40e3585, 0x106aa070]
  }

  function Constants48(): (k: seq<u32>)
    ensures |k| == 16
  {
    [0x19a4c116, 0x1e376c08, 0x2748774c, 0x34b0bcb5, 0x391c0cb3, 0x4ed8aa4a, 0x5b9cca4f, 0x682e6ff3,
     0x748f82ee, 0x78a5636f, 0x84c87814, 0x8cc70208, 0x90befffa, 0xa4506ceb, 0xbef9a3f7, 0xc67178f2]
  }

  function HashBytes(s: Hash): (out: seq<byte>)
    ensures |out| == 32
  {
    BigEndianBytes(s.a) + BigEndianBytes(s.b) + BigEndianBytes(s.c) + BigEndianBytes(s.d) +
    BigEndianBytes(s.e) + BigEndianBytes(s.f) + BigEndianBytes(s.g) + BigEndianBytes(s.h)
  }

  function Digest(msg: seq<byte>): (d: seq<byte>)
    ensures |d| == 32
  {
    HashBytes(HashBlocks(INITIAL, Constants(), Pad(msg)))
  }

  lemma {:induction false} HashBlocksAppend(s: Hash, k: seq<u32>, data: seq<byte>, m: Block)
    requires |k| == 64 && |data| % 64 == 0
    ensures HashBlocks(s, k, data + m) == Compress(HashBlocks(s, k, data), k, m)
    decreases |data|
  {
    hide Compress;
    var all := data + m;
    if data == [] {
      assert all == m && all[..64] == m && all[64..] == [];
    } else {
      assert all[..64] == data[..64] && all[64..] == data[64..] + m;
      HashBlocksAppend(Compress(s, k, data[..64]), k, data[64..], m);
    }
  }

  lemma HashBlocksOfNothing(s: Hash, k: seq<u32>, data: seq<byte>)
    requires |k| == 64 && data == []
    ensures HashBlocks(s, k, data) == s
  {
  }

  // ----- the streaming computation

  lemma SumOrder(a: u32, b: u32, c: u32, d: u32)
    ensures Plus(Plus(Plus(a, b), c), d) == Plus(Plus(Plus(d, c), b), a)
  {
    PlusAssoc(Plus(a, b), c, d);
    PlusAssoc(a, b, Plus(c, d));
    PlusAssoc(b, c, d);
    PlusAssoc(Plus(d, c), b, a);
  }

  lemma PlusAssoc(a: u32, b: u32, c: u32)
    ensures Plus(Plus(a, b), c) == Plus(a, Plus(b, c))
  {
    hide Plus;
    PlusWraps(a, b);
    PlusWraps(b, c);
    PlusWraps(Plus(a, b), c);
    PlusWraps(a, Plus(b, c));
  }

  lemma PlusWraps(a: u32, b: u32)
    ensures Plus(a, b) == if a + b < TWO32 then a + b else a + b - TWO32
  {
  }

  lemma AddCommutes(x: Hash, y: Hash)
    ensures Add(x, y) == Add(y, x)
  {
  }

  class Sha256 {
    const h: array<u32>
    const block: array<byte>
    var len: nat
    var total: u64
    /** Everything absorbed so far. */
    ghost var data: seq<byte>

    ghost function State(): Hash
      reads this, h
      requires h.Length == 8
    {
      Hash(h[0], h[1], h[2], h[3], h[4], h[5], h[6], h[7])
    }

    /** The buffer holds the last `len` bytes absorbed; all blocks before them are hashed. */
    ghost predicate Absorbed()
      reads this, h, block
    {
      && h.Length == 8 && block.Length == 64 && len <= 64
      && len <= |data| && (|data| - len) % 64 == 0
      && block[..len] == data[|data| - len..]
      && State() == HashBlocks(INITIAL, Constants(), data[..|data| - len])
    }

    ghost predicate Valid()
      reads this, h, block
    {
      Absorbed() && len < 64 && total == |data| % TWO64
    }

    constructor ()
      ensures Valid() && data == [] && fresh(h) && fresh(block)
    {
      h := new u32[8];
      block := new byte[64];
      new;
      Reset();
    }

    method Reset()
      requires h.Length == 8 && block.Length == 64
      modifies this, h
      ensures Valid() && data == []
    {
      hide Constants, Compress, HashBlocks;
      len := 0;
      total := 0;
      data := [];
      LoadInitial();
      HashBlocksOfNothing(State(), Constants(), data[..|data| - len]);
      assert block[..len] == data[|data| - len..];
      assert Absorbed();
    }

    method LoadInitial()
      requires h.Length == 8
      modifies h
      ensures State() == INITIAL
    {
      h[0] := 0x6a09e667;
      h[1] := 0xbb67ae85;
      h[2] := 0x3c6ef372;
      h[3] := 0xa54ff53a;
      h[4] := 0x510e527f;
      h[5] := 0x9b05688c;
      h[6] := 0x1f83d9ab;
      h[7] := 0x5be0cd19;
    }

    method Process()
      requires h.Length == 8 && block.Length == 64
      modifies h
      ensures State() == Compress(old(State()), Constants(), block[..])
    {
      hide Constants, Round, Schedule, Add;
      var k := Constants();
      ghost var before := State();
      var w := ExpandSchedule(block[..]);
      var s := RunRounds(Hash(h[0], h[1], h[2], h[3], h[4], h[5], h[6], h[7]), k, block[..], w);
      Accumulate(s);
      AddCommutes(before, s);
    }

    method Accumulate(s: Hash)
      requires h.Length == 8
      modifies h
      ensures State() == Add(old(State()), s)
    {
      hide Plus;
      h[0] := Plus(h[0], s.a);
      h[1] := Plus(h[1], s.b);
      h[2] := Plus(h[2], s.c);
      h[3] := Plus(h[3], s.d);
      h[4] := Plus(h[4], s.e);
      h[5] := Plus(h[5], s.f);
      h[6] := Plus(h[6], s.g);
      h[7] := Plus(h[7], s.h);
    }

    method ExpandSchedule(m: Block) returns (w: array<u32>)
      ensures fresh(w) && w.Length == 64 && forall j :: 0 <= j < 64 ==> w[j] == Schedule(m, j)
    {
      hide SmallSigma0, SmallSigma1, BigEndianWord, Plus;
      w := new u32[64];
      for i := 0 to 16
        invariant forall j :: 0 <= j < i ==> w[j] == Schedule(m, j)
      {
        w[i] := BigEndianWord(m[i * 4], m[i * 4 + 1], m[i * 4 + 2], m[i * 4 + 3]);
      }
      for i := 16 to 64
        invariant forall j :: 0 <= j < i ==> w[j] == Schedule(m, j)
      {
        var s0 := SmallSigma0(w[i - 15]);
        var s1 := SmallSigma1(w[i - 2]);
        SumOrder(w[i - 16], s0, w[i - 7], s1);
        w[i] := Plus(Plus(Plus(w[i - 16], s0), w[i - 7]), s1);
      }
    }

    method RunRounds(start: Hash, k: seq<u32>, m: Block, w: array<u32>) returns (s: Hash)
      requires |k| == w.Length == 64 && forall j :: 0 <= j < 64 ==> w[j] == Schedule(m, j)
      ensures s == Rounds(start, k, m, |k|)
    {
      hide Schedule, BigSigma0, BigSigma1, Ch, Maj, Plus;
      var a, b, c, d, e, f, g, h := start.a, start.b, start.c, start.d, start.e, start.f, start.g, start.h;
      for i := 0 to |k|
        invariant Hash(a, b, c, d, e, f, g, h) == Rounds(start, k, m, i)
      {
        var t1 := Plus(Plus(Plus(Plus(h, BigSigma1(e)), Ch(e, f, g)), k[i]), w[i]);
        var t2 := Plus(BigSigma0(a), Maj(a, b, c));
        h := g;
        g := f;
        f := e;
        e := Plus(d, t1);
        d := c;
        c := b;
        b := a;
        a := Plus(t1, t2);
      }
      s := Hash(a, b, c, d, e, f, g, h);
    }

    /** A full buffer is hashed and emptied. */
    method FlushIfFull()
      requires Absorbed()
      modifies this`len, h
      ensures Absorbed() && len < 64
      ensures len == if old(len) == 64 then 0 else old(len)
    {
      hide Constants, Compress;
      if len == 64 {
        ghost var n := |data| - 64;
        HashBlocksAppend(INITIAL, Constants(), data[..n], block[..]);
        assert block[..] == block[..64];
        assert data == data[..n] + block[..];
        Process();
        len := 0;
        assert data[..|data|] == data;
      }
    }

    method PushByte(x: byte)
      requires Absorbed() && len < 64
      modifies this`len, this`data, block
      ensures Absorbed() && data == old(data) + [x] && len == old(len) + 1
    {
      hide Constants, HashBlocks;
      block[len] := x;
      len := len + 1;
      data := data + [x];
      assert data[..|data| - len] == old(data[..|data| - len]);
    }

    /** Absorbs `p`, whatever was absorbed before and however the message was split. */
    method Update(p: seq<byte>)
      requires Valid()
      modifies this, h, block
      ensures Valid() && data == old(data) + p
    {
      hide Constants, HashBlocks;
      TotalModulo(|data|, |p|, total);
      total := (total + |p|) % TWO64;
      for i := 0 to |p|
        invariant Absorbed() && len < 64
        invariant data == old(data) + p[..i]
        invariant total == (|old(data)| + |p|) % TWO64
      {
        PushByte(p[i]);
        FlushIfFull();
      }
      assert p[..|p|] == p;
    }

    /** Appends zero bytes, hashing a full buffer on the way, until eight bytes are left in the block. */
    method PadZeros(ghost msg: seq<byte>)
      requires Absorbed() && data == msg + [0x80]
      modifies this`len, this`data, h, block
      ensures Absorbed() && len == 56 && data == msg + [0x80] + ZeroBytes(ZeroCount(|msg|))
    {
      hide Constants, HashBlocks;
      ghost var zeros := 0;
      while len != 56
        invariant Absorbed() && zeros <= ZeroCount(|msg|)
        invariant data == msg + [0x80] + ZeroBytes(zeros)
        decreases ZeroCount(|msg|) - zeros
      {
        NotYetAligned(|msg|, zeros, len);
        FlushIfFull();
        PushByte(0);
        assert ZeroBytes(zeros) + [0] == ZeroBytes(zeros + 1);
        zeros := zeros + 1;
      }
      AlignedOnce(|msg|, zeros);
    }

    method PushLength(bitlen: u64)
      requires Absorbed() && len == 56
      modifies this`len, this`data, block
      ensures Absorbed() && len == 64 && data == old(data) + BigEndian64(bitlen)
    {
      hide Constants, HashBlocks, BigEndian64;
      var trailer := BigEndian64(bitlen);
      for i := 0 to 8
        invariant Absorbed() && len == 56 + i && data == old(data) + trailer[..i]
      {
        PushByte(trailer[i]);
      }
      assert trailer[..8] == trailer;
    }

    /** Pads and returns the digest of everything absorbed. */
    method Finish() returns (out: seq<byte>)
      requires Valid()
      modifies this, h, block
      ensures out == Digest(old(data))
    {
      hide Constants, HashBlocks, HashBytes, BigEndian64;
      ghost var msg := data;
      var bitlen := total * 8 % TWO64;
      LengthModulo(|msg|, total);
      PushByte(0x80);
      PadZeros(msg);
      PushLength(bitlen);
      assert data == Pad(msg);
      FlushIfFull();
      assert data[..|data|] == data;
      out := Output();
    }

    /** The hash value as bytes, most significant byte of each word first. */
    method Output() returns (out: seq<byte>)
      requires h.Length == 8
      ensures out == HashBytes(State())
    {
      out := [];
      for i := 0 to 8
        invariant |out| == 4 * i && forall j :: 0 <= j < i ==> out[4 * j..4 * j + 4] == BigEndianBytes(h[j])
      {
        ghost var before := out;
        out := out + [h[i] / 0x100_0000, h[i] / 0x1_0000 % 0x100, h[i] / 0x100 % 0x100, h[i] % 0x100];
        assert forall j :: 0 <= j < i ==> out[4 * j..4 * j + 4] == before[4 * j..4 * j + 4];
      }
    }
  }

  method DigestOf(message: seq<byte>) returns (out: seq<byte>)
    ensures out == Digest(message)
  {
    hide Digest, Sha256.Valid;
    var s := new Sha256();
    s.Update(message);
    assert [] + message == message;
    out := s.Finish();
  }

  function Concat(parts: seq<seq<byte>>): seq<byte> {
    if parts == [] then [] else Concat(parts[..|parts| - 1]) + parts[|parts| - 1]
  }

  lemma ConcatNext(parts: seq<seq<byte>>, i: nat)
    requires i < |parts|
    ensures Concat(parts[..i + 1]) == Concat(parts[..i]) + parts[i]
  {
    assert parts[..i + 1][..i] == parts[..i];
  }

  /** However a message is cut into updates, the digest is that of the whole message. */
  method DigestInParts(parts: seq<seq<byte>>) returns (out: seq<byte>)
    ensures out == Digest(Concat(parts))
  {
    hide Digest, Sha256.Valid;
    var s := new Sha256();
    for i := 0 to |parts|
      invariant s.Valid() && fresh(s) && fresh(s.h) && fresh(s.block)
      invariant s.data == Concat(parts[..i])
    {
      s.Update(parts[i]);
      ConcatNext(parts, i);
    }
    assert parts[..|parts|] == parts;
    out := s.Finish();
  }

  lemma TotalModulo(length: nat, n: nat, total: nat)
    requires total == length % TWO64
    ensures (total + n) % TWO64 == (length + n) % TWO64
  {
  }

  lemma LengthModulo(length: nat, total: nat)
    requires total == length % TWO64
    ensures total * 8 % TWO64 == 8 * length % TWO64
  {
  }

  lemma NotYetAligned(length: nat, zeros: nat, len: nat)
    requires zeros <= ZeroCount(length) && len <= 64 && len != 56 && (length + 1 + zeros - len) % 64 == 0
    ensures zeros < ZeroCount(length)
  {
  }

  lemma AlignedOnce(length: nat, zeros: nat)
    requires zeros <= ZeroCount(length) && (length + 1 + zeros - 56) % 64 == 0
    ensures zeros == ZeroCount(length)
  {
  }
}
