/** CRC-32 as polynomial division over GF(2), and the table-driven form of it. */
module Crc {
  import opened Base
  import opened Bits

  // ----- the reference: division of the message polynomial by the generator

  /** The exponents of the generator below its leading term x^32. */
  predicate HasTerm(k: int) {
    k == 26 || k == 23 || k == 22 || k == 16 || k == 12 || k == 11 || k == 10 || k == 8 ||
    k == 7 || k == 5 || k == 4 || k == 2 || k == 1 || k == 0
  }

  /** The generator without its leading term: coefficients of x^31 down to x^0. */
  function Generator(): (g: seq<bool>)
    ensures |g| == 32 && g[31]
  {
    seq(32, i => HasTerm(31 - i))
  }

  /** Adds `g` to the leading coefficients of `d`. */
  function AddFront(d: seq<bool>, g: seq<bool>): (r: seq<bool>)
    requires |g| <= |d|
    ensures |r| == |d|
  {
    Xor(d[..|g|], g) + d[|g|..]
  }

  /** Remainder of the long division of `d`, highest coefficient first, by x^32 + g. */
  function Remainder(d: seq<bool>, g: seq<bool>): (r: seq<bool>)
    requires |d| >= 32 == |g|
    ensures |r| == 32
    decreases |d|
  {
    if |d| == 32 then d
    else if d[0] then Remainder(AddFront(d[1..], g), g)
    else Remainder(d[1..], g)
  }

  function Quotient(d: seq<bool>, g: seq<bool>): (q: seq<bool>)
    requires |d| >= 32 == |g|
    ensures |q| == |d| - 32
    decreases |d|
  {
    if |d| == 32 then []
    else if d[0] then [true] + Quotient(AddFront(d[1..], g), g)
    else [false] + Quotient(d[1..], g)
  }

  /** The product q(x) * (x^32 + g(x)), highest coefficient first. */
  function Times(q: seq<bool>, g: seq<bool>): (r: seq<bool>)
    requires |g| == 32
    ensures |r| == |q| + 32
    decreases |q|
  {
    if q == [] then Zeros(32)
    else if q[0] then [true] + AddFront(Times(q[1..], g), g)
    else [false] + Times(q[1..], g)
  }

  /** Dividend = quotient * generator + remainder, which is what makes `Remainder` a remainder. */
  lemma {:induction false} DivisionIdentity(d: seq<bool>, g: seq<bool>)
    requires |d| >= 32 == |g|
    ensures d == Xor(Times(Quotient(d, g), g), Zeros(|d| - 32) + Remainder(d, g))
    decreases |d|
  {
    if |d| <= 32 {
    } else {
      var e := if d[0] then AddFront(d[1..], g) else d[1..];
      DivisionIdentity(e, g);
      IdentityStep(d, g, e, Quotient(e, g), Remainder(e, g));
    }
  }

  lemma IdentityStep(d: seq<bool>, g: seq<bool>, e: seq<bool>, q: seq<bool>, r: seq<bool>)
    requires |d| > 32 == |g| == |r| && |q| == |d| - 33
    requires e == if d[0] then AddFront(d[1..], g) else d[1..]
    requires e == Xor(Times(q, g), Zeros(|q|) + r)
    ensures d == Xor(Times([d[0]] + q, g), Zeros(|q| + 1) + r)
  {
    var low := Zeros(|q|) + r;
    var t := if d[0] then AddFront(Times(q, g), g) else Times(q, g);
    TimesCons(d[0], q, g);
    hide Times, AddFront, Xor;
    UndoFront(d[0], d[1..], g, e, Times(q, g), low);
    XorCons(d[0], false, t, low);
    assert Zeros(|q| + 1) + r == [false] + low;
    assert d == [d[0]] + d[1..];
  }

  /** What was added to the front of a sum is added back. */
  lemma UndoFront(added: bool, d: seq<bool>, g: seq<bool>, e: seq<bool>, p: seq<bool>, low: seq<bool>)
    requires |g| <= |d| == |p| == |low|
    requires e == if added then AddFront(d, g) else d
    requires e == Xor(p, low)
    ensures d == Xor(if added then AddFront(p, g) else p, low)
  {
    hide AddFront, Xor;
    if added {
      AddFrontTwice(d, g);
      AddFrontXor(p, low, g);
    }
  }

  lemma TimesCons(bit: bool, q: seq<bool>, g: seq<bool>)
    requires |g| == 32
    ensures Times([bit] + q, g) == [bit] + (if bit then AddFront(Times(q, g), g) else Times(q, g))
  {
    assert ([bit] + q)[1..] == q;
  }

  lemma AddFrontTwice(d: seq<bool>, g: seq<bool>)
    requires |g| <= |d|
    ensures AddFront(AddFront(d, g), g) == d
  {
    var e := AddFront(d, g);
    assert e[..|g|] == Xor(d[..|g|], g) && e[|g|..] == d[|g|..];
    assert Xor(e[..|g|], g) == d[..|g|];
  }

  lemma AddFrontXor(a: seq<bool>, b: seq<bool>, g: seq<bool>)
    requires |a| == |b| && |g| <= |a|
    ensures AddFront(Xor(a, b), g) == Xor(AddFront(a, g), b)
  {
    forall i | 0 <= i < |a|
      ensures AddFront(Xor(a, b), g)[i] == Xor(AddFront(a, g), b)[i]
    {
    }
  }

  /** The bits of a byte string in transmission order: each byte least significant bit first. */
  function BitsOf(data: seq<byte>): (r: seq<bool>)
    ensures |r| == 8 * |data|
  {
    if data == [] then [] else NumBits(data[0], 8) + BitsOf(data[1..])
  }

  /** The frame check sequence of IEEE 802.3, section 3.2.9: complement the first 32 bits of
      M(x) * x^32, divide by the generator, complement the remainder. */
  function FrameCheckSequence(data: seq<byte>): (r: seq<bool>)
    ensures |r| == 32
  {
    Xor(Remainder(AddFront(BitsOf(data) + Zeros(32), Ones(32)), Generator()), Ones(32))
  }

  /** The frame check sequence as an unsigned integer. */
  function CrcValue(data: seq<byte>): (n: u32)
    ensures NumBits(n, 32) == FrameCheckSequence(data)
  {
    WordValue(FrameCheckSequence(data))
  }

  // ----- the shift register, as a list of 32 bits, least significant first

  predicate Generates(g: seq<bool>) {
    |g| == 32 && g[31]
  }

  /** One register step that takes in one message bit. */
  function Step(c: seq<bool>, bit: bool, g: seq<bool>): (r: seq<bool>)
    requires |c| == |g| == 32
    ensures |r| == 32
  {
    if c[0] != bit then Xor(c[1..] + [false], g) else c[1..] + [false]
  }

  function Lfsr(c: seq<bool>, bits: seq<bool>, g: seq<bool>): (r: seq<bool>)
    requires |c| == |g| == 32
    ensures |r| == 32
    decreases |bits|
  {
    if bits == [] then c else Lfsr(Step(c, bits[0], g), bits[1..], g)
  }

  /** The checksum of a message, as a register: initial and final complement around the steps. */
  function Checksum(data: seq<byte>): (r: seq<bool>)
    ensures |r| == 32
  {
    Xor(Lfsr(Ones(32), BitsOf(data), Generator()), Ones(32))
  }

  lemma {:induction false} LfsrConcat(c: seq<bool>, a: seq<bool>, b: seq<bool>, g: seq<bool>)
    requires |c| == |g| == 32
    ensures Lfsr(c, a + b, g) == Lfsr(Lfsr(c, a, g), b, g)
    decreases |a|
  {
    if a == [] {
      assert a + b == b;
    } else {
      assert (a + b)[0] == a[0] && (a + b)[1..] == a[1..] + b;
      LfsrConcat(Step(c, a[0], g), a[1..], b, g);
    }
  }

  lemma {:induction false} BitsOfConcat(a: seq<byte>, b: seq<byte>)
    ensures BitsOf(a + b) == BitsOf(a) + BitsOf(b)
  {
    if a == [] {
      assert a + b == b;
    } else {
      assert (a + b)[0] == a[0] && (a + b)[1..] == a[1..] + b;
      BitsOfConcat(a[1..], b);
      Assoc(NumBits(a[0], 8), BitsOf(a[1..]), BitsOf(b));
    }
  }

  /** One register step is one step of the long division: the register holds, first bit first,
      what has been added so far to the next 32 coefficients of the dividend. */
  lemma StepDivides(c: seq<bool>, d: seq<bool>, g: seq<bool>)
    requires |d| > 32 == |c| == |g|
    ensures Remainder(AddFront(d, c), g) == Remainder(AddFront(d[1..], Step(c, d[0], g)), g)
  {
    var h := c[1..] + [false];
    var e := AddFront(d, c);
    ShiftedFront(d, c, h);
    if e[0] {
      AddFrontBoth(d[1..], h, g);
    }
  }

  lemma ShiftedFront(d: seq<bool>, u: seq<bool>, h: seq<bool>)
    requires |d| > 32 == |u| && h == u[1..] + [false]
    ensures AddFront(d, u)[1..] == AddFront(d[1..], h)
  {
    var a, b := AddFront(d, u)[1..], AddFront(d[1..], h);
    forall i | 0 <= i < |d| - 1
      ensures a[i] == b[i]
    {
      if i < 31 {
        assert h[i] == u[i + 1];
      }
    }
  }

  lemma AddFrontBoth(d: seq<bool>, g: seq<bool>, h: seq<bool>)
    requires |g| == |h| <= |d|
    ensures AddFront(AddFront(d, g), h) == AddFront(d, Xor(g, h))
  {
  }

  /** Shifting `bits` through the register divides them, extended by 32 zeros. */
  lemma {:induction false} LfsrDivides(c: seq<bool>, bits: seq<bool>, g: seq<bool>)
    requires |c| == |g| == 32
    ensures Lfsr(c, bits, g) == Remainder(AddFront(bits + Zeros(32), c), g)
    decreases |bits|
  {
    var d := bits + Zeros(32);
    if bits == [] {
      assert AddFront(d, c) == c;
    } else {
      assert d[0] == bits[0] && d[1..] == bits[1..] + Zeros(32);
      StepDivides(c, d, g);
      LfsrDivides(Step(c, bits[0], g), bits[1..], g);
    }
  }

  /** The checksum is the complemented remainder of the polynomial division, for every message. */
  lemma ChecksumIsFrameCheckSequence(data: seq<byte>)
    ensures Checksum(data) == FrameCheckSequence(data)
  {
    LfsrDivides(Ones(32), BitsOf(data), Generator());
  }

  // ----- xor-linearity of the register, and the byte-wide step it justifies

  lemma StepXor(x: seq<bool>, y: seq<bool>, a: bool, b: bool, g: seq<bool>)
    requires |x| == |y| == |g| == 32
    ensures Step(Xor(x, y), a != b, g) == Xor(Step(x, a, g), Step(y, b, g))
  {
  }

  lemma {:induction false} LfsrXor(x: seq<bool>, y: seq<bool>, u: seq<bool>, v: seq<bool>, g: seq<bool>)
    requires |x| == |y| == |g| == 32 && |u| == |v|
    ensures Lfsr(Xor(x, y), Xor(u, v), g) == Xor(Lfsr(x, u, g), Lfsr(y, v, g))
    decreases |u|
  {
    if u == [] {
    } else {
      StepXor(x, y, u[0], v[0], g);
      assert Xor(u, v)[1..] == Xor(u[1..], v[1..]);
      LfsrXor(Step(x, u[0], g), Step(y, v[0], g), u[1..], v[1..], g);
    }
  }

  /** Feeding a register its own bits only shifts them out. */
  lemma {:induction false} LfsrOwnBits(x: seq<bool>, n: nat, g: seq<bool>)
    requires |x| == |g| == 32 && n <= 32
    ensures Lfsr(x, x[..n], g) == x[n..] + Zeros(n)
    decreases n
  {
    if n == 0 {
    } else {
      var y := x[1..] + [false];
      assert x[..n][1..] == y[..n - 1];
      LfsrOwnBits(y, n - 1, g);
      assert y[n - 1..] + Zeros(n - 1) == x[n..] + Zeros(n);
    }
  }

  /** The byte-wide step: look up the low byte added to the message byte, shift out the rest. */
  lemma ByteStep(c: seq<bool>, bits: seq<bool>, g: seq<bool>)
    requires |c| == |g| == 32 && |bits| == 8
    ensures Lfsr(c, bits, g) == Xor(Lfsr(Xor(c[..8], bits) + Zeros(24), Zeros(8), g), c[8..] + Zeros(8))
  {
    var low := Xor(c[..8], bits) + Zeros(24);
    var rest := bits + c[8..];
    SplitLowByte(c, bits, low, rest);
    LfsrXor(low, rest, Zeros(8), bits, g);
    LfsrOwnBits(rest, 8, g);
  }

  lemma SplitLowByte(c: seq<bool>, bits: seq<bool>, low: seq<bool>, rest: seq<bool>)
    requires |c| == 32 && |bits| == 8
    requires low == Xor(c[..8], bits) + Zeros(24) && rest == bits + c[8..]
    ensures Xor(low, rest) == c && Xor(Zeros(8), bits) == bits
    ensures rest[..8] == bits && rest[8..] == c[8..]
  {
  }

  // ----- error detection

  /** The last bit of a register tells whether the generator was added in the last step. */
  lemma StepInjective(a: seq<bool>, b: seq<bool>, bit: bool, g: seq<bool>)
    requires |a| == |b| == 32 && Generates(g)
    requires Step(a, bit, g) == Step(b, bit, g)
    ensures a == b
  {
    var s, t := Step(a, bit, g), Step(b, bit, g);
    assert s[31] == (a[0] != bit) && t[31] == (b[0] != bit);
    forall i | 1 <= i < 32
      ensures a[i] == b[i]
    {
      assert s[i - 1] == t[i - 1];
      assert s[i - 1] == (a[i] != (a[0] != bit && g[i - 1]));
      assert t[i - 1] == (b[i] != (b[0] != bit && g[i - 1]));
    }
  }

  lemma {:induction false} LfsrInjective(a: seq<bool>, b: seq<bool>, bits: seq<bool>, g: seq<bool>)
    requires |a| == |b| == 32 && Generates(g)
    requires Lfsr(a, bits, g) == Lfsr(b, bits, g)
    ensures a == b
    decreases |bits|
  {
    if bits == [] {
    } else {
      LfsrInjective(Step(a, bits[0], g), Step(b, bits[0], g), bits[1..], g);
      StepInjective(a, b, bits[0], g);
    }
  }

  /** At most 32 bits that bring a register to zero are that register's own bits. */
  lemma {:induction false} VanishingBits(r: seq<bool>, e: seq<bool>, g: seq<bool>)
    requires |r| == 32 && Generates(g)
    requires |e| <= 32 && Lfsr(r, e, g) == Zeros(32)
    ensures r == e + Zeros(32 - |e|)
    decreases |e|
  {
    if e == [] {
      assert r == e + Zeros(32);
    } else {
      var s := Step(r, e[0], g);
      VanishingBits(s, e[1..], g);
      StepUndone(r, e[0], g);
      assert s[..31] == e[1..] + Zeros(32 - |e|);
      assert e == [e[0]] + e[1..];
    }
  }

  /** A step that leaves the top coefficient clear was a mere shift. */
  lemma StepUndone(r: seq<bool>, bit: bool, g: seq<bool>)
    requires |r| == 32 && Generates(g) && !Step(r, bit, g)[31]
    ensures r == [bit] + Step(r, bit, g)[..31]
  {
    assert Step(r, bit, g)[31] == (r[0] != bit);
  }

  /** From one register, two different bit strings of at most 32 bits lead to different registers. */
  lemma BurstShows(c: seq<bool>, u: seq<bool>, v: seq<bool>, g: seq<bool>)
    requires |c| == 32 && Generates(g)
    requires |u| == |v| <= 32 && u != v
    ensures Lfsr(c, u, g) != Lfsr(c, v, g)
  {
    if Lfsr(c, u, g) == Lfsr(c, v, g) {
      var e := Xor(u, v);
      LfsrXor(c, c, u, v, g);
      assert Xor(c, c) == Zeros(32);
      assert Xor(Lfsr(c, u, g), Lfsr(c, v, g)) == Zeros(32);
      VanishingBits(Zeros(32), e, g);
      NoDifference(u, v);
    }
  }

  lemma NoDifference(u: seq<bool>, v: seq<bool>)
    requires |u| == |v| <= 32 && Zeros(32) == Xor(u, v) + Zeros(32 - |u|)
    ensures u == v
  {
    var z := Xor(u, v) + Zeros(32 - |u|);
    forall i | 0 <= i < |u|
      ensures u[i] == v[i]
    {
      assert !Zeros(32)[i];
      assert z[i] == (u[i] != v[i]);
    }
  }

  /** Changing bits only inside one window of at most 32 bits changes the final register. */
  lemma BurstChangesRegister(c: seq<bool>, pre: seq<bool>, u: seq<bool>, v: seq<bool>, post: seq<bool>, g: seq<bool>)
    requires |c| == 32 && Generates(g)
    requires |u| == |v| <= 32 && u != v
    ensures Lfsr(c, pre + u + post, g) != Lfsr(c, pre + v + post, g)
  {
    LfsrConcat(c, pre + u, post, g);
    LfsrConcat(c, pre + v, post, g);
    LfsrConcat(c, pre, u, g);
    LfsrConcat(c, pre, v, g);
    BurstShows(Lfsr(c, pre, g), u, v, g);
    if Lfsr(c, pre + u + post, g) == Lfsr(c, pre + v + post, g) {
      LfsrInjective(Lfsr(c, pre + u, g), Lfsr(c, pre + v, g), post, g);
    }
  }

  /** What is left in the register after data followed by its own checksum, for every data. */
  function Residue(g: seq<bool>): seq<bool>
    requires |g| == 32
  {
    Lfsr(Zeros(32), Ones(32), g)
  }

  /** A trailer is the complement of the register exactly when it drives that register to the residue. */
  lemma ResidueCharacterizes(r: seq<bool>, trailer: seq<bool>, g: seq<bool>)
    requires |r| == |trailer| == 32 && Generates(g)
    ensures Lfsr(r, trailer, g) == Residue(g) <==> trailer == Xor(r, Ones(32))
  {
    OwnChecksumLeavesResidue(r, g);
    if trailer != Xor(r, Ones(32)) {
      BurstShows(r, trailer, Xor(r, Ones(32)), g);
    }
  }

  lemma OwnChecksumLeavesResidue(r: seq<bool>, g: seq<bool>)
    requires |r| == |g| == 32
    ensures Lfsr(r, Xor(r, Ones(32)), g) == Residue(g)
  {
    hide Lfsr;
    LfsrXor(r, Zeros(32), r, Ones(32), g);
    XorLaws(r, r);
    XorLaws(Residue(g), Residue(g));
    assert r[..32] == r;
    LfsrOwnBits(r, 32, g);
    assert r[32..] + Zeros(32) == Zeros(32);
  }

  // ----- the table-driven computation on machine words

  const POLY: u32 := 0xEDB8_8320

  lemma PolyIsGenerator(p: u32)
    requires p == POLY
    ensures NumBits(p, 32) == Generator()
  {
    hide NumBits, Generator, PolyBits;
    PolyBytes(p);
    GeneratorBytes();
  }

  /** The coefficients, highest power first, byte by byte from the lowest byte of the constant. */
  function PolyBits(): seq<bool> {
    [false, false, false, false, false, true, false, false]
    + [true, true, false, false, false, false, false, true]
    + [false, false, false, true, true, true, false, true]
    + [true, false, true, true, false, true, true, true]
  }

  lemma PolyBytes(p: u32)
    requires p == 0xEDB8_8320
    ensures NumBits(p, 32) == PolyBits()
  {
    var p1, p2, p3 := p / 0x100, p / 0x100 / 0x100, p / 0x100 / 0x100 / 0x100;
    assert p % 0x100 == 0x20 && p1 % 0x100 == 0x83 && p2 % 0x100 == 0xB8 && p3 == 0xED;
    WordBytes(p);
    Byte20();
    Byte83();
    ByteB8();
    ByteED();
  }

  lemma Byte20()
    ensures NumBits(0x20, 8) == [false, false, false, false, false, true, false, false]
  {
  }

  lemma Byte83()
    ensures NumBits(0x83, 8) == [true, true, false, false, false, false, false, true]
  {
  }

  lemma ByteB8()
    ensures NumBits(0xB8, 8) == [false, false, false, true, true, true, false, true]
  {
  }

  lemma ByteED()
    ensures NumBits(0xED, 8) == [true, false, true, true, false, true, true, true]
  {
  }

  lemma GeneratorBytes()
    ensures Generator() == PolyBits()
  {
    TermsAre(Generator());
  }

  lemma TermsAre(g: seq<bool>)
    requires |g| == 32 && forall i :: 0 <= i < 32 ==> g[i] == HasTerm(31 - i)
    ensures g == PolyBits()
  {
  }

  /** What the table holds at index `i`: eight steps of that byte with zero message bits. */
  function EntryFor(i: nat, g: seq<bool>): (r: Word)
    requires |g| == 32
  {
    Lfsr(NumBits(i, 32), Zeros(8), g)
  }

  /** The conditional shift of the table set-up is a register step with a zero message bit. */
  lemma TableStep(c: Word, k: nat, p: Word, d: Word)
    requires k > 0 && d == if c[0] then Xor(p, ShiftRight(c, 1)) else ShiftRight(c, 1)
    ensures Lfsr(c, Zeros(k), p) == Lfsr(d, Zeros(k - 1), p)
  {
    assert Zeros(k)[1..] == Zeros(k - 1);
    assert Zeros(1) == [false];
    XorLaws(p, ShiftRight(c, 1));
  }

  method TableEntry(i: byte) returns (c: Word)
    ensures c == EntryFor(i, Generator())
  {
    var poly := POLY;
    PolyIsGenerator(poly);
    c := NumBits(i, 32);
    for k := 0 to 8
      invariant EntryFor(i, Generator()) == Lfsr(c, Zeros(8 - k), Generator())
    {
      var d := if c[0] then Xor(NumBits(poly, 32), ShiftRight(c, 1)) else ShiftRight(c, 1);
      TableStep(c, 8 - k, Generator(), d);
      c := d;
    }
  }

  ghost predicate EntriesUpTo(t: seq<Word>, n: nat, g: seq<bool>)
    requires |g| == 32
  {
    n <= |t| == 256 && forall j :: 0 <= j < n ==> t[j] == EntryFor(j, g)
  }

  lemma NextEntry(t: seq<Word>, i: nat, entry: Word, g: seq<bool>)
    requires |g| == 32 && i < 256
    requires EntriesUpTo(t, i, g) && entry == EntryFor(i, g)
    ensures EntriesUpTo(t[i := entry], i + 1, g)
  {
  }

  method BuildTable() returns (table: array<Word>)
    ensures fresh(table) && EntriesUpTo(table[..], 256, Generator())
  {
    table := new Word[256];
    for i := 0 to 256
      invariant EntriesUpTo(table[..], i, Generator())
    {
      var entry := TableEntry(i);
      label Before:
      NextEntry(table[..], i, entry, Generator());
      table[i] := entry;
      assert table[..] == old@Before(table[..])[i := entry];
    }
  }

  /** Looking up the low byte and xoring in the shifted register feeds eight message bits. */
  lemma LookupStep(c: Word, b: byte, index: byte, g: seq<bool>)
    requires |g| == 32
    requires NumBits(index, 8) == Xor(c, NumBits(b, 32))[..8]
    ensures Xor(EntryFor(index, g), ShiftRight(c, 8)) == Lfsr(c, NumBits(b, 8), g)
  {
    NumBitsOfByte(b);
    NumBitsOfByte(index);
    assert Xor(c, NumBits(b, 32))[..8] == Xor(c[..8], NumBits(b, 8));
    ByteStep(c, NumBits(b, 8), g);
  }

  lemma NextByte(data: seq<byte>, i: nat, g: seq<bool>)
    requires i < |data| && |g| == 32
    ensures Lfsr(Lfsr(Ones(32), BitsOf(data[..i]), g), NumBits(data[i], 8), g) ==
            Lfsr(Ones(32), BitsOf(data[..i + 1]), g)
  {
    var b := NumBits(data[i], 8);
    assert data[..i + 1] == data[..i] + [data[i]];
    BitsOfConcat(data[..i], [data[i]]);
    BitsOfOne(data[i]);
    LfsrConcat(Ones(32), BitsOf(data[..i]), b, g);
  }

  lemma BitsOfOne(b: byte)
    ensures BitsOf([b]) == NumBits(b, 8)
  {
    assert BitsOf([b]) == NumBits(b, 8) + BitsOf([]);
  }

  /** The checksum as the source computes it: eight register steps per table entry, then one
      table look-up per byte. The result is the frame check sequence. */
  method Crc32(data: seq<byte>) returns (crc: u32)
    ensures NumBits(crc, 32) == FrameCheckSequence(data)
    ensures crc == CrcValue(data)
  {
    var table := BuildTable();
    ghost var g := Generator();
    var c: Word := Ones(32);
    for i := 0 to |data|
      invariant EntriesUpTo(table[..], 256, g)
      invariant c == Lfsr(Ones(32), BitsOf(data[..i]), g)
    {
      var index := ByteValue(Xor(c, NumBits(data[i], 32))[..8]);
      LookupStep(c, data[i], index, g);
      NextByte(data, i, g);
      assert table[index] == table[..][index];
      c := Xor(table[index], ShiftRight(c, 8));
    }
    assert data[..|data|] == data;
    ChecksumIsFrameCheckSequence(data);
    crc := WordValue(Xor(c, Ones(32)));
    NumBitsInjective(crc, CrcValue(data));
  }
}
