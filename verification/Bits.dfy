/** Bit lists, least significant bit first. A machine word is the list of its bits, so shift
    and xor are list operations; bytes and lengths are integers, and `Num` and `NumBits` convert. */
module Bits {
  import opened Base

  function Zeros(n: nat): (r: seq<bool>)
    ensures |r| == n && forall i :: 0 <= i < n ==> !r[i]
  {
    seq(n, _ => false)
  }

  function Ones(n: nat): (r: seq<bool>)
    ensures |r| == n && forall i :: 0 <= i < n ==> r[i]
  {
    seq(n, _ => true)
  }

  function Xor(a: seq<bool>, b: seq<bool>): (r: seq<bool>)
    requires |a| == |b|
    ensures |r| == |a| && forall i :: 0 <= i < |a| ==> r[i] == (a[i] != b[i])
  {
    seq(|a|, i requires 0 <= i < |a| => a[i] != b[i])
  }

  type Word = w: seq<bool> | |w| == 32 witness Zeros(32)

  /** Logical shift right: drop the low bits, append zeros. */
  function ShiftRight(w: seq<bool>, n: nat): (r: seq<bool>)
    requires n <= |w|
    ensures |r| == |w|
  {
    w[n..] + Zeros(n)
  }

  /** The low `k` bits of an integer. */
  function NumBits(n: nat, k: nat): (r: seq<bool>)
    ensures |r| == k
  {
    if k == 0 then [] else [n % 2 == 1] + NumBits(n / 2, k - 1)
  }

  /** An integer halved `k` times. */
  function Quotient(n: nat, k: nat): nat {
    if k == 0 then n else Quotient(n / 2, k - 1)
  }

  /** The integer a bit list denotes. */
  function Num(bits: seq<bool>): nat {
    if bits == [] then 0 else (if bits[0] then 1 else 0) + 2 * Num(bits[1..])
  }

  function Pow2(k: nat): (r: nat)
    ensures r > 0
  {
    if k == 0 then 1 else 2 * Pow2(k - 1)
  }

  lemma Assoc<T>(a: seq<T>, b: seq<T>, c: seq<T>)
    ensures a + (b + c) == (a + b) + c
  {
  }

  // ----- integers and bit lists

  lemma {:induction false} NumOfNumBits(n: nat, k: nat)
    requires n < Pow2(k)
    ensures Num(NumBits(n, k)) == n
  {
    if k == 0 {
    } else {
      NumOfNumBits(n / 2, k - 1);
      assert NumBits(n, k)[1..] == NumBits(n / 2, k - 1);
    }
  }

  lemma {:induction false} NumBitsOfNum(bits: seq<bool>)
    ensures Num(bits) < Pow2(|bits|)
    ensures NumBits(Num(bits), |bits|) == bits
  {
    if bits == [] {
    } else {
      NumBitsOfNum(bits[1..]);
      assert bits == [bits[0]] + bits[1..];
    }
  }

  lemma {:induction false} NumBitsSplit(n: nat, a: nat, b: nat)
    ensures NumBits(n, a + b) == NumBits(n, a) + NumBits(Quotient(n, a), b)
  {
    if a == 0 {
    } else {
      NumBitsSplit(n / 2, a - 1, b);
      assert NumBits(n, a + b) == [n % 2 == 1] + NumBits(n / 2, a - 1 + b);
      Assoc([n % 2 == 1], NumBits(n / 2, a - 1), NumBits(Quotient(n, a), b));
    }
  }

  /** Only the remainder modulo 2^k shows in the low k bits. */
  lemma {:induction false} NumBitsModulo(m: nat, k: nat, t: nat)
    ensures NumBits(m + Pow2(k) * t, k) == NumBits(m, k)
  {
    if k == 0 {
    } else {
      var high := Pow2(k - 1) * t;
      NumBitsModulo(m / 2, k - 1, t);
      assert Pow2(k) * t == 2 * high;
      assert (m + 2 * high) / 2 == m / 2 + high;
    }
  }

  lemma Eight(n: nat)
    ensures Pow2(8) == 0x100
    ensures Quotient(n, 8) == n / 0x100
  {
    assert Pow2(1) == 2;
    assert Pow2(2) == 4;
    assert Pow2(3) == 8;
    assert Pow2(4) == 16;
    assert Pow2(5) == 32;
    assert Pow2(6) == 64;
    assert Pow2(7) == 128;
    QuotientTwice(n, 6);
    QuotientTwice(n / 4, 4);
    QuotientTwice(n / 16, 2);
    QuotientTwice(n / 64, 0);
  }

  lemma QuotientTwice(n: nat, k: nat)
    ensures Quotient(n, k + 2) == Quotient(n / 4, k)
  {
    assert Quotient(n, k + 2) == Quotient(n / 2, k + 1);
  }

  lemma {:induction false} Pow2Add(a: nat, b: nat)
    ensures Pow2(a + b) == Pow2(a) * Pow2(b)
  {
    if a == 0 {
    } else {
      Pow2Add(a - 1, b);
      DoubleProduct(Pow2(a - 1), Pow2(b));
    }
  }

  lemma DoubleProduct(x: nat, y: nat)
    ensures 2 * (x * y) == (2 * x) * y
  {
  }

  lemma Pow2Of32()
    ensures Pow2(32) == 0x1_0000_0000
  {
    Eight(0);
    Pow2Add(8, 8);
    Pow2Add(16, 16);
  }

  /** The low byte of a number contributes its first eight bits, the quotient the rest. */
  lemma NumBitsByte(n: nat, k: nat)
    ensures NumBits(n, k + 8) == NumBits(n % 0x100, 8) + NumBits(n / 0x100, k)
  {
    Eight(n);
    NumBitsSplit(n, 8, k);
    NumBitsModulo(n % 0x100, 8, n / 0x100);
  }

  /** A word is its four bytes, low byte first. */
  lemma WordBytes(n: u32)
    ensures NumBits(n, 32) == NumBits(n % 0x100, 8) + NumBits(n / 0x100 % 0x100, 8)
                            + NumBits(n / 0x100 / 0x100 % 0x100, 8) + NumBits(n / 0x100 / 0x100 / 0x100, 8)
  {
    var n1, n2, n3 := n / 0x100, n / 0x100 / 0x100, n / 0x100 / 0x100 / 0x100;
    NumBitsByte(n, 24);
    NumBitsByte(n1, 16);
    NumBitsByte(n2, 8);
    var b0, b1, b2, b3 := NumBits(n % 0x100, 8), NumBits(n1 % 0x100, 8), NumBits(n2 % 0x100, 8), NumBits(n3, 8);
    Assoc(b1, b2, b3);
    Assoc(b0, b1 + b2, b3);
    Assoc(b0, b1, b2);
  }

  lemma {:induction false} NumBitsZero(n: nat)
    ensures NumBits(0, n) == Zeros(n)
  {
    if n == 0 {
    } else {
      NumBitsZero(n - 1);
    }
  }

  lemma NumBitsOfByte(b: byte)
    ensures NumBits(b, 32) == NumBits(b, 8) + Zeros(24)
  {
    NumBitsByte(b, 24);
    NumBitsZero(24);
  }

  lemma XorCons(x: bool, y: bool, a: seq<bool>, b: seq<bool>)
    requires |a| == |b|
    ensures Xor([x] + a, [y] + b) == [x != y] + Xor(a, b)
  {
  }

  lemma XorLaws(a: seq<bool>, b: seq<bool>)
    requires |a| == |b|
    ensures Xor(a, b) == Xor(b, a)
    ensures Xor(a, Zeros(|a|)) == a && Xor(Zeros(|a|), a) == a
    ensures Xor(a, a) == Zeros(|a|)
  {
  }

  /** The integer value of a byte-sized bit list. */
  function ByteValue(bits: seq<bool>): (b: byte)
    requires |bits| == 8
    ensures NumBits(b, 8) == bits
  {
    NumBitsOfNum(bits);
    Eight(0);
    Num(bits)
  }

  /** The integer value of a word. */
  function WordValue(w: Word): (n: u32)
    ensures NumBits(n, 32) == w
  {
    NumBitsOfNum(w);
    Pow2Of32();
    Num(w)
  }

  lemma NumBitsInjective(m: u32, n: u32)
    requires NumBits(m, 32) == NumBits(n, 32)
    ensures m == n
  {
    Pow2Of32();
    NumOfNumBits(m, 32);
    NumOfNumBits(n, 32);
  }

  lemma ByteInjective(m: byte, n: byte)
    requires NumBits(m, 8) == NumBits(n, 8)
    ensures m == n
  {
    Eight(0);
    NumOfNumBits(m, 8);
    NumOfNumBits(n, 8);
  }
}
