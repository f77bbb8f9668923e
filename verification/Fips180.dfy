/** The parts of SHA-256 that FIPS 180-4 describes apart from the algorithm: where its constants come
    from (sections 4.2.2 and 5.3.3), what its functions do to single bits (section 4.1.2), the message
    schedule and the rounds as recurrences (section 6.2.2), and the order of bytes (section 3.1). */
module Fips180 {
  import opened Base
  import opened Sha256

  // ----- the first 64 primes

  ghost predicate IsPrime(n: nat) {
    n >= 2 && forall d :: 2 <= d < n ==> n % d != 0
  }

  /** Nothing from 2 to 17 divides `n`, except `n` itself. */
  predicate Undivided(n: nat) {
    && (n % 2 != 0 || n == 2) && (n % 3 != 0 || n == 3) && (n % 4 != 0 || n == 4) && (n % 5 != 0 || n == 5)
    && (n % 6 != 0 || n == 6) && (n % 7 != 0 || n == 7) && (n % 8 != 0 || n == 8) && (n % 9 != 0 || n == 9)
    && (n % 10 != 0 || n == 10) && (n % 11 != 0 || n == 11) && (n % 12 != 0 || n == 12) && (n % 13 != 0 || n == 13)
    && (n % 14 != 0 || n == 14) && (n % 15 != 0 || n == 15) && (n % 16 != 0 || n == 16) && (n % 17 != 0 || n == 17)
  }

  lemma SmallDivisor(n: nat, d: nat)
    requires Undivided(n) && 2 <= d < n && d <= 17
    ensures n % d != 0
  {
  }

  /** Below 18 * 18, a number with a divisor has one below 18. */
  lemma UndividedIsPrime(n: nat)
    requires 2 <= n < 324 && Undivided(n)
    ensures IsPrime(n)
  {
    forall d | 2 <= d < n
      ensures n % d != 0
    {
      if d <= 17 {
        SmallDivisor(n, d);
      } else if n % d == 0 {
        var e := n / d;
        Cofactor(n, d, e);
        SmallDivisor(n, e);
      }
    }
  }

  lemma Cofactor(n: nat, d: nat, e: nat)
    requires 18 <= d < n < 324 && n % d == 0 && e == n / d
    ensures 2 <= e <= 17 && n % e == 0
  {
    assert n == d * e;
    assert e != 0 && e != 1;
    if e >= 18 {
      Product(d, e);
    }
    MultipleOf(n, d, e);
  }

  lemma Product(d: nat, e: nat)
    requires d >= 18 && e >= 18
    ensures d * e >= 324
  {
    assert d * e >= d * 18;
  }

  lemma MultipleOf(n: nat, q: nat, e: nat)
    requires e > 0 && n == q * e
    ensures n % e == 0
  {
    var r, p := n % e, n / e;
    assert n == p * e + r;
    assert (q - p) * e == r;
    if q - p >= 1 {
      AtLeast(q - p, e);
    } else if q - p <= -1 {
      AtLeast(p - q, e);
    }
  }

  lemma AtLeast(k: int, e: nat)
    requires k >= 1
    ensures k * e >= e
  {
  }

  /** `q` is the next prime after `p`. */
  ghost predicate NextPrime(p: nat, q: nat) {
    p < q && IsPrime(p) && IsPrime(q) && forall n :: p < n < q ==> !IsPrime(n)
  }

  lemma Next(p: nat, q: nat, ds: seq<nat>)
    requires 2 < p < q < 324 && Undivided(p) && Undivided(q) && q == p + 2 + 2 * |ds|
    requires forall i :: 0 <= i < |ds| ==> 2 <= ds[i] < p && (p + 2 + 2 * i) % ds[i] == 0
    ensures NextPrime(p, q)
  {
    assert p % 2 == 1;
    UndividedIsPrime(p);
    UndividedIsPrime(q);
    hide IsPrime, Undivided;
    forall n | p < n < q
      ensures !IsPrime(n)
    {
      if n % 2 == 0 {
        Composite(n, 2);
      } else {
        var i := OddStep(p, n);
        Composite(n, ds[i]);
      }
    }
  }

  lemma OddStep(p: nat, n: nat) returns (i: nat)
    requires p < n && p % 2 == 1 && n % 2 == 1
    ensures n == p + 2 + 2 * i
  {
    i := (n - p - 2) / 2;
  }

  lemma Composite(n: nat, d: nat)
    requires 2 <= d < n && n % d == 0
    ensures !IsPrime(n)
  {
  }

  lemma TwoThenThree()
    ensures NextPrime(2, 3)
  {
    UndividedIsPrime(2);
    UndividedIsPrime(3);
  }

  function Primes0(): (p: seq<nat>)
    ensures |p| == 16
  {
    [2, 3, 5, 7, 11, 13, 17, 19, 23, 29, 31, 37, 41, 43, 47, 53]
  }

  function Primes16(): (p: seq<nat>)
    ensures |p| == 16
  {
    [59, 61, 67, 71, 73, 79, 83, 89, 97, 101, 103, 107, 109, 113, 127, 131]
  }

  function Primes32(): (p: seq<nat>)
    ensures |p| == 16
  {
    [137, 139, 149, 151, 157, 163, 167, 173, 179, 181, 191, 193, 197, 199, 211, 223]
  }

  function Primes48(): (p: seq<nat>)
    ensures |p| == 16
  {
    [227, 229, 233, 239, 241, 251, 257, 263, 269, 271, 277, 281, 283, 293, 307, 311]
  }

  /** The 64 primes, in order. */
  function Primes(): (p: seq<nat>)
    ensures |p| == 64
  {
    Primes0() + Primes16() + Primes32() + Primes48()
  }

  ghost predicate Consecutive(p: seq<nat>) {
    forall i :: 0 <= i < |p| - 1 ==> NextPrime(p[i], p[i + 1])
  }

  lemma Links0()
    ensures NextPrime(2, 3) && NextPrime(3, 5) && NextPrime(5, 7) && NextPrime(7, 11)
    ensures NextPrime(11, 13) && NextPrime(13, 17) && NextPrime(17, 19)
  {
    hide IsPrime, NextPrime;
    TwoThenThree();
    Next(3, 5, []);
    Next(5, 7, []);
    Next(7, 11, [3]);
    Next(11, 13, []);
    Next(13, 17, [3]);
    Next(17, 19, []);
  }

  lemma Links8()
    ensures NextPrime(19, 23) && NextPrime(23, 29) && NextPrime(29, 31) && NextPrime(31, 37)
    ensures NextPrime(37, 41) && NextPrime(41, 43) && NextPrime(43, 47) && NextPrime(47, 53)
  {
    hide IsPrime, NextPrime;
    Next(19, 23, [3]);
    Next(23, 29, [5, 3]);
    Next(29, 31, []);
    Next(31, 37, [3, 5]);
    Next(37, 41, [3]);
    Next(41, 43, []);
    Next(43, 47, [3]);
    Next(47, 53, [7, 3]);
  }

  lemma Links16()
    ensures NextPrime(53, 59) && NextPrime(59, 61) && NextPrime(61, 67) && NextPrime(67, 71)
    ensures NextPrime(71, 73) && NextPrime(73, 79) && NextPrime(79, 83) && NextPrime(83, 89)
  {
    hide IsPrime, NextPrime;
    Next(53, 59, [5, 3]);
    Next(59, 61, []);
    Next(61, 67, [3, 5]);
    Next(67, 71, [3]);
    Next(71, 73, []);
    Next(73, 79, [3, 7]);
    Next(79, 83, [3]);
    Next(83, 89, [5, 3]);
  }

  lemma Links24()
    ensures NextPrime(89, 97) && NextPrime(97, 101) && NextPrime(101, 103) && NextPrime(103, 107)
    ensures NextPrime(107, 109) && NextPrime(109, 113) && NextPrime(113, 127) && NextPrime(127, 131)
  {
    hide IsPrime, NextPrime;
    Next(89, 97, [7, 3, 5]);
    Next(97, 101, [3]);
    Next(101, 103, []);
    Next(103, 107, [3]);
    Next(107, 109, []);
    Next(109, 113, [3]);
    Next(113, 127, [5, 3, 7, 11, 3, 5]);
    Next(127, 131, [3]);
  }

  lemma Links32()
    ensures NextPrime(131, 137) && NextPrime(137, 139) && NextPrime(139, 149) && NextPrime(149, 151)
    ensures NextPrime(151, 157) && NextPrime(157, 163) && NextPrime(163, 167) && NextPrime(167, 173)
  {
    hide IsPrime, NextPrime;
    Next(131, 137, [7, 3]);
    Next(137, 139, []);
    Next(139, 149, [3, 11, 5, 3]);
    Next(149, 151, []);
    Next(151, 157, [3, 5]);
    Next(157, 163, [3, 7]);
    Next(163, 167, [3]);
    Next(167, 173, [13, 3]);
  }

  lemma Links40()
    ensures NextPrime(173, 179) && NextPrime(179, 181) && NextPrime(181, 191) && NextPrime(191, 193)
    ensures NextPrime(193, 197) && NextPrime(197, 199) && NextPrime(199, 211) && NextPrime(211, 223)
  {
    hide IsPrime, NextPrime;
    Next(173, 179, [5, 3]);
    Next(179, 181, []);
    Next(181, 191, [3, 5, 11, 3]);
    Next(191, 193, []);
    Next(193, 197, [3]);
    Next(197, 199, []);
    Next(199, 211, [3, 7, 5, 3, 11]);
    Next(211, 223, [3, 5, 7, 3, 13]);
  }

  lemma Links48()
    ensures NextPrime(223, 227) && NextPrime(227, 229) && NextPrime(229, 233) && NextPrime(233, 239)
    ensures NextPrime(239, 241) && NextPrime(241, 251) && NextPrime(251, 257) && NextPrime(257, 263)
  {
    hide IsPrime, NextPrime;
    Next(223, 227, [3]);
    Next(227, 229, []);
    Next(229, 233, [3]);
    Next(233, 239, [5, 3]);
    Next(239, 241, []);
    Next(241, 251, [3, 5, 13, 3]);
    Next(251, 257, [11, 3]);
    Next(257, 263, [7, 3]);
  }

  lemma Links56()
    ensures NextPrime(263, 269) && NextPrime(269, 271) && NextPrime(271, 277) && NextPrime(277, 281)
    ensures NextPrime(281, 283) && NextPrime(283, 293) && NextPrime(293, 307) && NextPrime(307, 311)
  {
    hide IsPrime, NextPrime;
    Next(263, 269, [5, 3]);
    Next(269, 271, []);
    Next(271, 277, [3, 5]);
    Next(277, 281, [3]);
    Next(281, 283, []);
    Next(283, 293, [3, 7, 17, 3]);
    Next(293, 307, [5, 3, 13, 7, 3, 5]);
    Next(307, 311, [3]);
  }

  lemma Consecutive0()
    ensures Consecutive(Primes0())
  {
    hide IsPrime, NextPrime;
    Links0();
    Links8();
    var p := Primes0();
    forall i | 0 <= i < 15
      ensures NextPrime(p[i], p[i + 1])
    {
    }
  }

  lemma Consecutive16()
    ensures Consecutive(Primes16()) && NextPrime(53, 59)
  {
    hide IsPrime, NextPrime;
    Links16();
    Links24();
    var p := Primes16();
    forall i | 0 <= i < 15
      ensures NextPrime(p[i], p[i + 1])
    {
    }
  }

  lemma Consecutive32()
    ensures Consecutive(Primes32()) && NextPrime(131, 137)
  {
    hide IsPrime, NextPrime;
    Links32();
    Links40();
    var p := Primes32();
    forall i | 0 <= i < 15
      ensures NextPrime(p[i], p[i + 1])
    {
    }
  }

  lemma Consecutive48()
    ensures Consecutive(Primes48()) && NextPrime(223, 227)
  {
    hide IsPrime, NextPrime;
    Links48();
    Links56();
    var p := Primes48();
    forall i | 0 <= i < 15
      ensures NextPrime(p[i], p[i + 1])
    {
    }
  }

  /** They are the first 64: the list starts with 2 and leaves none out. */
  lemma PrimesAreFirst()
    ensures Primes()[0] == 2 && Consecutive(Primes())
  {
    hide NextPrime, IsPrime;
    Consecutive0();
    Consecutive16();
    Consecutive32();
    Consecutive48();
    Join(Primes0(), Primes16());
    Join(Primes0() + Primes16(), Primes32());
    Join(Primes0() + Primes16() + Primes32(), Primes48());
  }

  lemma Join(a: seq<nat>, b: seq<nat>)
    requires a != [] && b != [] && Consecutive(a) && Consecutive(b) && NextPrime(a[|a| - 1], b[0])
    ensures Consecutive(a + b)
  {
    hide NextPrime;
    var c := a + b;
    forall i | 0 <= i < |c| - 1
      ensures NextPrime(c[i], c[i + 1])
    {
      if i < |a| - 1 {
        assert c[i] == a[i] && c[i + 1] == a[i + 1];
      } else if i >= |a| {
        assert c[i] == b[i - |a|] && c[i + 1] == b[i - |a| + 1];
      }
    }
  }

  // ----- the round constants and the initial hash value

  function Cube(x: nat): nat {
    x * x * x
  }

  function Square(x: nat): nat {
    x * x
  }

  /** `k` is the first 32 bits of the fractional part of the cube root of `p`. */
  ghost predicate CubeRootFraction(p: nat, k: u32) {
    exists a: nat :: Cube(a * TWO32 + k) <= p * TWO32 * TWO32 * TWO32 < Cube(a * TWO32 + k + 1)
  }

  /** Likewise of the square root. */
  ghost predicate SquareRootFraction(p: nat, k: u32) {
    exists a: nat :: Square(a * TWO32 + k) <= p * TWO32 * TWO32 < Square(a * TWO32 + k + 1)
  }

  ghost predicate CubeRootFractions(p: seq<nat>, k: seq<u32>) {
    |p| == |k| && forall i :: 0 <= i < |p| ==> CubeRootFraction(p[i], k[i])
  }

  lemma CubeRoot(p: nat, a: nat, k: u32)
    requires Cube(a * TWO32 + k) <= p * TWO32 * TWO32 * TWO32 < Cube(a * TWO32 + k + 1)
    ensures CubeRootFraction(p, k)
  {
  }

  lemma SquareRoot(p: nat, a: nat, k: u32)
    requires Square(a * TWO32 + k) <= p * TWO32 * TWO32 < Square(a * TWO32 + k + 1)
    ensures SquareRootFraction(p, k)
  {
  }

  lemma CubeRoots0()
    ensures CubeRootFractions(Primes0(), Constants0())
  {
    hide CubeRootFraction;
    CubeRoot(2, 1, 0x428a2f98);
    CubeRoot(3, 1, 0x71374491);
    CubeRoot(5, 1, 0xb5c0fbcf);
    CubeRoot(7, 1, 0xe9b5dba5);
    CubeRoot(11, 2, 0x3956c25b);
    CubeRoot(13, 2, 0x59f111f1);
    CubeRoot(17, 2, 0x923f82a4);
    CubeRoot(19, 2, 0xab1c5ed5);
    CubeRoot(23, 2, 0xd807aa98);
    CubeRoot(29, 3, 0x12835b01);
    CubeRoot(31, 3, 0x243185be);
    CubeRoot(37, 3, 0x550c7dc3);
    CubeRoot(41, 3, 0x72be5d74);
    CubeRoot(43, 3, 0x80deb1fe);
    CubeRoot(47, 3, 0x9bdc06a7);
    CubeRoot(53, 3, 0xc19bf174);
  }

  lemma CubeRoots16()
    ensures CubeRootFractions(Primes16(), Constants16())
  {
    hide CubeRootFraction;
    CubeRoot(59, 3, 0xe49b69c1);
    CubeRoot(61, 3, 0xefbe4786);
    CubeRoot(67, 4, 0x0fc19dc6);
    CubeRoot(71, 4, 0x240ca1cc);
    CubeRoot(73, 4, 0x2de92c6f);
    CubeRoot(79, 4, 0x4a7484aa);
    CubeRoot(83, 4, 0x5cb0a9dc);
    CubeRoot(89, 4, 0x76f988da);
    CubeRoot(97, 4, 0x983e5152);
    CubeRoot(101, 4, 0xa831c66d);
    CubeRoot(103, 4, 0xb00327c8);
    CubeRoot(107, 4, 0xbf597fc7);
    CubeRoot(109, 4, 0xc6e00bf3);
    CubeRoot(113, 4, 0xd5a79147);
    CubeRoot(127, 5, 0x06ca6351);
    CubeRoot(131, 5, 0x14292967);
  }

  lemma CubeRoots32()
    ensures CubeRootFractions(Primes32(), Constants32())
  {
    hide CubeRootFraction;
    CubeRoot(137, 5, 0x27b70a85);
    CubeRoot(139, 5, 0x2e1b2138);
    CubeRoot(149, 5, 0x4d2c6dfc);
    CubeRoot(151, 5, 0x53380d13);
    CubeRoot(157, 5, 0x650a7354);
    CubeRoot(163, 5, 0x766a0abb);
    CubeRoot(167, 5, 0x81c2c92e);
    CubeRoot(173, 5, 0x92722c85);
    CubeRoot(179, 5, 0xa2bfe8a1);
    CubeRoot(181, 5, 0xa81a664b);
    CubeRoot(191, 5, 0xc24b8b70);
    CubeRoot(193, 5, 0xc76c51a3);
    CubeRoot(197, 5, 0xd192e819);
    CubeRoot(199, 5, 0xd6990624);
    CubeRoot(211, 5, 0xf40e3585);
    CubeRoot(223, 6, 0x106aa070);
  }

  lemma CubeRoots48()
    ensures CubeRootFractions(Primes48(), Constants48())
  {
    hide CubeRootFraction;
    CubeRoot(227, 6, 0x19a4c116);
    CubeRoot(229, 6, 0x1e376c08);
    CubeRoot(233, 6, 0x2748774c);
    CubeRoot(239, 6, 0x34b0bcb5);
    CubeRoot(241, 6, 0x391c0cb3);
    CubeRoot(251, 6, 0x4ed8aa4a);
    CubeRoot(257, 6, 0x5b9cca4f);
    CubeRoot(263, 6, 0x682e6ff3);
    CubeRoot(269, 6, 0x748f82ee);
    CubeRoot(271, 6, 0x78a5636f);
    CubeRoot(277, 6, 0x84c87814);
    CubeRoot(281, 6, 0x8cc70208);
    CubeRoot(283, 6, 0x90befffa);
    CubeRoot(293, 6, 0xa4506ceb);
    CubeRoot(307, 6, 0xbef9a3f7);
    CubeRoot(311, 6, 0xc67178f2);
  }

  /** Section 4.2.2: the constants are the first 32 bits of the fractional parts of the cube roots of
      the first 64 primes. */
  lemma ConstantsAreCubeRoots()
    ensures Primes()[0] == 2 && Consecutive(Primes()) && CubeRootFractions(Primes(), Constants())
  {
    hide CubeRootFraction, NextPrime, Consecutive;
    PrimesAreFirst();
    CubeRoots0();
    CubeRoots16();
    CubeRoots32();
    CubeRoots48();
    Concatenated(Primes0(), Constants0(), Primes16(), Constants16());
    Concatenated(Primes0() + Primes16(), Constants0() + Constants16(), Primes32(), Constants32());
    Concatenated(Primes0() + Primes16() + Primes32(), Constants0() + Constants16() + Constants32(),
                 Primes48(), Constants48());
  }

  lemma Concatenated(p: seq<nat>, k: seq<u32>, q: seq<nat>, l: seq<u32>)
    requires CubeRootFractions(p, k) && CubeRootFractions(q, l)
    ensures CubeRootFractions(p + q, k + l)
  {
    hide CubeRootFraction;
  }

  /** Section 5.3.3: the initial words are those of the square roots of the first eight. */
  lemma InitialIsSquareRoots()
    ensures
      && Primes0()[..8] == Primes()[..8]
      && SquareRootFraction(Primes0()[0], INITIAL.a) && SquareRootFraction(Primes0()[1], INITIAL.b)
      && SquareRootFraction(Primes0()[2], INITIAL.c) && SquareRootFraction(Primes0()[3], INITIAL.d)
      && SquareRootFraction(Primes0()[4], INITIAL.e) && SquareRootFraction(Primes0()[5], INITIAL.f)
      && SquareRootFraction(Primes0()[6], INITIAL.g) && SquareRootFraction(Primes0()[7], INITIAL.h)
  {
    hide SquareRootFraction;
    SquareRoot(2, 1, 0x6a09e667);
    SquareRoot(3, 1, 0xbb67ae85);
    SquareRoot(5, 2, 0x3c6ef372);
    SquareRoot(7, 2, 0xa54ff53a);
    SquareRoot(11, 3, 0x510e527f);
    SquareRoot(13, 3, 0x9b05688c);
    SquareRoot(17, 4, 0x1f83d9ab);
    SquareRoot(19, 4, 0x5be0cd19);
  }

  // ----- the functions, bit by bit

  /** Where `x` has a one, `c` is `y`; where it has a zero, `c` is `z`. */
  predicate Chooses(x: bv32, y: bv32, z: bv32, c: bv32) {
    c & x == y & x && c & !x == z & !x
  }

  /** Where `x` and `y` agree `m` agrees with them, where they differ it is `z`. */
  predicate Agrees(x: bv32, y: bv32, z: bv32, m: bv32) {
    (m ^ x) & !(x ^ y) == 0 && (m ^ z) & (x ^ y) == 0
  }

  lemma ChoiceOfWords(x: bv32, y: bv32, z: bv32)
    ensures Chooses(x, y, z, (x & y) ^ (!x & z))
  {
  }

  lemma MajorityOfWords(x: bv32, y: bv32, z: bv32)
    ensures Agrees(x, y, z, (x & y) ^ (x & z) ^ (y & z))
  {
    WhereEqual(x, y, z);
    WhereDifferent(x, y, z);
  }

  lemma WhereEqual(x: bv32, y: bv32, z: bv32)
    ensures (((x & y) ^ (x & z) ^ (y & z)) ^ x) & !(x ^ y) == 0
  {
  }

  lemma WhereDifferent(x: bv32, y: bv32, z: bv32)
    ensures (((x & y) ^ (x & z) ^ (y & z)) ^ z) & (x ^ y) == 0
  {
  }

  lemma ChWord(x: u32, y: u32, z: u32)
    ensures Ch(x, y, z) as bv32 == ((x as bv32) & (y as bv32)) ^ (!(x as bv32) & (z as bv32))
  {
  }

  lemma MajWord(x: u32, y: u32, z: u32)
    ensures Maj(x, y, z) as bv32 ==
            ((x as bv32) & (y as bv32)) ^ ((x as bv32) & (z as bv32)) ^ ((y as bv32) & (z as bv32))
  {
  }

  lemma ChChooses(x: u32, y: u32, z: u32)
    ensures Chooses(x as bv32, y as bv32, z as bv32, Ch(x, y, z) as bv32)
  {
    hide Chooses, Ch;
    ChWord(x, y, z);
    ChoiceOfWords(x as bv32, y as bv32, z as bv32);
  }

  lemma MajAgrees(x: u32, y: u32, z: u32)
    ensures Agrees(x as bv32, y as bv32, z as bv32, Maj(x, y, z) as bv32)
  {
    hide Agrees, Maj;
    MajWord(x, y, z);
    MajorityOfWords(x as bv32, y as bv32, z as bv32);
  }

  /** Bit `i` of a word, counted from the least significant. */
  predicate BitOf(v: bv32, i: bv32)
    requires i < 32
  {
    (v >> i) & 1 == 1
  }

  function Xor3(a: bv32, b: bv32, c: bv32): bv32 {
    a ^ b ^ c
  }

  /** The position `n` above, counted around. */
  function Above(i: bv32, n: bv32): (j: bv32)
    ensures j < 32
  {
    (i + n) & 31
  }

  lemma XorOf(a: bv32, b: bv32, c: bv32, i: bv32)
    requires i < 32
    ensures BitOf(Xor3(a, b, c), i) == ((BitOf(a, i) != BitOf(b, i)) != BitOf(c, i))
  {
    hide BitOf;
    XorBits(a, b, c, i);
  }

  lemma XorBits(a: bv32, b: bv32, c: bv32, i: bv32)
    requires i < 32
    ensures BitOf(a ^ b ^ c, i) == ((BitOf(a, i) != BitOf(b, i)) != BitOf(c, i))
  {
  }


  lemma Rotr2(x: bv32, i: bv32)
    requires i < 32
    ensures BitOf(Rotr(x, 2), i) == BitOf(x, Above(i, 2))
  {
  }

  lemma Rotr6(x: bv32, i: bv32)
    requires i < 32
    ensures BitOf(Rotr(x, 6), i) == BitOf(x, Above(i, 6))
  {
  }

  lemma Rotr7(x: bv32, i: bv32)
    requires i < 32
    ensures BitOf(Rotr(x, 7), i) == BitOf(x, Above(i, 7))
  {
  }

  lemma Rotr11(x: bv32, i: bv32)
    requires i < 32
    ensures BitOf(Rotr(x, 11), i) == BitOf(x, Above(i, 11))
  {
  }

  lemma Rotr13(x: bv32, i: bv32)
    requires i < 32
    ensures BitOf(Rotr(x, 13), i) == BitOf(x, Above(i, 13))
  {
  }

  lemma Rotr17(x: bv32, i: bv32)
    requires i < 32
    ensures BitOf(Rotr(x, 17), i) == BitOf(x, Above(i, 17))
  {
  }

  lemma Rotr18(x: bv32, i: bv32)
    requires i < 32
    ensures BitOf(Rotr(x, 18), i) == BitOf(x, Above(i, 18))
  {
  }

  lemma Rotr19(x: bv32, i: bv32)
    requires i < 32
    ensures BitOf(Rotr(x, 19), i) == BitOf(x, Above(i, 19))
  {
  }

  lemma Rotr22(x: bv32, i: bv32)
    requires i < 32
    ensures BitOf(Rotr(x, 22), i) == BitOf(x, Above(i, 22))
  {
  }

  lemma Rotr25(x: bv32, i: bv32)
    requires i < 32
    ensures BitOf(Rotr(x, 25), i) == BitOf(x, Above(i, 25))
  {
  }

  lemma Shr3(x: bv32, i: bv32)
    requires i < 32
    ensures BitOf(Shr(x, 3), i) == (i < 32 - 3 && BitOf(x, Above(i, 3)))
  {
  }

  lemma Shr10(x: bv32, i: bv32)
    requires i < 32
    ensures BitOf(Shr(x, 10), i) == (i < 32 - 10 && BitOf(x, Above(i, 10)))
  {
  }

  lemma BigSigma0Word(x: u32)
    ensures BigSigma0(x) as bv32 == Xor3(Rotr(x as bv32, 2), Rotr(x as bv32, 13), Rotr(x as bv32, 22))
  {
    hide Rotr;
  }

  /** The sum modulo 2 of rotations by 2, 13 and 22. */
  lemma BigSigma0Bits(x: u32, i: bv32)
    requires i < 32
    ensures BitOf(BigSigma0(x) as bv32, i) ==
            ((BitOf(x as bv32, Above(i, 2)) != BitOf(x as bv32, Above(i, 13)))
             != BitOf(x as bv32, Above(i, 22)))
  {
    hide BitOf, Rotr, Xor3, Above, BigSigma0;
    var v := x as bv32;
    BigSigma0Word(x);
    XorOf(Rotr(v, 2), Rotr(v, 13), Rotr(v, 22), i);
    Rotr2(v, i);
    Rotr13(v, i);
    Rotr22(v, i);
  }

  lemma BigSigma1Word(x: u32)
    ensures BigSigma1(x) as bv32 == Xor3(Rotr(x as bv32, 6), Rotr(x as bv32, 11), Rotr(x as bv32, 25))
  {
    hide Rotr;
  }

  /** The sum modulo 2 of rotations by 6, 11 and 25. */
  lemma BigSigma1Bits(x: u32, i: bv32)
    requires i < 32
    ensures BitOf(BigSigma1(x) as bv32, i) ==
            ((BitOf(x as bv32, Above(i, 6)) != BitOf(x as bv32, Above(i, 11)))
             != BitOf(x as bv32, Above(i, 25)))
  {
    hide BitOf, Rotr, Xor3, Above, BigSigma1;
    var v := x as bv32;
    BigSigma1Word(x);
    XorOf(Rotr(v, 6), Rotr(v, 11), Rotr(v, 25), i);
    Rotr6(v, i);
    Rotr11(v, i);
    Rotr25(v, i);
  }

  lemma SmallSigma0Word(x: u32)
    ensures SmallSigma0(x) as bv32 == Xor3(Rotr(x as bv32, 7), Rotr(x as bv32, 18), Shr(x as bv32, 3))
  {
    hide Rotr;
    hide Shr;
  }

  /** The sum modulo 2 of rotations by 7 and 18 and a shift by 3. */
  lemma SmallSigma0Bits(x: u32, i: bv32)
    requires i < 32
    ensures BitOf(SmallSigma0(x) as bv32, i) ==
            ((BitOf(x as bv32, Above(i, 7)) != BitOf(x as bv32, Above(i, 18)))
             != (i < 32 - 3 && BitOf(x as bv32, Above(i, 3))))
  {
    hide BitOf, Rotr, Xor3, Above, SmallSigma0, Shr;
    var v := x as bv32;
    SmallSigma0Word(x);
    XorOf(Rotr(v, 7), Rotr(v, 18), Shr(v, 3), i);
    Rotr7(v, i);
    Rotr18(v, i);
    Shr3(v, i);
  }

  lemma SmallSigma1Word(x: u32)
    ensures SmallSigma1(x) as bv32 == Xor3(Rotr(x as bv32, 17), Rotr(x as bv32, 19), Shr(x as bv32, 10))
  {
    hide Rotr;
    hide Shr;
  }

  /** The sum modulo 2 of rotations by 17 and 19 and a shift by 10. */
  lemma SmallSigma1Bits(x: u32, i: bv32)
    requires i < 32
    ensures BitOf(SmallSigma1(x) as bv32, i) ==
            ((BitOf(x as bv32, Above(i, 17)) != BitOf(x as bv32, Above(i, 19)))
             != (i < 32 - 10 && BitOf(x as bv32, Above(i, 10))))
  {
    hide BitOf, Rotr, Xor3, Above, SmallSigma1, Shr;
    var v := x as bv32;
    SmallSigma1Word(x);
    XorOf(Rotr(v, 17), Rotr(v, 19), Shr(v, 10), i);
    Rotr17(v, i);
    Rotr19(v, i);
    Shr10(v, i);
  }

  // ----- the schedule and the rounds as recurrences

  /** The first sixteen words are the block, most significant byte first; each later one is a sum
      modulo 2^32 of four earlier ones. */
  lemma ScheduleRecurrence(m: Block, t: nat)
    requires t < 64
    ensures t < 16 ==> BigEndianValue(m[4 * t..4 * t + 4]) == Schedule(m, t)
    ensures t >= 16 ==>
              Schedule(m, t) == (SmallSigma1(Schedule(m, t - 2)) + Schedule(m, t - 7)
                                 + SmallSigma0(Schedule(m, t - 15)) + Schedule(m, t - 16)) % TWO32
  {
    hide SmallSigma0, SmallSigma1;
    if t < 16 {
      FourBytes(m[4 * t..4 * t + 4]);
    } else {
      SumOfFour(SmallSigma1(Schedule(m, t - 2)), Schedule(m, t - 7), SmallSigma0(Schedule(m, t - 15)),
                Schedule(m, t - 16));
    }
  }

  lemma SumOfFour(a: u32, b: u32, c: u32, d: u32)
    ensures Plus(Plus(Plus(a, b), c), d) == (a + b + c + d) % TWO32
  {
    Carry(a + b, c);
    Carry(a + b + c, d);
  }

  lemma Carry(x: nat, y: nat)
    ensures (x % TWO32 + y) % TWO32 == (x + y) % TWO32
  {
  }

  lemma SumOfFive(a: u32, b: u32, c: u32, d: u32, e: u32)
    ensures Plus(Plus(Plus(Plus(a, b), c), d), e) == (a + b + c + d + e) % TWO32
  {
    hide Plus;
    SumOfFour(a, b, c, d);
    SumOfTwo((a + b + c + d) % TWO32, e);
  }

  /** The first words of the states: those of round `n`, and for -3 to 0 the ones given. */
  function A(s: Hash, k: seq<u32>, m: Block, n: int): u32
    requires -3 <= n <= 64 == |k|
    decreases n + 4, 0
  {
    if n == 0 then s.a else if n == -1 then s.b else if n == -2 then s.c else if n == -3 then s.d
    else
      (T1(s, k, m, n) + BigSigma0(A(s, k, m, n - 1)) + Maj(A(s, k, m, n - 1), A(s, k, m, n - 2), A(s, k, m, n - 3)))
      % TWO32
  }

  /** The fifth words. */
  function E(s: Hash, k: seq<u32>, m: Block, n: int): u32
    requires -3 <= n <= 64 == |k|
    decreases n + 4, 0
  {
    if n == 0 then s.e else if n == -1 then s.f else if n == -2 then s.g else if n == -3 then s.h
    else (A(s, k, m, n - 4) + T1(s, k, m, n)) % TWO32
  }

  function T1(s: Hash, k: seq<u32>, m: Block, n: int): u32
    requires 0 < n <= 64 == |k|
    decreases n + 3, 1
  {
    (E(s, k, m, n - 4) + BigSigma1(E(s, k, m, n - 1)) + Ch(E(s, k, m, n - 1), E(s, k, m, n - 2), E(s, k, m, n - 3))
     + k[n - 1] + Schedule(m, n - 1)) % TWO32
  }

  /** The eight registers hold the last four first words and the last four fifth words. */
  lemma {:induction false} RoundsAreRecurrences(s: Hash, k: seq<u32>, m: Block, n: nat)
    requires n <= 64 == |k|
    ensures Rounds(s, k, m, n) ==
            Hash(A(s, k, m, n), A(s, k, m, n - 1), A(s, k, m, n - 2), A(s, k, m, n - 3),
                 E(s, k, m, n), E(s, k, m, n - 1), E(s, k, m, n - 2), E(s, k, m, n - 3))
    decreases n
  {
    hide BigSigma0, BigSigma1, Ch, Maj, Schedule, Plus, Round;
    if n == 0 {
    } else {
      RoundsAreRecurrences(s, k, m, n - 1);
      RoundSums(Rounds(s, k, m, n - 1), k[n - 1], Schedule(m, n - 1));
    }
  }

  lemma RoundSums(s: Hash, k: u32, w: u32)
    ensures
      var t1 := (s.h + BigSigma1(s.e) + Ch(s.e, s.f, s.g) + k + w) % TWO32;
      Round(s, k, w) ==
      Hash((t1 + BigSigma0(s.a) + Maj(s.a, s.b, s.c)) % TWO32, s.a, s.b, s.c, (s.d + t1) % TWO32, s.e, s.f, s.g)
  {
    hide BigSigma0, BigSigma1, Ch, Maj, Plus;
    SumOfFive(s.h, BigSigma1(s.e), Ch(s.e, s.f, s.g), k, w);
    var t1 := (s.h + BigSigma1(s.e) + Ch(s.e, s.f, s.g) + k + w) % TWO32;
    SumOfThree(t1, BigSigma0(s.a), Maj(s.a, s.b, s.c));
    SumOfTwo(s.d, t1);
  }

  lemma SumOfTwo(a: u32, b: u32)
    ensures Plus(a, b) == (a + b) % TWO32
  {
  }

  lemma SumOfThree(a: u32, b: u32, c: u32)
    ensures Plus(a, Plus(b, c)) == (a + b + c) % TWO32
  {
    Carry(b + c, a);
  }

  /** Compressing a block adds the last registers to the state, word by word. */
  function LastState(s: Hash, k: seq<u32>, m: Block): Hash
    requires |k| == 64
  {
    Rounds(s, k, m, |k|)
  }

  lemma CompressSums(s: Hash, k: seq<u32>, m: Block)
    requires |k| == 64
    ensures Compress(s, k, m) == Sums(s, LastState(s, k, m))
  {
    hide Rounds, Add, Sums;
    AddSums(s, LastState(s, k, m));
  }

  function Sums(x: Hash, y: Hash): Hash {
    Hash((x.a + y.a) % TWO32, (x.b + y.b) % TWO32, (x.c + y.c) % TWO32, (x.d + y.d) % TWO32,
         (x.e + y.e) % TWO32, (x.f + y.f) % TWO32, (x.g + y.g) % TWO32, (x.h + y.h) % TWO32)
  }

  lemma AddSums(x: Hash, y: Hash)
    ensures Add(y, x) == Sums(x, y)
  {
    hide Plus;
    SumOfTwo(y.a, x.a);
    SumOfTwo(y.b, x.b);
    SumOfTwo(y.c, x.c);
    SumOfTwo(y.d, x.d);
    SumOfTwo(y.e, x.e);
    SumOfTwo(y.f, x.f);
    SumOfTwo(y.g, x.g);
    SumOfTwo(y.h, x.h);
  }

  // ----- the order of bytes

  /** The number whose digits to the base 256 these are, most significant first. */
  function BigEndianValue(s: seq<byte>): nat {
    if s == [] then 0 else BigEndianValue(s[..|s| - 1]) * 0x100 + s[|s| - 1]
  }

  lemma FourBytes(s: seq<byte>)
    requires |s| == 4
    ensures BigEndianValue(s) == BigEndianWord(s[0], s[1], s[2], s[3])
  {
    var s3, s2, s1 := s[..3], s[..2], s[..1];
    assert s3[..2] == s2 && s2[..1] == s1 && s1[..0] == [];
    assert BigEndianValue(s1) == s[0] && BigEndianValue(s2) == BigEndianValue(s1) * 0x100 + s[1];
    assert BigEndianValue(s3) == BigEndianValue(s2) * 0x100 + s[2];
  }

  lemma WordBytesValue(w: u32)
    ensures BigEndianValue(BigEndianBytes(w)) == w
  {
    FourBytes(BigEndianBytes(w));
    FourDigits(w);
  }

  lemma {:induction false} ValueOfConcat(a: seq<byte>, b: seq<byte>)
    ensures BigEndianValue(a + b) == BigEndianValue(a) * Pow256Of(|b|) + BigEndianValue(b)
    decreases |b|
  {
    if b == [] {
      assert a + b == a;
    } else {
      var n := |b| - 1;
      assert (a + b)[..|a| + n] == a + b[..n];
      ValueOfConcat(a, b[..n]);
      Distribute(BigEndianValue(a), Pow256Of(n), BigEndianValue(b[..n]), b[n]);
    }
  }

  function Pow256Of(n: nat): nat {
    if n == 0 then 1 else Pow256Of(n - 1) * 0x100
  }

  lemma Distribute(a: nat, p: nat, v: nat, c: nat)
    ensures (a * p + v) * 0x100 + c == a * (p * 0x100) + (v * 0x100 + c)
  {
  }

  /** The message length is appended most significant byte first. */
  lemma LengthBytesValue(n: u64)
    ensures BigEndianValue(BigEndian64(n)) == n
  {
    var hi, lo := n / TWO32, n % TWO32;
    assert BigEndian64(n) == BigEndianBytes(hi) + BigEndianBytes(lo);
    WordBytesValue(hi);
    WordBytesValue(lo);
    ValueOfConcat(BigEndianBytes(hi), BigEndianBytes(lo));
    FourthPower();
  }

  lemma FourthPower()
    ensures Pow256Of(4) == TWO32
  {
    assert Pow256Of(1) == 0x100 && Pow256Of(2) == 0x1_0000 && Pow256Of(3) == 0x100_0000;
  }

  /** The digest lists the words in order, each most significant byte first. */
  lemma DigestWords(s: Hash)
    ensures
      var d := HashBytes(s);
      && BigEndianValue(d[0..4]) == s.a && BigEndianValue(d[4..8]) == s.b && BigEndianValue(d[8..12]) == s.c
      && BigEndianValue(d[12..16]) == s.d && BigEndianValue(d[16..20]) == s.e && BigEndianValue(d[20..24]) == s.f
      && BigEndianValue(d[24..28]) == s.g && BigEndianValue(d[28..32]) == s.h
  {
    hide BigEndianBytes, BigEndianValue;
    var d := HashBytes(s);
    assert d[0..4] == BigEndianBytes(s.a) && d[4..8] == BigEndianBytes(s.b) && d[8..12] == BigEndianBytes(s.c);
    assert d[12..16] == BigEndianBytes(s.d) && d[16..20] == BigEndianBytes(s.e) && d[20..24] == BigEndianBytes(s.f);
    assert d[24..28] == BigEndianBytes(s.g) && d[28..32] == BigEndianBytes(s.h);
    WordBytesValue(s.a);
    WordBytesValue(s.b);
    WordBytesValue(s.c);
    WordBytesValue(s.d);
    WordBytesValue(s.e);
    WordBytesValue(s.f);
    WordBytesValue(s.g);
    WordBytesValue(s.h);
  }
}
