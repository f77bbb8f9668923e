/** Little-endian integers in byte strings. */
module Bytes {
  import opened Base
  import opened Bits
  import Crc

  function LE(v: nat, k: nat): (s: seq<byte>)
    ensures |s| == k
  {
    if k == 0 then [] else [v % 0x100] + LE(v / 0x100, k - 1)
  }

  function FromLE(s: seq<byte>): nat {
    if s == [] then 0 else s[0] + 0x100 * FromLE(s[1..])
  }

  function Pow256(k: nat): (r: nat)
    ensures r > 0
  {
    if k == 0 then 1 else 0x100 * Pow256(k - 1)
  }

  lemma {:induction false} FromLEOfLE(v: nat, k: nat)
    requires v < Pow256(k)
    ensures FromLE(LE(v, k)) == v
  {
    if k == 0 {
    } else {
      FromLEOfLE(v / 0x100, k - 1);
      assert LE(v, k)[1..] == LE(v / 0x100, k - 1);
    }
  }

  lemma {:induction false} LEOfFromLE(s: seq<byte>)
    ensures FromLE(s) < Pow256(|s|)
    ensures LE(FromLE(s), |s|) == s
  {
    if s == [] {
    } else {
      LEOfFromLE(s[1..]);
      assert s == [s[0]] + s[1..];
    }
  }

  lemma Pow256Words()
    ensures Pow256(1) == 0x100 && Pow256(2) == 0x1_0000
    ensures Pow256(4) == 0x1_0000_0000 && Pow256(8) == 0x1_0000_0000_0000_0000
  {
    assert Pow256(3) == 0x100_0000;
    assert Pow256(5) == 0x100_0000_0000;
    assert Pow256(6) == 0x1_0000_0000_0000;
    assert Pow256(7) == 0x100_0000_0000_0000;
  }

  lemma LE4(v: u32)
    ensures LE(v, 4) == [v % 0x100, v / 0x100 % 0x100, v / 0x1_0000 % 0x100, v / 0x100_0000]
  {
    assert LE(v, 4) == [v % 0x100] + LE(v / 0x100, 3);
    assert LE(v / 0x100, 3) == [v / 0x100 % 0x100] + LE(v / 0x1_0000, 2);
    assert LE(v / 0x1_0000, 2) == [v / 0x1_0000 % 0x100] + LE(v / 0x100_0000, 1);
  }

  lemma FromLE4(s: seq<byte>)
    requires |s| == 4
    ensures FromLE(s) == s[0] as int + 0x100 * (s[1] as int) + 0x1_0000 * (s[2] as int) + 0x100_0000 * (s[3] as int)
  {
    assert FromLE(s) == s[0] as int + 0x100 * FromLE(s[1..]);
    assert FromLE(s[1..]) == s[1] as int + 0x100 * FromLE(s[2..]);
    assert FromLE(s[2..]) == s[2] as int + 0x100 * FromLE(s[3..]);
    assert FromLE(s[3..]) == s[3];
  }

  /** The bits of a little-endian word are the bits of the integer. */
  lemma {:induction false} BitsOfLE(v: nat, k: nat)
    ensures Crc.BitsOf(LE(v, k)) == NumBits(v, 8 * k)
  {
    if k == 0 {
    } else {
      BitsOfLE(v / 0x100, k - 1);
      NumBitsByte(v, 8 * (k - 1));
      assert LE(v, k)[1..] == LE(v / 0x100, k - 1);
    }
  }

  lemma {:induction false} BitsOfInjective(a: seq<byte>, b: seq<byte>)
    requires |a| == |b| && Crc.BitsOf(a) == Crc.BitsOf(b)
    ensures a == b
  {
    if a == [] {
    } else {
      var u, v := Crc.BitsOf(a), Crc.BitsOf(b);
      assert u[..8] == NumBits(a[0], 8) && v[..8] == NumBits(b[0], 8);
      assert u[8..] == Crc.BitsOf(a[1..]) && v[8..] == Crc.BitsOf(b[1..]);
      ByteInjective(a[0], b[0]);
      BitsOfInjective(a[1..], b[1..]);
      assert a == [a[0]] + a[1..] && b == [b[0]] + b[1..];
    }
  }
}
