/** Bytes, and the little-endian integers that memcr stores in headers, frames and pagemap entries. */
module Bytes {

  newtype Byte = x: int | 0 <= x < 256

  datatype Option<T> = None | Some(value: T)

  /** Exclusive or of the k low-order bits of a and b. */
  function XorBits(a: nat, b: nat, k: nat): (x: nat) {
    if k == 0 then 0 else (a + b) % 2 + 2 * XorBits(a / 2, b / 2, k - 1)
  }

  function Pow2(k: nat): (p: nat) {
    if k == 0 then 1 else 2 * Pow2(k - 1)
  }

  lemma LowBit(d: nat, y: nat)
    requires d < 2
    ensures (d + 2 * y) / 2 == y && (d + 2 * y) % 2 == d
  {
  }

  lemma ParityCancels(a: nat, b: nat, y: nat)
    ensures ((a + b) % 2 + 2 * y + b) % 2 == a % 2
  {
    assert (a + b) % 2 + b == a + 2 * b - 2 * ((a + b) / 2);
  }

  lemma {:induction false} XorBitsCancel(a: nat, b: nat, k: nat)
    requires a < Pow2(k)
    ensures XorBits(a, b, k) < Pow2(k)
    ensures XorBits(XorBits(a, b, k), b, k) == a
  {
    if k > 0 {
      var y := XorBits(a / 2, b / 2, k - 1);
      XorBitsCancel(a / 2, b / 2, k - 1);
      LowBit((a + b) % 2, y);
      ParityCancels(a, b, y);
    }
  }

  /** Exclusive or of two bytes. */
  function XorByte(a: Byte, b: Byte): (x: Byte)
    ensures XorBits(x as nat, b as nat, 8) == a as nat
  {
    assert Pow2(4) == 16 && Pow2(8) == 256;
    XorBitsCancel(a as nat, b as nat, 8);
    XorBits(a as nat, b as nat, 8) as Byte
  }

  /** 256 to the power k: one more than the largest integer that fits in k bytes. */
  function Pow256(k: nat): (p: nat)
    ensures p > 0
  {
    if k == 0 then 1 else 256 * Pow256(k - 1)
  }

  /** The k low-order bytes of n, least significant first. */
  function Le(n: nat, k: nat): (s: seq<Byte>)
    ensures |s| == k
  {
    if k == 0 then [] else [(n % 256) as Byte] + Le(n / 256, k - 1)
  }

  /** The integer stored little-endian in s. */
  function FromLe(s: seq<Byte>): (n: nat)
    ensures n < Pow256(|s|)
  {
    if s == [] then 0 else (s[0] as nat) + 256 * FromLe(s[1..])
  }

  lemma {:induction false} LeRoundTrip(n: nat, k: nat)
    requires n < Pow256(k)
    ensures FromLe(Le(n, k)) == n
  {
    if k > 0 {
      LeRoundTrip(n / 256, k - 1);
      assert Le(n, k)[1..] == Le(n / 256, k - 1);
    }
  }

  /** 8-byte words hold every 64-bit value. */
  lemma Pow256Values()
    ensures Pow256(4) == 0x1_0000_0000
    ensures Pow256(8) == 0x1_0000_0000_0000_0000
  {
    assert Pow256(2) == 0x1_0000;
    assert Pow256(4) == 0x1_0000_0000;
    assert Pow256(6) == 0x1_0000_0000_0000;
  }

  /** Two concatenations with equal first parts of equal length agree on both parts. */
  lemma SplitEqual<T>(a: seq<T>, b: seq<T>, c: seq<T>, d: seq<T>)
    requires a + b == c + d
    requires |a| == |c|
    ensures a == c && b == d
  {
    assert a == (a + b)[..|a|];
    assert b == (a + b)[|a|..];
    assert d == (c + d)[|c|..];
  }
}
