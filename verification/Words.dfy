/**
Machine words as sequences of their bits, least significant first, the numbers they
stand for, and the numbering of bits in a byte string.
*/
module Words {

  type Word = w: seq<bool> | |w| == 64 witness seq(64, i => false)
  type Byte = b: seq<bool> | |b| == 8 witness seq(8, i => false)

  function Zeros(n: nat): (z: seq<bool>)
    ensures |z| == n && forall i :: 0 <= i < n ==> !z[i]
  {
    seq(n, i => false)
  }

  function Pow2(k: nat): (p: nat)
    ensures p > 0
  {
    if k == 0 then 1 else 2 * Pow2(k - 1)
  }

  const TWO63: int := 0x8000_0000_0000_0000
  const TWO64: int := 0x1_0000_0000_0000_0000

  lemma {:induction false} Pow2Monotone(j: nat, k: nat)
    requires j <= k
    ensures Pow2(j) <= Pow2(k)
    decreases k - j
  {
    if j < k {
      Pow2Monotone(j, k - 1);
    }
  }

  lemma Pow2At64()
    ensures Pow2(63) == TWO63 && Pow2(64) == TWO64
  {
    Pow2Step8(0);
    Pow2Step8(8);
    Pow2Step8(16);
    Pow2Step8(24);
    Pow2Step8(32);
    Pow2Step8(40);
    Pow2Step8(48);
    Pow2Step8(56);
  }

  lemma Pow2Step8(k: nat)
    ensures Pow2(k + 8) == 256 * Pow2(k)
  {
    assert Pow2(k + 4) == 16 * Pow2(k) by { assert Pow2(k + 2) == 4 * Pow2(k); }
    assert Pow2(k + 8) == 16 * Pow2(k + 4) by { assert Pow2(k + 6) == 4 * Pow2(k + 4); }
  }

  // ------------------------------------------------------------- bits and numbers

  function Number(bits: seq<bool>): (n: nat)
    ensures n < Pow2(|bits|)
  {
    if bits == [] then 0 else (if bits[0] then 1 else 0) + 2 * Number(bits[1..])
  }

  function BitsOf(n: nat, len: nat): (bits: seq<bool>)
    ensures |bits| == len
  {
    if len == 0 then [] else [n % 2 == 1] + BitsOf(n / 2, len - 1)
  }

  lemma {:induction false} NumberRoundTrip(bits: seq<bool>)
    ensures BitsOf(Number(bits), |bits|) == bits
  {
    if bits != [] {
      NumberRoundTrip(bits[1..]);
      assert Number(bits) / 2 == Number(bits[1..]);
    }
  }

  // -------------------------------------------------------------- words and bytes

  // Byte i of a word, counted from the least significant.
  function ByteAt(w: Word, i: nat): Byte
    requires i < 8
  {
    w[8 * i..8 * i + 8]
  }

  function Flat(s: seq<Byte>): (w: seq<bool>)
    ensures |w| == 8 * |s|
  {
    if s == [] then [] else Flat(s[..|s| - 1]) + s[|s| - 1]
  }

  // The bytes loaded as one little-endian word, missing ones as zero.
  function Load(s: seq<Byte>): Word
    requires |s| <= 8
  {
    Flat(s) + Zeros(64 - 8 * |s|)
  }

  // --------------------------------------------------------- bits of a byte string

  // Bit k of a byte string: bit 0 is the most significant bit of the first byte.
  predicate BitAt(s: seq<Byte>, k: nat)
    requires k < 8 * |s|
  {
    s[k / 8][7 - k % 8]
  }

  // The same, in a string followed by zero bytes without end.
  function ByteOrZero(s: seq<Byte>, i: nat): Byte {
    if i < |s| then s[i] else Zeros(8)
  }

  predicate BitOrZero(s: seq<Byte>, k: nat) {
    ByteOrZero(s, k / 8)[7 - k % 8]
  }
}
