/**
Counting bits 28 bytes at a time.  Seven words are reduced in parallel, first within pairs of
bits, then within groups of four and of eight, and one multiplication adds the bytes up.
*/
module Popcount {

  // ------------------------------------------------------------------- bits of a number

  function Pop(w: nat): nat {
    if w == 0 then 0 else w % 2 + Pop(w / 2)
  }

  // Bitwise and.
  function And(x: nat, y: nat): nat {
    if x == 0 || y == 0 then 0 else (x % 2) * (y % 2) + 2 * And(x / 2, y / 2)
  }

  lemma AndUnfold(x: nat, y: nat)
    ensures And(x, y) == (x % 2) * (y % 2) + 2 * And(x / 2, y / 2)
  {
  }

  // One bit more on each side.
  lemma And2(x: nat, y: nat, r: nat, s: nat)
    requires r < 2 && s < 2
    ensures And(2 * x + r, 2 * y + s) == 2 * And(x, y) + r * s
  {
    AndUnfold(2 * x + r, 2 * y + s);
    assert (2 * x + r) / 2 == x && (2 * y + s) / 2 == y && (2 * x + r) % 2 == r && (2 * y + s) % 2 == s;
  }

  lemma And4(x: nat, y: nat, r: nat, s: nat)
    requires r < 4 && s < 4
    ensures And(4 * x + r, 4 * y + s) == 4 * And(x, y) + And(r, s)
  {
    hide And;
    And2(2 * x + r / 2, 2 * y + s / 2, r % 2, s % 2);
    And2(x, y, r / 2, s / 2);
    And2(r / 2, s / 2, r % 2, s % 2);
    And2(0, 0, r / 2, s / 2);
    assert And(0, 0) == 0 by { AndZero(); }
    assert 2 * (2 * x + r / 2) + r % 2 == 4 * x + r && 2 * (2 * y + s / 2) + s % 2 == 4 * y + s;
    assert 2 * (r / 2) + r % 2 == r && 2 * (s / 2) + s % 2 == s;
  }

  lemma AndZero()
    ensures And(0, 0) == 0
  {
  }

  // ----------------------------------------------------------------- masks and digits

  function Fives(k: nat): nat { if k == 0 then 0 else 1 + 4 * Fives(k - 1) }

  function Threes(k: nat): nat { if k == 0 then 0 else 3 + 16 * Threes(k - 1) }

  function Fs(k: nat): nat { if k == 0 then 0 else 15 + 256 * Fs(k - 1) }

  lemma Masks()
    ensures Fives(16) == 0x55555555 && Threes(8) == 0x33333333 && Fs(4) == 0x0F0F0F0F
  {
    assert Fives(4) == 0x55;
    assert Fives(8) == 0x5555;
    assert Fives(12) == 0x555555;
    assert Threes(4) == 0x3333;
  }

  // The sums of the digits, in groups of two, four and eight bits.
  function Sum4(x: nat, k: nat): nat { if k == 0 then 0 else x % 4 + Sum4(x / 4, k - 1) }

  function Sum16(x: nat, k: nat): nat { if k == 0 then 0 else x % 16 + Sum16(x / 16, k - 1) }

  function Sum256(x: nat, k: nat): nat { if k == 0 then 0 else x % 256 + Sum256(x / 256, k - 1) }

  // ----------------------------------------------------- step 1: w - ((w >> 1) & 0x5555..)

  // Every pair of bits holds its own count.
  function Pairs(w: nat, k: nat): nat {
    if k == 0 then 0 else (w % 4) / 2 + w % 2 + 4 * Pairs(w / 4, k - 1)
  }

  lemma SmallAnd(h: nat, r: nat)
    requires h < 2 && r < 2
    ensures And(h + 2 * r, 1) == h
  {
    AndUnfold(h + 2 * r, 1);
  }

  lemma {:induction false} HighBits(w: nat, k: nat)
    requires w < Top(k)
    ensures And(w / 2, Fives(k)) + Pairs(w, k) == w
    decreases k
  {
    if k > 0 {
      hide And;
      var rest := w / 4;
      HighBits(rest, k - 1);
      var h, r0 := (w % 4) / 2, rest % 2;
      assert w / 2 == 4 * (rest / 2) + (h + 2 * r0);
      And4(rest / 2, Fives(k - 1), h + 2 * r0, 1);
      SmallAnd(h, r0);
    }
  }

  // The first number that needs more than k pairs of bits.
  function Top(k: nat): nat { if k == 0 then 1 else 4 * Top(k - 1) }

  lemma PopPair(w: nat)
    ensures Pop(w) == (w % 4) / 2 + w % 2 + Pop(w / 4)
  {
    assert Pop(w) == w % 2 + Pop(w / 2);
    assert Pop(w / 2) == (w / 2) % 2 + Pop((w / 2) / 2);
    assert (w / 2) / 2 == w / 4 && (w / 2) % 2 == (w % 4) / 2;
  }

  lemma {:induction false} PairSums(w: nat, k: nat)
    requires w < Top(k)
    ensures Sum4(Pairs(w, k), k) == Pop(w)
    decreases k
  {
    if k > 0 {
      hide Pop;
      PairSums(w / 4, k - 1);
      PopPair(w);
      LastPair((w % 4) / 2 + w % 2, Pairs(w / 4, k - 1));
    } else {
      assert w == 0;
    }
  }

  lemma LastPair(p: nat, q: nat)
    requires p < 4
    ensures (p + 4 * q) % 4 == p && (p + 4 * q) / 4 == q
  {
  }

  // -------------------------------------- step 2: (x & 0x3333..) + ((x >> 2) & 0x3333..)

  // Every group of four bits holds the sum of its two pairs.
  function Nibbles(x: nat, k: nat): nat {
    if k == 0 then 0 else (x % 16) % 4 + (x % 16) / 4 + 16 * Nibbles(x / 16, k - 1)
  }

  lemma And16(x: nat, y: nat, r: nat, s: nat)
    requires r < 16 && s < 4
    ensures And(16 * x + r, 16 * y + s) == 16 * And(x, y) + And(r % 4, s)
  {
    hide And;
    And4(4 * x + r / 4, 4 * y, r % 4, s);
    And4(x, y, r / 4, 0);
    assert And(r / 4, 0) == 0 by { AndNothing(r / 4); }
    assert 4 * (4 * x + r / 4) + r % 4 == 16 * x + r;
  }

  lemma AndNothing(x: nat)
    ensures And(x, 0) == 0 && And(0, x) == 0
  {
  }

  lemma AndThree(r: nat)
    requires r < 4
    ensures And(r, 3) == r
  {
    AndUnfold(r, 3);
    AndUnfold(r / 2, 1);
  }

  lemma {:induction false} FoldNibbles(x: nat, k: nat)
    ensures And(x, Threes(k)) + And(x / 4, Threes(k)) == Nibbles(x, k)
    decreases k
  {
    hide And;
    if k == 0 {
      AndNothing(x);
      AndNothing(x / 4);
    } else {
      FoldNibbles(x / 16, k - 1);
      var r, q := x % 16, x / 16;
      And16(q, Threes(k - 1), r, 3);
      AndThree(r % 4);
      var r1 := r / 4 + 4 * (q % 4);
      assert x / 4 == 16 * (q / 4) + r1;
      And16(q / 4, Threes(k - 1), r1, 3);
      AndThree(r1 % 4);
      assert r1 % 4 == r / 4;
    }
  }

  // Every pair holds at most 2, every group of four at most 4, every byte at most 8.
  predicate Digits4(x: nat, k: nat) { if k == 0 then x == 0 else x % 4 <= 2 && Digits4(x / 4, k - 1) }

  predicate Digits16(x: nat, k: nat) { if k == 0 then x == 0 else x % 16 <= 4 && Digits16(x / 16, k - 1) }

  predicate Digits256(x: nat, k: nat) { if k == 0 then x == 0 else x % 256 <= 8 && Digits256(x / 256, k - 1) }

  lemma {:induction false} PairsSmall(w: nat, k: nat)
    ensures Digits4(Pairs(w, k), k)
  {
    if k > 0 {
      PairsSmall(w / 4, k - 1);
      LastPair((w % 4) / 2 + w % 2, Pairs(w / 4, k - 1));
    }
  }

  lemma LastNibble(p: nat, q: nat)
    requires p < 16
    ensures (p + 16 * q) % 16 == p && (p + 16 * q) / 16 == q
  {
  }

  lemma TwoPairs(x: nat)
    ensures x % 4 == (x % 16) % 4 && (x / 4) % 4 == (x % 16) / 4 && (x / 4) / 4 == x / 16
  {
    var q, r := x / 16, x % 16;
    var a, b := r % 4, r / 4;
    assert x == a + 4 * (b + 4 * q);
    LastPair(a, b + 4 * q);
    LastPair(b, q);
  }

  lemma {:induction false} NibblesOk(x: nat, k: nat)
    requires Digits4(x, 2 * k)
    ensures Digits16(Nibbles(x, k), k) && Sum16(Nibbles(x, k), k) == Sum4(x, 2 * k)
    decreases k
  {
    if k > 0 {
      TwoPairs(x);
      assert Digits4(x / 4, 2 * k - 1) && Digits4(x / 16, 2 * (k - 1));
      NibblesOk(x / 16, k - 1);
      assert Sum4(x, 2 * k) == x % 4 + Sum4(x / 4, 2 * k - 1);
      assert Sum4(x / 4, 2 * k - 1) == (x / 4) % 4 + Sum4(x / 16, 2 * (k - 1));
      LastNibble((x % 16) % 4 + (x % 16) / 4, Nibbles(x / 16, k - 1));
    }
  }

  // -------------------------------------------------- step 3: (x + (x >> 4)) & 0x0F0F..

  // Every byte holds the sum of its two halves.
  function Octets(x: nat, k: nat): nat {
    if k == 0 then 0 else (x % 256) % 16 + (x % 256) / 16 + 256 * Octets(x / 256, k - 1)
  }

  lemma And256(x: nat, y: nat, r: nat)
    requires r < 256
    ensures And(256 * x + r, 256 * y + 15) == 256 * And(x, y) + r % 16
  {
    hide And;
    var r1, r2, r3 := r / 4, r / 16, r / 64;
    And4(64 * x + r1, 64 * y + 3, r % 4, 3);
    AndThree(r % 4);
    And4(16 * x + r2, 16 * y, r1 % 4, 3);
    AndThree(r1 % 4);
    And4(4 * x + r3, 4 * y, r2 % 4, 0);
    AndNothing(r2 % 4);
    And4(x, y, r3, 0);
    AndNothing(r3);
    assert 4 * (64 * x + r1) + r % 4 == 256 * x + r && 4 * (16 * x + r2) + r1 % 4 == 64 * x + r1;
    assert 4 * (4 * x + r3) + r2 % 4 == 16 * x + r2 && 4 * x + r3 % 4 == 4 * x + r3;
    assert 4 * (r1 % 4) + r % 4 == r % 16;
  }

  lemma {:induction false} FoldOctets(x: nat, k: nat)
    requires Digits16(x, 2 * k)
    ensures And(x + x / 16, Fs(k)) == Octets(x, k)
    decreases k
  {
    hide And;
    if k == 0 {
      AndNothing(x + x / 16);
    } else {
      TwoNibbles(x);
      assert Digits16(x / 16, 2 * k - 1);
      var a, b, q := x % 16, (x / 16) % 16, x / 256;
      assert Digits16(q, 2 * (k - 1));
      FoldOctets(q, k - 1);
      assert q % 16 <= 4 by { if k == 1 { assert q == 0; } }
      NoCarry(x, a, b, q);
      And256(q + q / 16, Fs(k - 1), (a + b) + 16 * (b + q % 16));
    }
  }

  lemma TwoNibbles(x: nat)
    ensures x % 16 == (x % 256) % 16 && (x / 16) % 16 == (x % 256) / 16 && (x / 16) / 16 == x / 256
  {
    var q, r := x / 256, x % 256;
    var a, b := r % 16, r / 16;
    assert x == a + 16 * (b + 16 * q);
    LastNibble(a, b + 16 * q);
    LastNibble(b, q);
  }

  lemma NoCarry(x: nat, a: nat, b: nat, q: nat)
    requires x == a + 16 * b + 256 * q && a <= 4 && b <= 4 && q % 16 <= 4
    ensures x + x / 16 == 256 * (q + q / 16) + ((a + b) + 16 * (b + q % 16))
    ensures ((a + b) + 16 * (b + q % 16)) % 16 == a + b && (a + b) + 16 * (b + q % 16) < 256
  {
    assert x / 16 == b + 16 * q;
    assert q == 16 * (q / 16) + q % 16;
  }

  lemma LastOctet(p: nat, q: nat)
    requires p < 256
    ensures (p + 256 * q) % 256 == p && (p + 256 * q) / 256 == q
  {
  }

  lemma {:induction false} OctetsOk(x: nat, k: nat)
    requires Digits16(x, 2 * k)
    ensures Digits256(Octets(x, k), k) && Sum256(Octets(x, k), k) == Sum16(x, 2 * k)
    decreases k
  {
    if k > 0 {
      TwoNibbles(x);
      assert Digits16(x / 16, 2 * k - 1) && Digits16(x / 256, 2 * (k - 1));
      OctetsOk(x / 256, k - 1);
      assert Sum16(x, 2 * k) == x % 16 + Sum16(x / 16, 2 * k - 1);
      assert Sum16(x / 16, 2 * k - 1) == (x / 16) % 16 + Sum16(x / 256, 2 * (k - 1));
      LastOctet((x % 256) % 16 + (x % 256) / 16, Octets(x / 256, k - 1));
    }
  }

  // ------------------------------------------------------------------------- one word

  const WORD := 0x1_0000_0000

  // The three steps, as they are computed on 32-bit words.
  function Step1(w: nat): nat { (w - And(w / 2, 0x55555555)) % WORD }

  function Step2(x: nat): nat { (And(x, 0x33333333) + And(x / 4, 0x33333333)) % WORD }

  function Step3(x: nat): nat { And((x + x / 16) % WORD, 0x0F0F0F0F) }

  function Reduce(w: nat): nat { Step3(Step2(Step1(w))) }

  lemma Unwrapped(x: nat)
    requires x < WORD
    ensures x % WORD == x
  {
  }

  // Digits that are small make a small number.
  lemma {:induction false} SmallNibbles(x: nat, k: nat)
    requires Digits16(x, k)
    ensures 15 * x <= 4 * (Top(2 * k) - 1)
  {
    if k > 0 {
      SmallNibbles(x / 16, k - 1);
      assert Top(2 * k) == 4 * Top(2 * k - 1) == 16 * Top(2 * (k - 1));
      assert x == x % 16 + 16 * (x / 16);
    }
  }

  /** After the three steps every byte of the word holds the number of bits it had. */
  lemma BytesCount(w: nat)
    requires w < WORD
    ensures Digits256(Reduce(w), 4) && Sum256(Reduce(w), 4) == Pop(w)
  {
    hide And, Pop, Pairs, Nibbles, Octets, Sum4, Sum16, Sum256, Digits4, Digits16, Digits256, Fives, Threes, Fs, Top;
    Masks();
    Tops();
    HighBits(w, 16);
    var x1 := Pairs(w, 16);
    Unwrapped(x1);
    PairSums(w, 16);
    PairsSmall(w, 16);
    FoldNibbles(x1, 8);
    NibblesOk(x1, 8);
    var x2 := Nibbles(x1, 8);
    SmallNibbles(x2, 8);
    Unwrapped(x2);
    Unwrapped(x2 + x2 / 16);
    assert Step1(w) == x1 && Step2(x1) == x2;
    FoldOctets(x2, 4);
    OctetsOk(x2, 4);
  }

  lemma Tops()
    ensures Top(16) == WORD
  {
    assert Top(4) == 256;
    assert Top(8) == 65536;
    assert Top(12) == 65536 * 256;
  }

  // ---------------------------------------------------------------------- seven words

  // The product, cut to 32 bits, has the sum of the bytes on top.
  function TopByte(x: nat): nat {
    (x * 0x01010101) % WORD / 0x100_0000
  }

  lemma AddBytes(b0: nat, b1: nat, b2: nat, b3: nat)
    requires b0 + b1 + b2 + b3 < 256
    ensures TopByte(b0 + 256 * b1 + 65536 * b2 + 0x100_0000 * b3) == b0 + b1 + b2 + b3
  {
    var x := b0 + 256 * b1 + 65536 * b2 + 0x100_0000 * b3;
    var low := b0 + 256 * (b0 + b1) + 65536 * (b0 + b1 + b2);
    var high := b1 + b2 + b3 + 256 * (b2 + b3) + 65536 * b3;
    assert x * 0x01010101 == low + 0x100_0000 * (b0 + b1 + b2 + b3) + WORD * high;
    CutHigh(low + 0x100_0000 * (b0 + b1 + b2 + b3), high);
    CutLow(low, b0 + b1 + b2 + b3);
  }

  lemma CutHigh(t: nat, h: nat)
    requires t < WORD
    ensures (t + WORD * h) % WORD == t
  {
  }

  lemma CutLow(low: nat, s: nat)
    requires low < 0x100_0000
    ensures (low + 0x100_0000 * s) / 0x100_0000 == s
  {
  }

  // The four bytes of a word.
  function B0(x: nat): nat { x % 256 }
  function B1(x: nat): nat { x / 256 % 256 }
  function B2(x: nat): nat { x / 65536 % 256 }
  function B3(x: nat): nat { x / 0x100_0000 }

  lemma Decompose(x: nat)
    requires x < WORD
    ensures x == B0(x) + 256 * B1(x) + 65536 * B2(x) + 0x100_0000 * B3(x)
    ensures B0(x) < 256 && B1(x) < 256 && B2(x) < 256 && B3(x) < 256
  {
  }

  lemma Compose(x: nat, b0: nat, b1: nat, b2: nat, b3: nat)
    requires x == b0 + 256 * b1 + 65536 * b2 + 0x100_0000 * b3 && b0 < 256 && b1 < 256 && b2 < 256 && b3 < 256
    ensures x < WORD && B0(x) == b0 && B1(x) == b1 && B2(x) == b2 && B3(x) == b3
  {
    assert x / 256 == b1 + 256 * b2 + 65536 * b3;
    assert x / 65536 == b2 + 256 * b3;
  }

  // Bytes of at most m each.
  predicate BytesUpto(x: nat, m: nat) {
    x < WORD && B0(x) <= m && B1(x) <= m && B2(x) <= m && B3(x) <= m
  }

  function Bytes(x: nat): nat {
    B0(x) + B1(x) + B2(x) + B3(x)
  }

  lemma TopOfBytes(x: nat)
    requires BytesUpto(x, 56)
    ensures TopByte(x) == Bytes(x)
  {
    hide B0, B1, B2, B3, TopByte;
    Decompose(x);
    AddBytes(B0(x), B1(x), B2(x), B3(x));
  }

  lemma FourBytes(x: nat)
    requires Digits256(x, 4)
    ensures BytesUpto(x, 8) && Bytes(x) == Sum256(x, 4)
  {
    var x1, x2, x3 := x / 256, x / 65536, x / 0x100_0000;
    assert Digits256(x1, 3) && x1 / 256 == x2;
    assert Digits256(x2, 2) && x2 / 256 == x3;
    assert Digits256(x3, 1) && Digits256(x3 / 256, 0);
    assert Sum256(x, 4) == x % 256 + Sum256(x1, 3);
    assert Sum256(x1, 3) == x1 % 256 + Sum256(x2, 2);
    assert Sum256(x2, 2) == x2 % 256 + Sum256(x3, 1);
    assert Sum256(x3, 1) == x3 % 256 + Sum256(x3 / 256, 0);
  }

  // Bytes that stay small are added without carries.
  lemma AddTwo(x: nat, y: nat, m: nat, n: nat)
    requires BytesUpto(x, m) && BytesUpto(y, n) && m + n < 256
    ensures BytesUpto(x + y, m + n) && Bytes(x + y) == Bytes(x) + Bytes(y)
  {
    hide B0, B1, B2, B3;
    Decompose(x);
    Decompose(y);
    Compose(x + y, B0(x) + B0(y), B1(x) + B1(y), B2(x) + B2(y), B3(x) + B3(y));
  }

  lemma SevenSums(a: nat, b: nat, c: nat, d: nat, e: nat, f: nat, g: nat)
    requires BytesUpto(a, 8) && BytesUpto(b, 8) && BytesUpto(c, 8) && BytesUpto(d, 8) && BytesUpto(e, 8)
    requires BytesUpto(f, 8) && BytesUpto(g, 8)
    ensures TopByte(a + b + c + d + e + f + g) == Bytes(a) + Bytes(b) + Bytes(c) + Bytes(d) + Bytes(e) + Bytes(f) + Bytes(g)
  {
    hide BytesUpto, Bytes, TopByte;
    AddTwo(a, b, 8, 8);
    AddTwo(a + b, c, 16, 8);
    AddTwo(a + b + c, d, 24, 8);
    AddTwo(a + b + c + d, e, 32, 8);
    AddTwo(a + b + c + d + e, f, 40, 8);
    AddTwo(a + b + c + d + e + f, g, 48, 8);
    TopOfBytes(a + b + c + d + e + f + g);
  }

  /** Seven words at once: the top byte of the product counts all their bits. */
  lemma SevenWords(w: seq<nat>)
    requires |w| == 7 && forall i :: 0 <= i < 7 ==> w[i] < WORD
    ensures TopByte(Reduce(w[0]) + Reduce(w[1]) + Reduce(w[2]) + Reduce(w[3]) + Reduce(w[4]) + Reduce(w[5]) + Reduce(w[6]))
      == Pop(w[0]) + Pop(w[1]) + Pop(w[2]) + Pop(w[3]) + Pop(w[4]) + Pop(w[5]) + Pop(w[6])
  {
    hide *;
    forall i | 0 <= i < 7 ensures BytesUpto(Reduce(w[i]), 8) && Bytes(Reduce(w[i])) == Pop(w[i]) {
      ReduceOk(w[i]);
    }
    SevenSums(Reduce(w[0]), Reduce(w[1]), Reduce(w[2]), Reduce(w[3]), Reduce(w[4]), Reduce(w[5]), Reduce(w[6]));
  }

  lemma ReduceOk(w: nat)
    requires w < WORD
    ensures BytesUpto(Reduce(w), 8) && Bytes(Reduce(w)) == Pop(w)
  {
    BytesCount(w);
    FourBytes(Reduce(w));
  }

  // ------------------------------------------------------------------ the whole string

  type Byte = b: int | 0 <= b < 256

  // The bits of a string.
  function Count(s: seq<Byte>): nat {
    if s == [] then 0 else Count(s[..|s| - 1]) + Pop(s[|s| - 1])
  }

  lemma {:induction false} CountConcat(a: seq<Byte>, b: seq<Byte>)
    ensures Count(a + b) == Count(a) + Count(b)
    decreases |b|
  {
    if b == [] {
      assert a + b == a;
    } else {
      assert (a + b)[..|a + b| - 1] == a + b[..|b| - 1];
      CountConcat(a, b[..|b| - 1]);
    }
  }

  // Four bytes as a 32-bit number.
  function Load(s: seq<Byte>, p: nat): (w: nat)
    requires p + 4 <= |s|
    ensures w < WORD
  {
    var b0: int, b1: int, b2: int, b3: int := s[p], s[p + 1], s[p + 2], s[p + 3];
    b0 + 256 * b1 + 65536 * b2 + 0x100_0000 * b3
  }

  lemma PopHalf(x: nat, z: nat)
    ensures Pop(x + 2 * z) == x % 2 + Pop(x / 2 + z)
  {
    hide Pop;
    var y := x / 2 + z;
    assert x + 2 * z == x % 2 + 2 * y;
    PopUnfold(x % 2 + 2 * y);
    LastBit(x % 2, y);
  }

  lemma PopUnfold(w: nat)
    ensures Pop(w) == w % 2 + Pop(w / 2)
  {
  }

  lemma LastBit(p: nat, q: nat)
    requires p < 2
    ensures (p + 2 * q) % 2 == p && (p + 2 * q) / 2 == q
  {
  }

  lemma PopByte(x: nat, y: nat)
    requires x < 256
    ensures Pop(x + 256 * y) == Pop(x) + Pop(y)
  {
    hide Pop;
    var x1 := x / 2;
    var x2 := x1 / 2;
    var x3 := x2 / 2;
    PopHalf(x, 128 * y);
    PopHalf(x1, 64 * y);
    PopHalf(x2, 32 * y);
    PopHalf(x, 0);
    PopHalf(x1, 0);
    PopHalf(x2, 0);
    PopFive(x3, y);
  }

  lemma PopFive(x: nat, y: nat)
    requires x < 32
    ensures Pop(x + 32 * y) == Pop(x) + Pop(y)
  {
    hide Pop;
    var x1 := x / 2;
    var x2 := x1 / 2;
    var x3 := x2 / 2;
    var x4 := x3 / 2;
    PopHalf(x, 16 * y);
    PopHalf(x1, 8 * y);
    PopHalf(x2, 4 * y);
    PopHalf(x3, 2 * y);
    PopHalf(x4, y);
    PopHalf(x, 0);
    PopHalf(x1, 0);
    PopHalf(x2, 0);
    PopHalf(x3, 0);
    PopHalf(x4, 0);
    assert Pop(0) == 0 by { PopZero(); }
  }

  lemma PopZero()
    ensures Pop(0) == 0
  {
  }

  lemma CountSnoc(s: seq<Byte>, b: Byte)
    ensures Count(s + [b]) == Count(s) + Pop(b)
  {
    hide Pop;
    assert (s + [b])[..|s|] == s;
  }

  lemma PopLoad(b0: nat, b1: nat, b2: nat, b3: nat)
    requires b0 < 256 && b1 < 256 && b2 < 256
    ensures Pop(b0 + 256 * b1 + 65536 * b2 + 0x100_0000 * b3) == Pop(b0) + Pop(b1) + Pop(b2) + Pop(b3)
  {
    hide Pop;
    PopByte(b0, b1 + 256 * b2 + 65536 * b3);
    PopByte(b1, b2 + 256 * b3);
    PopByte(b2, b3);
    assert b0 + 256 * (b1 + 256 * b2 + 65536 * b3) == b0 + 256 * b1 + 65536 * b2 + 0x100_0000 * b3;
    assert b1 + 256 * (b2 + 256 * b3) == b1 + 256 * b2 + 65536 * b3;
  }

  lemma CountFour(b0: Byte, b1: Byte, b2: Byte, b3: Byte)
    ensures Count([b0, b1, b2, b3]) == Pop(b0) + Pop(b1) + Pop(b2) + Pop(b3)
  {
    hide Pop, Count;
    CountSnoc([], b0);
    CountSnoc([b0], b1);
    CountSnoc([b0, b1], b2);
    CountSnoc([b0, b1, b2], b3);
    assert [] + [b0] == [b0] && [b0] + [b1] == [b0, b1];
    assert [b0, b1] + [b2] == [b0, b1, b2] && [b0, b1, b2] + [b3] == [b0, b1, b2, b3];
    CountNone();
  }

  lemma LoadCounts(s: seq<Byte>, p: nat)
    requires p + 4 <= |s|
    ensures Pop(Load(s, p)) == Count(s[p..p + 4])
  {
    hide Pop, Count;
    PopLoad(s[p], s[p + 1], s[p + 2], s[p + 3]);
    CountFour(s[p], s[p + 1], s[p + 2], s[p + 3]);
    assert s[p..p + 4] == [s[p], s[p + 1], s[p + 2], s[p + 3]];
  }

  lemma CountNone()
    ensures Count([]) == 0
  {
  }

  lemma BlockCounts(s: seq<Byte>, p: nat)
    requires p + 28 <= |s|
    ensures Count(s[..p + 28]) == Count(s[..p]) + Pop(Load(s, p)) + Pop(Load(s, p + 4)) + Pop(Load(s, p + 8))
      + Pop(Load(s, p + 12)) + Pop(Load(s, p + 16)) + Pop(Load(s, p + 20)) + Pop(Load(s, p + 24))
  {
    hide Pop, Load, Count;
    More(s, p);
    More(s, p + 4);
    More(s, p + 8);
    More(s, p + 12);
    More(s, p + 16);
    More(s, p + 20);
    More(s, p + 24);
  }

  lemma More(s: seq<Byte>, p: nat)
    requires p + 4 <= |s|
    ensures Count(s[..p + 4]) == Count(s[..p]) + Pop(Load(s, p))
  {
    hide Pop, Load;
    LoadCounts(s, p);
    assert s[..p + 4] == s[..p] + s[p..p + 4];
    CountConcat(s[..p], s[p..p + 4]);
  }

  /** The count, wherever the string starts in memory. */
  method RedisPopcount(s: seq<Byte>, address: nat) returns (bits: nat)
    ensures bits == Count(s)
  {
    hide Pop, Load, Reduce, TopByte;
    bits := 0;
    var p: nat := 0;
    assert s[..0] == [];
    while (address + p) % 4 != 0 && p < |s|
      invariant p <= |s| && bits == Count(s[..p])
      decreases |s| - p
    {
      assert s[..p + 1][..p] == s[..p];
      bits := bits + Pop(s[p]);
      p := p + 1;
    }
    while |s| - p >= 28
      invariant p <= |s| && bits == Count(s[..p])
    {
      BlockCounts(s, p);
      var w := [Load(s, p), Load(s, p + 4), Load(s, p + 8), Load(s, p + 12), Load(s, p + 16), Load(s, p + 20), Load(s, p + 24)];
      SevenWords(w);
      bits := bits + TopByte(Reduce(w[0]) + Reduce(w[1]) + Reduce(w[2]) + Reduce(w[3])
                             + Reduce(w[4]) + Reduce(w[5]) + Reduce(w[6]));
      p := p + 28;
    }
    while p < |s|
      invariant p <= |s| && bits == Count(s[..p])
    {
      assert s[..p + 1][..p] == s[..p];
      bits := bits + Pop(s[p]);
      p := p + 1;
    }
    assert s[..p] == s;
  }
}
