/**
What the checksum is and what it is good for: the remainder of the message, taken as a polynomial
over GF(2), in the division by the polynomial of the code; and no error confined to eight bytes
goes unnoticed.
*/
module CrcRemainder {
  import opened Words
  import opened Crc64

  // ----------------------------------------------------------------------- polynomials

  // A polynomial over GF(2) is the set of its exponents.
  type Poly = iset<nat>

  ghost function Plus(a: Poly, b: Poly): Poly {
    iset e: nat | (e in a) != (e in b)
  }

  ghost predicate Raised(a: Poly, k: nat, e: nat) {
    e >= k && e - k in a
  }

  ghost function TimesX(a: Poly): Poly {
    iset e: nat | Raised(a, 1, e)
  }

  // Multiplied by x to the 64th.
  ghost function Up(a: Poly): Poly {
    iset e: nat | Raised(a, 64, e)
  }

  ghost function Bit(b: bool, p: Poly): Poly {
    if b then p else iset{}
  }

  ghost function Of(w: Word): Poly {
    iset e: nat | e < 64 && w[e]
  }

  // The polynomial of the code: the word gives all coefficients but the first.
  ghost function Generator(): Poly {
    iset e: nat | e == 64 || (e < 64 && POLY[e])
  }

  // The message, first bit first.
  ghost function Message(bits: seq<bool>): Poly {
    if bits == [] then iset{} else Plus(TimesX(Message(bits[..|bits| - 1])), Bit(bits[|bits| - 1], iset{0}))
  }

  // A multiple of the generator; q is the quotient, first coefficient first.
  ghost function Multiple(q: seq<bool>): Poly {
    if q == [] then iset{} else Plus(TimesX(Multiple(q[..|q| - 1])), Bit(q[|q| - 1], Generator()))
  }

  // w is what is left of the message, moved up by 64, after taking away a multiple.
  ghost predicate Remainder(bits: seq<bool>, w: Word, q: seq<bool>) {
    |q| == |bits| && Plus(Up(Message(bits)), Of(w)) == Multiple(q)
  }

  // -------------------------------------------------------------- one bit of the division

  lemma StepDivides(m: Poly, crc: Word, bit: bool)
    ensures Plus(Up(Plus(TimesX(m), Bit(bit, iset{0}))), Of(BitStep(crc, bit))) ==
      Plus(TimesX(Plus(Up(m), Of(crc))), Bit(crc[63] != bit, Generator()))
  {
    hide POLY;
    var l := Plus(Up(Plus(TimesX(m), Bit(bit, iset{0}))), Of(BitStep(crc, bit)));
    var r := Plus(TimesX(Plus(Up(m), Of(crc))), Bit(crc[63] != bit, Generator()));
    forall e: nat ensures e in l <==> e in r {
      if e < 64 {
        assert BitStep(crc, bit)[e] == (Shl(crc, 1)[e] != (crc[63] != bit && POLY[e]));
      }
    }
  }

  lemma OneMoreBit(bits: seq<bool>, bit: bool, crc: Word, q: seq<bool>)
    requires Remainder(bits, crc, q)
    ensures Remainder(bits + [bit], BitStep(crc, bit), q + [crc[63] != bit])
  {
    var bits1, q1 := bits + [bit], q + [crc[63] != bit];
    assert bits1[..|bits1| - 1] == bits && q1[..|q1| - 1] == q;
    hide BitStep, Up, TimesX, Plus, Of, Generator, Bit;
    StepDivides(Message(bits), crc, bit);
  }

  // The bits of a message, least significant bit of each byte first.
  function BitsIn(s: seq<Byte>): seq<bool> {
    if s == [] then [] else BitsIn(s[..|s| - 1]) + s[|s| - 1]
  }

  lemma {:induction false} ByteDivides(bits: seq<bool>, crc: Word, c: Byte, k: nat, q: seq<bool>) returns (q1: seq<bool>)
    requires k <= 8 && Remainder(bits, crc, q)
    ensures Remainder(bits + c[..k], BitSteps(crc, c, k), q1)
  {
    hide Remainder, BitStep;
    if k == 0 {
      assert bits + c[..0] == bits;
      q1 := q;
    } else {
      var q0 := ByteDivides(bits, crc, c, k - 1, q);
      OneMoreBit(bits + c[..k - 1], c[k - 1], BitSteps(crc, c, k - 1), q0);
      q1 := q0 + [BitSteps(crc, c, k - 1)[63] != c[k - 1]];
      assert bits + c[..k - 1] + [c[k - 1]] == bits + c[..k];
    }
  }

  lemma {:induction false} BytesDivide(s: seq<Byte>) returns (q: seq<bool>)
    ensures Remainder(BitsIn(s), Bitwise(Zeros(64), s), q)
  {
    if s == [] {
      q := [];
      assert Plus(Up(iset{}), Of(Zeros(64))) == iset{};
    } else {
      var front, c := s[..|s| - 1], s[|s| - 1];
      var q0 := BytesDivide(front);
      hide Remainder;
      q := ByteDivides(BitsIn(front), Bitwise(Zeros(64), front), c, 8, q0);
      assert c[..8] == c;
    }
  }

  // ------------------------------------------------------------------ only one remainder

  function XorBits(a: seq<bool>, b: seq<bool>): seq<bool>
    requires |a| == |b|
  {
    seq(|a|, i requires 0 <= i < |a| => a[i] != b[i])
  }

  lemma {:induction false} MultiplesAdd(a: seq<bool>, b: seq<bool>)
    requires |a| == |b|
    ensures Plus(Multiple(a), Multiple(b)) == Multiple(XorBits(a, b))
  {
    hide Generator;
    if a == [] {
      assert Plus(iset{}, iset{}) == iset{};
    } else {
      var n := |a| - 1;
      MultiplesAdd(a[..n], b[..n]);
      assert XorBits(a, b)[..n] == XorBits(a[..n], b[..n]);
      assert XorBits(a, b)[n] == (a[n] != b[n]);
      PlusShift(Multiple(a[..n]), Multiple(b[..n]), a[n], b[n]);
    }
  }

  lemma PlusShift(a: Poly, b: Poly, x: bool, y: bool)
    ensures Plus(Plus(TimesX(a), Bit(x, Generator())), Plus(TimesX(b), Bit(y, Generator()))) ==
      Plus(TimesX(Plus(a, b)), Bit(x != y, Generator()))
  {
    hide Generator;
  }

  // A multiple that is not zero is of a greater degree than any remainder.
  lemma {:induction false} MultiplesAreHigh(q: seq<bool>)
    ensures Multiple(q) == iset{} || exists e :: e >= 64 && e in Multiple(q)
  {
    hide POLY;
    if q != [] {
      var front, last := q[..|q| - 1], q[|q| - 1];
      MultiplesAreHigh(front);
      if Multiple(front) != iset{} {
        var e :| e >= 64 && e in Multiple(front);
        assert e + 1 in TimesX(Multiple(front)) && e + 1 !in Generator();
        assert e + 1 in Multiple(q);
      } else {
        assert TimesX(iset{}) == iset{};
        if last {
          assert 64 in Multiple(q);
        }
      }
    }
  }

  lemma OneRemainder(bits: seq<bool>, a: Word, b: Word, p: seq<bool>, q: seq<bool>)
    requires Remainder(bits, a, p) && Remainder(bits, b, q)
    ensures a == b
  {
    MultiplesAdd(p, q);
    MultiplesAreHigh(XorBits(p, q));
    var d := Plus(Plus(Up(Message(bits)), Of(a)), Plus(Up(Message(bits)), Of(b)));
    hide Multiple, Message, Up;
    assert d == Plus(Of(a), Of(b));
    assert forall e :: e in d ==> e < 64;
    assert d == iset{};
    forall i | 0 <= i < 64 ensures a[i] == b[i] {
      assert i !in d;
    }
  }

  /** The bit-by-bit checksum is the remainder of the message in the division by the generator,
      and the only word that is. */
  lemma ChecksumIsRemainder(s: seq<Byte>, w: Word)
    ensures w == Bitwise(Zeros(64), s) <==> exists q :: Remainder(BitsIn(s), w, q)
  {
    var q := BytesDivide(s);
    hide Remainder;
    forall p | Remainder(BitsIn(s), w, p) ensures w == Bitwise(Zeros(64), s) {
      OneRemainder(BitsIn(s), w, Bitwise(Zeros(64), s), p, q);
    }
  }

  // ------------------------------------------------------------------- errors are noticed

  lemma FirstBit(n: nat, len: nat)
    requires len > 0
    ensures BitsOf(n, len)[0] == (n % 2 == 1)
  {
  }

  lemma LowBit()
    ensures POLY[0]
  {
    hide BitsOf;
    FirstBit(0xad93d23594c935a9, 64);
  }

  // Nothing is lost in a shift: the bit shifted out is the first bit of the result.
  lemma ShiftInjective(a: Word, b: Word)
    requires Shift(a) == Shift(b)
    ensures a == b
  {
    LowBit();
    hide POLY;
    assert Reflect64(POLY)[63];
    assert Shift(a)[63] == a[0] && Shift(b)[63] == b[0];
    forall i | 0 < i < 64 ensures a[i] == b[i] {
      assert Shr(a, 1)[i - 1] == a[i] && Shr(b, 1)[i - 1] == b[i];
      assert Shift(a)[i - 1] == Shift(b)[i - 1];
    }
  }

  lemma {:induction false} ShiftsInjective(a: Word, b: Word, n: nat)
    requires ShiftN(a, n) == ShiftN(b, n)
    ensures a == b
  {
    hide Shift;
    if n > 0 {
      ShiftInjective(ShiftN(a, n - 1), ShiftN(b, n - 1));
      ShiftsInjective(a, b, n - 1);
    }
  }

  lemma XorInjective(a: Word, b: Word, x: Word)
    requires Xor(a, x) == Xor(b, x)
    ensures a == b
  {
    forall i | 0 <= i < 64 ensures a[i] == b[i] {
      assert Xor(a, x)[i] == Xor(b, x)[i];
    }
  }

  // Different registers stay different, whatever follows.
  lemma {:induction false} FeedInjective(a: Word, b: Word, s: seq<Byte>)
    requires Crc(a, s) == Crc(b, s)
    ensures a == b
    decreases |s|
  {
    hide Xor, Shift;
    if s != [] {
      var front, c := s[..|s| - 1], s[|s| - 1];
      ShiftsInjective(Xor(Crc(a, front), Extend(c)), Xor(Crc(b, front), Extend(c)), 8);
      XorInjective(Crc(a, front), Crc(b, front), Extend(c));
      FeedInjective(a, b, front);
    }
  }

  lemma {:induction false} FlatInjective(s: seq<Byte>, t: seq<Byte>)
    requires |s| == |t| && Flat(s) == Flat(t)
    ensures s == t
  {
    if s != [] {
      var n := |s| - 1;
      assert Flat(s) == Flat(s[..n]) + s[n] && Flat(t) == Flat(t[..n]) + t[n];
      assert Flat(s[..n]) == Flat(s)[..8 * n] && Flat(t[..n]) == Flat(t)[..8 * n];
      assert s[n] == Flat(s)[8 * n..] && t[n] == Flat(t)[8 * n..];
      FlatInjective(s[..n], t[..n]);
    }
  }

  // Up to eight bytes: different bytes leave different registers.
  lemma WordNoticed(r: Word, s: seq<Byte>, t: seq<Byte>)
    requires |s| == |t| <= 8 && Crc(r, s) == Crc(r, t)
    ensures s == t
  {
    FeedWord(r, s);
    FeedWord(r, t);
    hide Crc, Shift;
    ShiftsInjective(Xor(r, Load(s)), Xor(r, Load(t)), 8 * |s|);
    forall i | 0 <= i < 64 ensures Load(s)[i] == Load(t)[i] {
      assert Xor(r, Load(s))[i] == Xor(r, Load(t))[i];
    }
    assert Flat(s) == Load(s)[..8 * |s|] && Flat(t) == Load(t)[..8 * |t|];
    FlatInjective(s, t);
  }

  /** Two messages that differ only within eight consecutive bytes have different checksums. */
  lemma BurstNoticed(r: Word, before: seq<Byte>, s: seq<Byte>, t: seq<Byte>, behind: seq<Byte>)
    requires |s| == |t| <= 8 && s != t
    ensures Crc(r, before + s + behind) != Crc(r, before + t + behind)
  {
    hide Crc;
    CrcConcat(r, before + s, behind);
    CrcConcat(r, before + t, behind);
    CrcConcat(r, before, s);
    CrcConcat(r, before, t);
    if Crc(r, before + s + behind) == Crc(r, before + t + behind) {
      FeedInjective(Crc(r, before + s), Crc(r, before + t), behind);
      WordNoticed(Crc(r, before), s, t);
    }
  }

  /** But from the initial value of zero, zeros in front of a message are not noticed. */
  lemma {:induction false} LeadingZeros(n: nat, s: seq<Byte>)
    ensures Crc(Zeros(64), seq(n, i => Zeros(8)) + s) == Crc(Zeros(64), s)
  {
    CrcConcat(Zeros(64), seq(n, i => Zeros(8)), s);
    OnlyZeros(n);
  }

  lemma {:induction false} OnlyZeros(n: nat)
    ensures Crc(Zeros(64), seq(n, i => Zeros(8))) == Zeros(64)
  {
    if n > 0 {
      var s := seq(n, i => Zeros(8));
      assert s[..n - 1] == seq(n - 1, i => Zeros(8));
      OnlyZeros(n - 1);
      assert Extend(Zeros(8)) == Zeros(64);
      XorZero(Zeros(64));
      ShiftLowZeros(Zeros(64), 8);
      assert Shr(Zeros(64), 8) == Zeros(64);
    }
  }
}
