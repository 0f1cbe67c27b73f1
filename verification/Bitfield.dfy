/**
Integers of 1 to 64 bits stored at arbitrary bit offsets of a string: reading, writing,
and the overflow rules of BITFIELD.

C's fixed-width integers are mathematical integers here: an unsigned 64-bit value is
reduced modulo 2^64 explicitly, and a conversion to signed is `Signed64`.
*/
module Bitfield {
  import opened Options
  import opened Words

  // ------------------------------------------------------------- the stored number

  // The number spelled by `bits` bits from `offset`, most significant first, in a string
  // read as if zero bytes followed it.
  function ValueAt(s: seq<Byte>, offset: nat, bits: nat): (v: nat)
    ensures v < Pow2(bits)
  {
    if bits == 0 then 0
    else 2 * ValueAt(s, offset, bits - 1) + (if BitOrZero(s, offset + bits - 1) then 1 else 0)
  }

  function Signed64(u: nat): int
    requires u < TWO64
  {
    if u >= TWO63 then u - TWO64 else u
  }

  function Unsigned64(v: int): (u: nat)
    ensures u < TWO64
  {
    v % TWO64
  }

  // A `bits`-wide number read as two's complement.
  function SignExtend(v: nat, bits: nat): int
    requires 1 <= bits && v < Pow2(bits)
  {
    if v >= Pow2(bits - 1) then v - Pow2(bits) else v
  }

  lemma {:induction false} ValueAtAgrees(s: seq<Byte>, t: seq<Byte>, o: nat, o': nat, bits: nat)
    requires forall k :: o <= k < o + bits ==> BitOrZero(s, k) == BitOrZero(t, k - o + o')
    ensures ValueAt(s, o, bits) == ValueAt(t, o', bits)
  {
    if bits > 0 {
      ValueAtAgrees(s, t, o, o', bits - 1);
      assert BitOrZero(s, o + bits - 1) == BitOrZero(t, o' + bits - 1);
    }
  }

  // ---------------------------------------------------------------------- reading

  method GetUnsignedBitfield(p: seq<Byte>, offset: nat, bits: nat) returns (value: nat)
    requires bits <= 64 && offset + bits <= 8 * |p|
    ensures value == ValueAt(p, offset, bits)
  {
    value := 0;
    for j := 0 to bits
      invariant value == ValueAt(p, offset, j)
    {
      var bitval := if BitAt(p, offset + j) then 1 else 0;
      value := (2 * value + bitval) % TWO64;
      NextValue(p, offset, j);
    }
  }

  lemma NextValue(p: seq<Byte>, offset: nat, j: nat)
    requires j < 64 && offset + j < 8 * |p|
    ensures (2 * ValueAt(p, offset, j) + (if BitAt(p, offset + j) then 1 else 0)) % TWO64
         == ValueAt(p, offset, j + 1)
  {
    Pow2Monotone(j + 1, 64);
    Pow2At64();
  }

  method GetSignedBitfield(p: seq<Byte>, offset: nat, bits: nat) returns (value: int)
    requires 1 <= bits <= 64 && offset + bits <= 8 * |p|
    ensures value == SignExtend(ValueAt(p, offset, bits), bits)
  {
    var u := GetUnsignedBitfield(p, offset, bits);
    Pow2At64();
    Pow2Monotone(bits, 64);
    value := Signed64(u);
    if bits < 64 {
      TopBit(u, bits);
      if (u / Pow2(bits - 1)) % 2 == 1 {
        value := Signed64(u + (TWO64 - Pow2(bits)));  // or in the ones above the field
      }
    }
  }

  lemma TopBit(u: nat, bits: nat)
    requires 1 <= bits < 64 && u < Pow2(bits)
    ensures ((u / Pow2(bits - 1)) % 2 == 1) == (u >= Pow2(bits - 1))
    ensures Pow2(bits) <= TWO63
  {
    Pow2Monotone(bits, 63);
    Pow2At64();
    var p := Pow2(bits - 1);
    if u >= p {
      DivUnique(u, p, 1, u - p);
    } else {
      DivUnique(u, p, 0, u);
    }
  }

  lemma DivUnique(a: int, d: int, q: int, r: int)
    requires d > 0 && a == q * d + r && 0 <= r < d
    ensures a / d == q && a % d == r
  {
    var q', r' := a / d, a % d;
    assert a == q' * d + r' && 0 <= r' < d;
    if q' < q {
      MulAtLeast(q - q', d);
    } else if q' > q {
      MulAtLeast(q' - q, d);
    }
  }

  lemma MulAtLeast(k: int, d: int)
    requires k >= 1 && d > 0
    ensures k * d >= d
  {}

  // BITFIELD GET copies up to nine bytes from the first byte touched into a zeroed buffer
  // and reads there: the answer is that of the zero-extended string.
  method GetThroughBuffer(src: seq<Byte>, offset: nat, bits: nat, signed: bool) returns (val: int)
    requires 1 <= bits <= 64
    ensures val == if signed then SignExtend(ValueAt(src, offset, bits), bits) else ValueAt(src, offset, bits)
  {
    var buf := new Byte[9](i => Zeros(8));
    var byte := offset / 8;
    var i := 0;
    while i < 9 && i + byte < |src|
      invariant i <= 9
      invariant forall k :: 0 <= k < 9 ==> buf[k] == if k < i then ByteOrZero(src, byte + k) else Zeros(8)
      invariant i == 0 || i + byte <= |src|
    {
      buf[i] := src[i + byte];
      i := i + 1;
    }
    var local := offset - byte * 8;
    forall k | offset <= k < offset + bits
      ensures BitOrZero(src, k) == BitOrZero(buf[..], k - offset + local)
    {
      assert (k - 8 * byte) / 8 == k / 8 - byte && (k - 8 * byte) % 8 == k % 8;
    }
    ValueAtAgrees(src, buf[..], offset, local, bits);
    if signed {
      val := GetSignedBitfield(buf[..], local, bits);
    } else {
      val := GetUnsignedBitfield(buf[..], local, bits);
    }
  }

  // ---------------------------------------------------------------------- writing

  // Only the bits of the field may differ.
  ghost predicate OutsideUnchanged(s: seq<Byte>, t: seq<Byte>, offset: nat, bits: nat) {
    && |s| == |t|
    && forall k :: 0 <= k < 8 * |s| && !(offset <= k < offset + bits) ==> BitAt(s, k) == BitAt(t, k)
  }

  method SetUnsignedBitfield(p: array<Byte>, offset: nat, bits: nat, value: nat)
    requires bits <= 64 && offset + bits <= 8 * p.Length && value < TWO64
    modifies p
    ensures ValueAt(p[..], offset, bits) == value % Pow2(bits)
    ensures OutsideUnchanged(old(p[..]), p[..], offset, bits)
  {
    for j := 0 to bits
      invariant ValueAt(p[..], offset, j) == TopBits(value, bits, j)
      invariant OutsideUnchanged(old(p[..]), p[..], offset, j)
    {
      var bitval := TestBit(value, bits - 1 - j);
      ghost var before := p[..];
      WriteBit(p, offset + j, bitval);
      FieldGrows(old(p[..]), before, p[..], offset, j, bitval);
    }
    TopBitsMod(value, bits, bits);
  }

  function WithBit(s: seq<Byte>, o: nat, v: bool): (t: seq<Byte>)
    requires o < 8 * |s|
    ensures |t| == |s|
  {
    s[o / 8 := s[o / 8][7 - o % 8 := v]]
  }

  method WriteBit(p: array<Byte>, o: nat, v: bool)
    requires o < 8 * p.Length
    modifies p
    ensures p[..] == WithBit(old(p[..]), o, v)
  {
    p[o / 8] := p[o / 8][7 - o % 8 := v];
  }

  // value & (1 << i)
  predicate TestBit(value: nat, i: nat) {
    if i == 0 then value % 2 == 1 else TestBit(value / 2, i - 1)
  }

  lemma {:induction false} TestBitDiv(value: nat, i: nat)
    ensures TestBit(value, i) == ((value / Pow2(i)) % 2 == 1)
  {
    if i > 0 {
      TestBitDiv(value / 2, i - 1);
      HalveFirst(value, Pow2(i - 1));
    }
  }

  lemma HalveFirst(v: nat, d: nat)
    requires d > 0
    ensures v / (2 * d) == v / 2 / d
  {
    var h := v / 2;
    var q, r := h / d, h % d;
    assert h == q * d + r && v == 2 * h + v % 2;
    Regroup2(q, d);
    DivUnique(v, 2 * d, q, 2 * r + v % 2);
  }

  // The number spelled by the top j of the low `bits` bits of the value.
  function TopBits(value: nat, bits: nat, j: nat): nat
    requires j <= bits
  {
    if j == 0 then 0 else 2 * TopBits(value, bits, j - 1) + (if TestBit(value, bits - j) then 1 else 0)
  }

  lemma {:induction false} TopBitsMod(value: nat, bits: nat, j: nat)
    requires j <= bits
    ensures TopBits(value, bits, j) == (value / Pow2(bits - j)) % Pow2(j)
    ensures j == bits ==> TopBits(value, bits, j) == value % Pow2(bits)
  {
    if j > 0 {
      TopBitsMod(value, bits, j - 1);
      TestBitDiv(value, bits - j);
      AppendBit(value, bits - j, j - 1);
    }
  }

  lemma FieldGrows(s0: seq<Byte>, s: seq<Byte>, t: seq<Byte>, offset: nat, j: nat, v: bool)
    requires offset + j < 8 * |s|
    requires t == WithBit(s, offset + j, v)
    requires OutsideUnchanged(s0, s, offset, j)
    ensures ValueAt(t, offset, j + 1) == 2 * ValueAt(s, offset, j) + (if v then 1 else 0)
    ensures OutsideUnchanged(s0, t, offset, j + 1)
  {
    WroteBit(s, t, offset + j, v);
    forall k | offset <= k < offset + j
      ensures BitOrZero(s, k) == BitOrZero(t, k - offset + offset)
    {
      assert BitAt(t, k) == BitAt(s, k);
    }
    ValueAtAgrees(s, t, offset, offset, j);
    assert BitAt(t, offset + j) == v;
  }

  lemma WroteBit(s: seq<Byte>, t: seq<Byte>, o: nat, v: bool)
    requires o < 8 * |s|
    requires t == WithBit(s, o, v)
    ensures forall k :: 0 <= k < 8 * |s| ==> BitAt(t, k) == if k == o then v else BitAt(s, k)
  {
    forall k | 0 <= k < 8 * |s|
      ensures BitAt(t, k) == if k == o then v else BitAt(s, k)
    {
      assert k / 8 == o / 8 && k % 8 == o % 8 ==> k == o;
    }
  }

  // Dropping one bit fewer and keeping one bit more appends the next lower bit.
  lemma AppendBit(value: nat, drop: nat, keep: nat)
    ensures (value / Pow2(drop)) % Pow2(keep + 1)
         == 2 * ((value / Pow2(drop + 1)) % Pow2(keep)) + (value / Pow2(drop)) % 2
  {
    var q, p := value / Pow2(drop), Pow2(keep);
    DivDiv(value, Pow2(drop));
    assert value / Pow2(drop + 1) == q / 2;
    var h := q / 2;
    DivUnique(q, 2 * p, h / p, 2 * (h % p) + q % 2) by {
      Regroup(q, h, p);
    }
  }

  lemma Regroup(q: nat, h: nat, p: nat)
    requires p > 0 && h == q / 2
    ensures q == (h / p) * (2 * p) + (2 * (h % p) + q % 2)
    ensures 2 * (h % p) + q % 2 < 2 * p
  {
    assert h == (h / p) * p + h % p;
    assert q == 2 * h + q % 2;
  }

  lemma DivDiv(v: nat, d: nat)
    requires d > 0
    ensures v / (2 * d) == v / d / 2
  {
    var q, r := v / d, v % d;
    DivUnique(v, 2 * d, q / 2, (q % 2) * d + r) by {
      assert v == q * d + r && q == 2 * (q / 2) + q % 2;
      assert q * d == (q / 2) * (2 * d) + (q % 2) * d;
    }
  }

  method SetSignedBitfield(p: array<Byte>, offset: nat, bits: nat, value: int)
    requires 1 <= bits <= 64 && offset + bits <= 8 * p.Length && -TWO63 <= value < TWO63
    modifies p
    ensures ValueAt(p[..], offset, bits) == value % Pow2(bits)
    ensures OutsideUnchanged(old(p[..]), p[..], offset, bits)
  {
    SetUnsignedBitfield(p, offset, bits, Unsigned64(value));
    ModOfMod(value, bits);
  }

  lemma ModOfMod(v: int, bits: nat)
    requires bits <= 64
    ensures (v % TWO64) % Pow2(bits) == v % Pow2(bits)
  {
    Pow2At64();
    Pow2Split(bits, 64);
    ModOfMultiple(v, Pow2(bits), Pow2(64 - bits));
  }

  lemma ModOfMultiple(v: int, p: nat, m: nat)
    requires p > 0 && m > 0 && p * m > 0
    ensures (v % (p * m)) % p == v % p
  {
    var n := p * m;
    var u, q := v % n, v / n;
    var c, r := u / p, u % p;
    assert v == q * n + u;
    assert u == c * p + r;
    Distribute(q, m, c, p);
    DivUnique(v, p, q * m + c, r);
  }

  lemma Distribute(q: int, m: int, c: int, p: int)
    ensures (q * m + c) * p == q * (p * m) + c * p
  {
    assert (q * m) * p == q * (m * p);
  }

  lemma {:induction false} Pow2Split(j: nat, k: nat)
    requires j <= k
    ensures Pow2(k) == Pow2(j) * Pow2(k - j)
    decreases k
  {
    if j < k {
      Pow2Split(j, k - 1);
    }
  }

  // --------------------------------------------------------------------- overflow

  datatype Policy = Wrap | Sat | Fail

  // The check's return code and what it stores through `limit`, if anything.
  datatype Verdict = Verdict(code: int, limit: Option<int>)

  predicate Int64(v: int) {
    -TWO63 <= v < TWO63
  }

  // The two tests of the unsigned check; the differences are converted to signed words.
  predicate SaysAbove(value: nat, incr: int, max: int) {
    var maxincr := Signed64(Unsigned64(max - value));
    value > max || (incr > 0 && incr > maxincr)
  }

  predicate SaysBelow(value: nat, incr: int) {
    var minincr := Signed64(Unsigned64(0 - value));
    incr < 0 && incr < minincr
  }

  // A width of 64 with Wrap would shift by the whole word, which C leaves undefined.
  function CheckUnsigned(value: nat, incr: int, bits: nat, ow: Policy): Verdict
    requires 1 <= bits <= (if ow.Wrap? then 63 else 64)
    requires value < TWO64 && Int64(incr)
  {
    var max := Pow2(bits) - 1;
    var wrapped := Unsigned64(value + incr) % Pow2(bits);
    if SaysAbove(value, incr, max) then
      match ow
      case Wrap => Verdict(1, Some(wrapped))
      case Sat => Verdict(1, Some(max))
      case Fail => Verdict(1, None)
    else if SaysBelow(value, incr) then
      match ow
      case Wrap => Verdict(1, Some(wrapped))
      case Sat => Verdict(-1, Some(0))
      case Fail => Verdict(-1, None)
    else
      Verdict(0, None)
  }

  // The two tests of the signed check.  Both differences are 64-bit and may wrap around.
  predicate SaysOver(value: int, incr: int, bits: nat, max: int) {
    var maxincr := Signed64(Unsigned64(max - value));
    value > max || (bits != 64 && incr > maxincr) || (value >= 0 && incr > 0 && incr > maxincr)
  }

  predicate SaysUnder(value: int, incr: int, bits: nat, min: int) {
    var minincr := Signed64(Unsigned64(min - value));
    value < min || (bits != 64 && incr < minincr) || (value < 0 && incr < 0 && incr < minincr)
  }

  function CheckSigned(value: int, incr: int, bits: nat, ow: Policy): Verdict
    requires 1 <= bits <= 64 && Int64(value) && Int64(incr)
  {
    var max := Pow2(bits - 1) - 1;
    var min := 0 - max - 1;
    if SaysOver(value, incr, bits, max) then
      match ow
      case Wrap => Verdict(1, Some(WrapSigned(value, incr, bits)))
      case Sat => Verdict(1, Some(max))
      case Fail => Verdict(1, None)
    else if SaysUnder(value, incr, bits, min) then
      match ow
      case Wrap => Verdict(1, Some(WrapSigned(value, incr, bits)))
      case Sat => Verdict(-1, Some(min))
      case Fail => Verdict(-1, None)
    else
      Verdict(0, None)
  }

  // Add as unsigned; then fill the bits above the field with the field's sign bit.
  function WrapSigned(value: int, incr: int, bits: nat): int
    requires 1 <= bits <= 64
  {
    var c := Unsigned64(Unsigned64(value) + Unsigned64(incr));
    if bits == 64 then Signed64(c)
    else
      FieldFits(bits);
      var low := c % Pow2(bits);
      if (c / Pow2(bits - 1)) % 2 == 1 then Signed64(low + (TWO64 - Pow2(bits))) else low
  }

  lemma FieldFits(bits: nat)
    requires bits < 64
    ensures Pow2(bits) <= TWO63
    ensures bits < 63 ==> Pow2(bits) <= TWO63 / 2
  {
    Pow2At64();
    if bits < 63 {
      Pow2Monotone(bits, 62);
    }
  }

  predicate InRange(v: int, bits: nat, signed: bool)
    requires 1 <= bits
  {
    if signed then 0 - Pow2(bits - 1) <= v < Pow2(bits - 1) else 0 <= v < Pow2(bits)
  }

  // The representable number congruent to v modulo 2^bits, and the one nearest to v.
  function Wrapped(v: int, bits: nat, signed: bool): int
    requires 1 <= bits
  {
    if signed then SignExtend(v % Pow2(bits), bits) else v % Pow2(bits)
  }

  function Clamped(v: int, bits: nat, signed: bool): int
    requires 1 <= bits
  {
    var max := if signed then Pow2(bits - 1) - 1 else Pow2(bits) - 1;
    var min := if signed then 0 - Pow2(bits - 1) else 0;
    if v > max then max else if v < min then min else v
  }

  // What a check on `sum` should answer.  Wrap reports 1 whichever way it overflowed.
  function RightVerdict(sum: int, bits: nat, signed: bool, ow: Policy): Verdict
    requires 1 <= bits
  {
    if InRange(sum, bits, signed) then Verdict(0, None)
    else
      var code := if sum < 0 && !ow.Wrap? then -1 else 1;
      match ow
      case Wrap => Verdict(code, Some(Wrapped(sum, bits, signed)))
      case Sat => Verdict(code, Some(Clamped(sum, bits, signed)))
      case Fail => Verdict(code, None)
  }

  // Every width BITFIELD accepts for unsigned fields (1 to 63), any stored value, any increment.
  lemma UnsignedExact(value: nat, incr: int, bits: nat, ow: Policy)
    requires 1 <= bits <= 63 && InRange(value, bits, false) && Int64(incr)
    requires value < TWO64
    ensures CheckUnsigned(value, incr, bits, ow) == RightVerdict(value + incr, bits, false, ow)
  {
    FieldFits(bits);
    UnsignedTestsExact(value, incr, Pow2(bits) - 1);
    ModOfMod(value + incr, bits);
  }

  lemma UnsignedTestsExact(value: nat, incr: int, max: int)
    requires value <= max < TWO63 && Int64(incr)
    ensures SaysAbove(value, incr, max) == (value + incr > max)
    ensures SaysBelow(value, incr) == (value + incr < 0)
  {}

  // Width 64, which the command refuses: the check errs exactly on increments of small
  // values and decrements of large ones.
  lemma UnsignedExactAt64(value: nat, incr: int, ow: Policy)
    requires !ow.Wrap? && value < TWO64 && Int64(incr)
    ensures (CheckUnsigned(value, incr, 64, ow) == RightVerdict(value + incr, 64, false, ow))
       <==> !(value < TWO63 && incr > 0) && !(value > TWO63 && incr < 0)
  {
    Pow2At64();
    TestsAt64(value, incr);
  }

  lemma TestsAt64(value: nat, incr: int)
    requires value < TWO64 && Int64(incr)
    ensures SaysAbove(value, incr, TWO64 - 1) == (incr > 0 && (value < TWO63 || value + incr >= TWO64))
    ensures SaysBelow(value, incr) == (incr < 0 && (value > TWO63 || value + incr < 0))
  {}

  lemma {:induction false} WrapSignedIsWrapped(value: int, incr: int, bits: nat)
    requires 1 <= bits <= 64
    ensures WrapSigned(value, incr, bits) == Wrapped(value + incr, bits, true)
  {
    var c := Unsigned64(Unsigned64(value) + Unsigned64(incr));
    assert c == (value + incr) % TWO64;
    ModOfMod(value + incr, bits);
    Pow2At64();
    if bits < 64 {
      FieldFits(bits);
      SignBit(c, bits);
    }
  }

  // The field's top bit tells the halves of its range apart.
  lemma SignBit(c: nat, bits: nat)
    requires 1 <= bits
    ensures ((c / Pow2(bits - 1)) % 2 == 1) == (c % Pow2(bits) >= Pow2(bits - 1))
  {
    var p := Pow2(bits - 1);
    var h, r := c / (2 * p), c % (2 * p);
    assert c == h * (2 * p) + r;
    Regroup2(h, p);
    if r < p {
      DivUnique(c, p, 2 * h, r);
    } else {
      DivUnique(c, p, 2 * h + 1, r - p);
    }
  }

  lemma Regroup2(h: int, p: int)
    ensures h * (2 * p) == (2 * h) * p && (2 * h + 1) * p == (2 * h) * p + p
  {}

  // Every width up to 64, any stored value, any increment.
  lemma SignedExact(value: int, incr: int, bits: nat, ow: Policy)
    requires 1 <= bits <= 64 && InRange(value, bits, true) && Int64(incr)
    requires Int64(value)
    ensures CheckSigned(value, incr, bits, ow) == RightVerdict(value + incr, bits, true, ow)
  {
    WrapSignedIsWrapped(value, incr, bits);
    if bits < 64 {
      FieldFits(bits - 1);
    } else {
      Pow2At64();
    }
    TestsExact(value, incr, bits, Pow2(bits - 1) - 1);
  }

  // At width 64 a difference that wraps is never consulted; below it none wraps.
  lemma TestsExact(value: int, incr: int, bits: nat, max: int)
    requires -max - 1 <= value <= max && Int64(incr)
    requires if bits == 64 then max == TWO63 - 1 else max < TWO63 / 2
    ensures SaysOver(value, incr, bits, max) == (value + incr > max)
    ensures SaysUnder(value, incr, bits, -max - 1) == (value + incr < -max - 1)
  {}

  // SET passes a value of any size with increment 0.  Saturation is right exactly when the
  // distance to the maximum still fits a signed word.
  lemma SetSaturatesExactly(value: int, bits: nat)
    requires 1 <= bits <= 64 && Int64(value)
    ensures (CheckSigned(value, 0, bits, Sat) == RightVerdict(value, bits, true, Sat))
       <==> (Pow2(bits - 1) - 1 - value < TWO63 || bits == 64)
  {
    if bits < 64 {
      FieldFits(bits - 1);
      TestsOnSet(value, bits, Pow2(bits - 1) - 1);
    } else {
      Pow2At64();
      TestsExact(value, 0, 64, TWO63 - 1);
    }
  }

  lemma TestsOnSet(value: int, bits: nat, max: int)
    requires Int64(value) && bits != 64 && 0 <= max < TWO63 / 2
    ensures SaysOver(value, 0, bits, max) == (value > max || max - value >= TWO63)
    ensures !SaysOver(value, 0, bits, max) ==> SaysUnder(value, 0, bits, -max - 1) == (value < -max - 1)
  {}

  lemma SetSaturatesWrongWay()
    ensures CheckSigned(-TWO63, 0, 8, Sat).limit == Some(127)
  {
    assert Pow2(7) == 128 by { assert Pow2(4) == 16; }
  }

  // ------------------------------------------------------------- BITFIELD INCRBY

  function Field(s: seq<Byte>, offset: nat, bits: nat, signed: bool): int
    requires 1 <= bits
  {
    var v := ValueAt(s, offset, bits);
    if signed then SignExtend(v, bits) else v
  }

  // What an increment leaves in the field when it stores anything.
  function Settled(sum: int, bits: nat, signed: bool, ow: Policy): int
    requires 1 <= bits
  {
    if ow.Wrap? then Wrapped(sum, bits, signed) else Clamped(sum, bits, signed)
  }

  lemma FixedInRange(v: int, bits: nat, signed: bool)
    requires 1 <= bits && InRange(v, bits, signed)
    ensures Wrapped(v, bits, signed) == v == Clamped(v, bits, signed)
  {
    if v >= 0 {
      DivUnique(v, Pow2(bits), 0, v);
    } else {
      DivUnique(v, Pow2(bits), -1, v + Pow2(bits));
    }
  }

  lemma FitsWord(v: int, bits: nat, signed: bool)
    requires 1 <= bits <= (if signed then 64 else 63)
    requires InRange(v, bits, signed)
    ensures Int64(v)
  {
    FieldFits(if signed then bits - 1 else bits);
  }

  lemma RangeFacts(v: int, bits: nat, signed: bool)
    requires 1 <= bits <= (if signed then 64 else 63)
    ensures InRange(v, bits, signed) ==> Wrapped(v, bits, signed) == v == Clamped(v, bits, signed) && Int64(v)
    ensures InRange(Settled(v, bits, signed, Wrap), bits, signed)
    ensures InRange(Settled(v, bits, signed, Sat), bits, signed)
  {
    if InRange(v, bits, signed) {
      FixedInRange(v, bits, signed);
      FitsWord(v, bits, signed);
    }
  }

  method IncrBy(p: array<Byte>, offset: nat, bits: nat, signed: bool, ow: Policy, incr: int)
      returns (reply: Option<int>)
    requires 1 <= bits <= (if signed then 64 else 63)
    requires offset + bits <= 8 * p.Length && Int64(incr)
    modifies p
    ensures var sum := old(Field(p[..], offset, bits, signed)) + incr;
            if ow.Fail? && !InRange(sum, bits, signed) then
              reply == None && p[..] == old(p[..])
            else
              && reply == Some(Settled(sum, bits, signed, ow))
              && Field(p[..], offset, bits, signed) == Settled(sum, bits, signed, ow)
              && OutsideUnchanged(old(p[..]), p[..], offset, bits)
  {
    if signed {
      var oldval := GetSignedBitfield(p[..], offset, bits);
      RangeFacts(oldval, bits, true);
      RangeFacts(oldval + incr, bits, true);
      SignedExact(oldval, incr, bits, ow);
      var verdict := CheckSigned(oldval, incr, bits, ow);
      if verdict.code != 0 && ow.Fail? {
        return None;
      }
      var newval := if verdict.code != 0 then verdict.limit.value else oldval + incr;
      RangeFacts(newval, bits, true);
      SetSignedBitfield(p, offset, bits, newval);
      reply := Some(newval);
    } else {
      var oldval := GetUnsignedBitfield(p[..], offset, bits);
      RangeFacts(oldval, bits, false);
      RangeFacts(oldval + incr, bits, false);
      UnsignedExact(oldval, incr, bits, ow);
      var verdict := CheckUnsigned(oldval, incr, bits, ow);
      if verdict.code != 0 && ow.Fail? {
        return None;
      }
      var newval := if verdict.code != 0 then verdict.limit.value else oldval + incr;
      RangeFacts(newval, bits, false);
      SetUnsignedBitfield(p, offset, bits, newval);
      reply := Some(newval);
    }
  }
}
