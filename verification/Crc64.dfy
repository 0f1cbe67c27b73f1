/**
CRC-64 with polynomial 0xad93d23594c935a9, reflected input and output.

`Crc64Reference` is the bit-at-a-time loop: the register shifts left and the result
is bit-reversed at the end.  `CrcSpeed64Little` and `CrcSpeed64Big` consume eight
bytes per iteration through tables filled by `InitLittle` and `InitBig`.

A 64-bit word is the sequence of its bits, least significant first.  All three
computations are tied to one function, `Crc`, over the *reflected* register: feeding
a byte xors it into the low end and then shifts right eight times.  The shift is
linear over GF(2); every proof rests on that and none on the polynomial's value.
*/
module Crc64 {
  import opened Words

  // ------------------------------------------------------------- words and bytes

  const POLY: Word := BitsOf(0xad93d23594c935a9, 64)

  function Xor(a: Word, b: Word): Word {
    seq(64, i requires 0 <= i < 64 => a[i] != b[i])
  }

  function Shr(a: Word, k: nat): Word
    requires k <= 64
  {
    a[k..] + Zeros(k)
  }

  function Shl(a: Word, k: nat): Word
    requires k <= 64
  {
    Zeros(k) + a[..64 - k]
  }

  function Extend(b: Byte): Word {
    b + Zeros(56)
  }

  function Reflect64(w: Word): Word {
    seq(64, i requires 0 <= i < 64 => w[63 - i])
  }

  // The word with its eight bytes in the opposite order.
  function Rev8(w: Word): Word {
    seq(64, i requires 0 <= i < 64 => w[8 * (7 - i / 8) + i % 8])
  }

  lemma XorZero(a: Word)
    ensures Xor(a, Zeros(64)) == a && Xor(Zeros(64), a) == a
  {}

  lemma Rev8Involutive(a: Word)
    ensures Rev8(Rev8(a)) == a
  {
    forall i | 0 <= i < 64
      ensures Rev8(Rev8(a))[i] == a[i]
    {
      var j := 8 * (7 - i / 8) + i % 8;
      assert 0 <= j < 64 && j / 8 == 7 - i / 8 && j % 8 == i % 8;
    }
  }

  lemma Rev8Xor(a: Word, b: Word)
    ensures Rev8(Xor(a, b)) == Xor(Rev8(a), Rev8(b))
  {}

  lemma Rev8Byte(w: Word, i: nat)
    requires i < 8
    ensures ByteAt(Rev8(w), i) == ByteAt(w, 7 - i)
  {
    forall j | 0 <= j < 8
      ensures ByteAt(Rev8(w), i)[j] == ByteAt(w, 7 - i)[j]
    {
      assert (8 * i + j) / 8 == i && (8 * i + j) % 8 == j;
    }
  }

  method CrcReflect(word: Word) returns (ret: Word)
    ensures ret == Reflect64(word)
  {
    var data := word;
    ret := [data[0]] + Zeros(63);
    for i := 1 to 64
      invariant data == Shr(word, i - 1)
      invariant forall j :: 0 <= j < 64 ==> ret[j] == (j < i && word[i - 1 - j])
    {
      data := Shr(data, 1);
      ret := [data[0]] + ret[..63];
    }
  }

  // -------------------------------------------------- the reflected shift register

  // Feed a zero bit to the reflected register.
  function Shift(r: Word): Word {
    if r[0] then Xor(Shr(r, 1), Reflect64(POLY)) else Shr(r, 1)
  }

  function Iterate<T>(f: T -> T, x: T, n: nat): T {
    if n == 0 then x else f(Iterate(f, x, n - 1))
  }

  lemma {:induction false} IterateAdd<T>(f: T -> T, x: T, m: nat, n: nat)
    ensures Iterate(f, Iterate(f, x, m), n) == Iterate(f, x, m + n)
  {
    if n > 0 {
      IterateAdd(f, x, m, n - 1);
    }
  }

  lemma {:induction false} IterateLinear<T>(f: T -> T, op: (T, T) -> T, a: T, b: T, n: nat)
    requires forall x, y :: f(op(x, y)) == op(f(x), f(y))
    ensures Iterate(f, op(a, b), n) == op(Iterate(f, a, n), Iterate(f, b, n))
  {
    if n > 0 {
      IterateLinear(f, op, a, b, n - 1);
    }
  }

  function ShiftN(r: Word, n: nat): Word {
    Iterate(Shift, r, n)
  }

  lemma ShiftLinear(a: Word, b: Word)
    ensures Shift(Xor(a, b)) == Xor(Shift(a), Shift(b))
  {}

  lemma ShiftNLinear(a: Word, b: Word, n: nat)
    ensures ShiftN(Xor(a, b), n) == Xor(ShiftN(a, n), ShiftN(b, n))
  {
    forall x: Word, y: Word
      ensures Shift(Xor(x, y)) == Xor(Shift(x), Shift(y))
    {
      ShiftLinear(x, y);
    }
    IterateLinear(Shift, Xor, a, b, n);
  }

  lemma ShiftNAdd(r: Word, m: nat, n: nat)
    ensures ShiftN(ShiftN(r, m), n) == ShiftN(r, m + n)
  {
    IterateAdd(Shift, r, m, n);
  }

  // Low zero bits are shifted out without meeting the polynomial.
  lemma {:induction false} ShiftLowZeros(r: Word, n: nat)
    requires n <= 64
    requires forall i :: 0 <= i < n ==> !r[i]
    ensures ShiftN(r, n) == Shr(r, n)
  {
    if n > 0 {
      ShiftLowZeros(r, n - 1);
      assert Shr(Shr(r, n - 1), 1) == Shr(r, n);
    } else {
      assert Shr(r, 0) == r;
    }
  }

  // Feed one data byte, and a whole byte string.
  function FeedByte(r: Word, c: Byte): Word {
    ShiftN(Xor(r, Extend(c)), 8)
  }

  function Crc(r: Word, s: seq<Byte>): Word {
    if s == [] then r else FeedByte(Crc(r, s[..|s| - 1]), s[|s| - 1])
  }

  // The checksum of a concatenation is the composition of the checksums.
  lemma {:induction false} CrcConcat(r: Word, s: seq<Byte>, t: seq<Byte>)
    ensures Crc(r, s + t) == Crc(Crc(r, s), t)
    decreases |t|
  {
    if t == [] {
      assert s + t == s;
    } else {
      assert (s + t)[..|s + t| - 1] == s + t[..|t| - 1];
      CrcConcat(r, s, t[..|t| - 1]);
    }
  }

  lemma CrcPrefix(r: Word, s: seq<Byte>, i: nat)
    requires i < |s|
    ensures Crc(r, s[..i + 1]) == FeedByte(Crc(r, s[..i]), s[i])
  {
    assert s[..i + 1][..i] == s[..i];
  }

  // -------------------------------------------------- the bit-at-a-time reference

  function BitStep(crc: Word, bit: bool): Word {
    if crc[63] != bit then Xor(Shl(crc, 1), POLY) else Shl(crc, 1)
  }

  // The first k bits of c, least significant first.
  function BitSteps(crc: Word, c: Byte, k: nat): Word
    requires k <= 8
  {
    if k == 0 then crc else BitStep(BitSteps(crc, c, k - 1), c[k - 1])
  }

  function Bitwise(crc: Word, s: seq<Byte>): Word {
    if s == [] then crc else BitSteps(Bitwise(crc, s[..|s| - 1]), s[|s| - 1], 8)
  }

  method Crc64Reference(crc0: Word, data: seq<Byte>) returns (r: Word)
    ensures r == Reflect64(Bitwise(crc0, data))
  {
    var crc := crc0;
    for offset := 0 to |data|
      invariant crc == Bitwise(crc0, data[..offset])
    {
      crc := ReferenceByte(crc, data[offset]);
      assert data[..offset + 1][..offset] == data[..offset];
    }
    assert data[..|data|] == data;
    r := CrcReflect(crc);
  }

  // The inner loop, over the mask 1 << i.
  method ReferenceByte(start: Word, c: Byte) returns (crc: Word)
    ensures crc == BitSteps(start, c, 8)
  {
    crc := start;
    for i := 0 to 8
      invariant crc == BitSteps(start, c, i)
    {
      var bit := crc[63];
      if c[i] {
        bit := !bit;
      }
      crc := Shl(crc, 1);
      if bit {
        crc := Xor(crc, POLY);
      }
    }
  }

  // A left shift of the register is a right shift of its reflection.
  lemma ReflectStep(crc: Word, bit: bool)
    ensures Reflect64(BitStep(crc, bit)) == Shift(Xor(Reflect64(crc), [bit] + Zeros(63)))
  {
    var x := Xor(Reflect64(crc), [bit] + Zeros(63));
    assert x[0] == (crc[63] != bit);
    ReflectShl(crc, x);
    if x[0] {
      ReflectXor(Shl(crc, 1), POLY);
    }
  }

  lemma ReflectShl(crc: Word, x: Word)
    requires forall i :: 1 <= i < 64 ==> x[i] == crc[63 - i]
    ensures Reflect64(Shl(crc, 1)) == Shr(x, 1)
  {}

  lemma ReflectXor(a: Word, b: Word)
    ensures Reflect64(Xor(a, b)) == Xor(Reflect64(a), Reflect64(b))
  {}

  // Bits waiting above the consumed one ride along through a shift.
  lemma PassThrough(a: Word, rest: Word)
    ensures Shift(Xor(Xor(a, rest), [rest[0]] + Zeros(63))) == Xor(Shift(a), Shr(rest, 1))
  {}

  lemma {:induction false} FeedBits(crc: Word, c: Byte, k: nat)
    requires k <= 8
    ensures Reflect64(BitSteps(crc, c, k))
         == Xor(ShiftN(Xor(Reflect64(crc), Extend(c)), k), Shr(Extend(c), k))
  {
    var x := Xor(Reflect64(crc), Extend(c));
    if k == 0 {
      assert Xor(x, Shr(Extend(c), 0)) == Reflect64(crc);
    } else {
      FeedBits(crc, c, k - 1);
      ReflectStep(BitSteps(crc, c, k - 1), c[k - 1]);
      PassThrough(ShiftN(x, k - 1), Shr(Extend(c), k - 1));
      assert Shr(Shr(Extend(c), k - 1), 1) == Shr(Extend(c), k);
    }
  }

  // The bit-at-a-time register, reflected, is `Crc`'s register.
  lemma {:induction false} BitwiseIsCrc(crc: Word, s: seq<Byte>)
    ensures Reflect64(Bitwise(crc, s)) == Crc(Reflect64(crc), s)
  {
    if s != [] {
      var t := s[..|s| - 1];
      var c := s[|s| - 1];
      BitwiseIsCrc(crc, t);
      FeedBits(Bitwise(crc, t), c, 8);
      assert Shr(Extend(c), 8) == Zeros(64);
      XorZero(FeedByte(Crc(Reflect64(crc), t), c));
    }
  }

  // ---------------------------------------------------------------- lookup tables

  // What entry n of table k holds: the byte n followed by k + 1 bytes of shifting.
  function Entry(k: nat, c: Byte): Word {
    ShiftN(Extend(c), 8 * (k + 1))
  }

  // A byte of shifting is one lookup in table 0.
  lemma LookupStep(r: Word)
    ensures ShiftN(r, 8) == Xor(Entry(0, ByteAt(r, 0)), Shr(r, 8))
  {
    var low := Extend(ByteAt(r, 0));
    var high := Zeros(8) + r[8..];
    assert r == Xor(low, high);
    ShiftNLinear(low, high, 8);
    ShiftLowZeros(high, 8);
    assert Shr(high, 8) == Shr(r, 8);
  }

  lemma NextEntry(k: nat, c: Byte)
    ensures Entry(k + 1, c) == Xor(Entry(0, ByteAt(Entry(k, c), 0)), Shr(Entry(k, c), 8))
  {
    ShiftNAdd(Extend(c), 8 * (k + 1), 8);
    LookupStep(Entry(k, c));
  }

  // Feeding a byte through table 0, as the unaligned head and tail loops do.
  lemma FeedByLookup(r: Word, c: Byte)
    ensures FeedByte(r, c) == Xor(Entry(0, ByteAt(Xor(r, Extend(c)), 0)), Shr(r, 8))
  {
    LookupStep(Xor(r, Extend(c)));
    assert Shr(Xor(r, Extend(c)), 8) == Shr(r, 8);
  }

  // ------------------------------------------------------------ eight bytes at once

  // Byte c placed as byte i of an otherwise clear word.
  function Lane(c: Byte, i: nat): Word
    requires i < 8
  {
    Zeros(8 * i) + c + Zeros(56 - 8 * i)
  }

  lemma LaneShifts(c: Byte, i: nat)
    requires i < 8
    ensures ShiftN(Lane(c, i), 8 * i) == Extend(c)
    ensures ShiftN(Lane(c, i), 64) == Entry(7 - i, c)
  {
    ShiftLowZeros(Lane(c, i), 8 * i);
    assert Shr(Lane(c, i), 8 * i) == Extend(c);
    ShiftNAdd(Lane(c, i), 8 * i, 64 - 8 * i);
  }

  // Feeding up to eight bytes one by one is shifting out their word.
  lemma {:induction false} FeedWord(r: Word, s: seq<Byte>)
    requires |s| <= 8
    ensures Crc(r, s) == ShiftN(Xor(r, Load(s)), 8 * |s|)
  {
    if s == [] {
      assert Load(s) == Zeros(64);
      XorZero(r);
    } else {
      var j := |s| - 1;
      var t, c := s[..j], s[j];
      FeedWord(r, t);
      LaneShifts(c, j);
      ShiftNLinear(Xor(r, Load(t)), Lane(c, j), 8 * j);
      assert Xor(Xor(r, Load(t)), Lane(c, j)) == Xor(r, Load(s));
      ShiftNAdd(Xor(r, Load(s)), 8 * j, 8);
    }
  }

  // The first j lookups of the slice-by-8 sum.
  function Slices(x: Word, j: nat): Word
    requires j <= 8
  {
    if j == 0 then Zeros(64) else Xor(Slices(x, j - 1), Entry(8 - j, ByteAt(x, j - 1)))
  }

  lemma LaneAdded(x: Word, j: nat)
    requires j < 8
    ensures x[..8 * j + 8] + Zeros(56 - 8 * j) == Xor(x[..8 * j] + Zeros(64 - 8 * j), Lane(ByteAt(x, j), j))
  {}

  lemma {:induction false} SlicesShift(x: Word, j: nat)
    requires j <= 8
    ensures ShiftN(x[..8 * j] + Zeros(64 - 8 * j), 64) == Slices(x, j)
  {
    hide Entry;
    hide Shift;
    hide Lane;
    hide Xor;
    var low := x[..8 * j] + Zeros(64 - 8 * j);
    if j == 0 {
      ShiftLowZeros(low, 64);
      assert low == Zeros(64) == Shr(low, 64);
    } else {
      var lower := x[..8 * (j - 1)] + Zeros(64 - 8 * (j - 1));
      var lane := Lane(ByteAt(x, j - 1), j - 1);
      SlicesShift(x, j - 1);
      LaneAdded(x, j - 1);
      ShiftNLinear(lower, lane, 64);
      LaneShifts(ByteAt(x, j - 1), j - 1);
    }
  }

  function Xor8(e0: Word, e1: Word, e2: Word, e3: Word, e4: Word, e5: Word, e6: Word, e7: Word): Word {
    Xor(Xor(Xor(Xor(Xor(Xor(Xor(e0, e1), e2), e3), e4), e5), e6), e7)
  }

  // Eight lookups on the register xored with a word feed that word's eight bytes.
  lemma FeedBySlices(r: Word, s: seq<Byte>)
    requires |s| == 8
    ensures var x := Xor(r, Load(s));
            Crc(r, s) == Xor8(Entry(7, ByteAt(x, 0)), Entry(6, ByteAt(x, 1)), Entry(5, ByteAt(x, 2)),
                              Entry(4, ByteAt(x, 3)), Entry(3, ByteAt(x, 4)), Entry(2, ByteAt(x, 5)),
                              Entry(1, ByteAt(x, 6)), Entry(0, ByteAt(x, 7)))
  {
    var x := Xor(r, Load(s));
    FeedWord(r, s);
    SlicesShift(x, 8);
    assert x[..64] + Zeros(0) == x;
    XorZero(Entry(7, ByteAt(x, 0)));
    assert Slices(x, 0) == Zeros(64);
    assert Slices(x, 1) == Entry(7, ByteAt(x, 0));
    assert Slices(x, 2) == Xor(Slices(x, 1), Entry(6, ByteAt(x, 1)));
    assert Slices(x, 3) == Xor(Slices(x, 2), Entry(5, ByteAt(x, 2)));
    assert Slices(x, 4) == Xor(Slices(x, 3), Entry(4, ByteAt(x, 3)));
    assert Slices(x, 5) == Xor(Slices(x, 4), Entry(3, ByteAt(x, 4)));
    assert Slices(x, 6) == Xor(Slices(x, 5), Entry(2, ByteAt(x, 5)));
    assert Slices(x, 7) == Xor(Slices(x, 6), Entry(1, ByteAt(x, 6)));
  }

  // ------------------------------------------------------------- tables in memory

  function Index(c: Byte): (n: nat)
    ensures n < 256 && BitsOf(n, 8) == c
  {
    NumberRoundTrip(c);
    assert Pow2(8) == 256 by { assert Pow2(4) == 16; }
    Number(c)
  }

  ghost predicate LittleTable(table: array2<Word>)
    reads table
  {
    && table.Length0 == 8 && table.Length1 == 256
    && forall k, n :: 0 <= k < 8 && 0 <= n < 256 ==> table[k, n] == Entry(k, BitsOf(n, 8))
  }

  ghost predicate BigTable(table: array2<Word>)
    reads table
  {
    && table.Length0 == 8 && table.Length1 == 256
    && forall k, n :: 0 <= k < 8 && 0 <= n < 256 ==> table[k, n] == Rev8(Entry(k, BitsOf(n, 8)))
  }

  // The reference run on a single byte gives that byte's table 0 entry.
  lemma SingleByte(c: Byte)
    ensures Reflect64(Bitwise(Zeros(64), [c])) == Entry(0, c)
  {
    BitwiseIsCrc(Zeros(64), [c]);
    assert Reflect64(Zeros(64)) == Zeros(64);
    XorZero(Extend(c));
    assert Crc(Zeros(64), [c]) == FeedByte(Crc(Zeros(64), []), c);
  }

  method InitLittle(table: array2<Word>)
    requires table.Length0 == 8 && table.Length1 == 256
    modifies table
    ensures LittleTable(table)
  {
    for n := 0 to 256
      invariant forall m :: 0 <= m < n ==> table[0, m] == Entry(0, BitsOf(m, 8))
    {
      var v: Byte := BitsOf(n, 8);
      table[0, n] := Crc64Reference(Zeros(64), [v]);
      SingleByte(v);
    }
    for n := 0 to 256
      invariant forall m :: 0 <= m < 256 ==> table[0, m] == Entry(0, BitsOf(m, 8))
      invariant forall k, m :: 0 <= k < 8 && 0 <= m < n ==> table[k, m] == Entry(k, BitsOf(m, 8))
    {
      ChainColumn(table, n);
    }
  }

  // Fill column n of tables 1 to 7, each entry from the one above it.
  method ChainColumn(table: array2<Word>, n: nat)
    requires table.Length0 == 8 && table.Length1 == 256 && n < 256
    requires forall m :: 0 <= m < 256 ==> table[0, m] == Entry(0, BitsOf(m, 8))
    modifies table
    ensures forall k :: 0 <= k < 8 ==> table[k, n] == Entry(k, BitsOf(n, 8))
    ensures forall k, m :: 0 <= k < 8 && 0 <= m < 256 && m != n ==> table[k, m] == old(table[k, m])
  {
    hide Entry;
    hide BitsOf;
    var crc := table[0, n];
    for k := 1 to 8
      invariant crc == Entry(k - 1, BitsOf(n, 8))
      invariant forall j :: 0 <= j < k ==> table[j, n] == Entry(j, BitsOf(n, 8))
      invariant forall j, m :: 0 <= j < 8 && 0 <= m < 256 && m != n ==> table[j, m] == old(table[j, m])
    {
      NextEntry(k - 1, BitsOf(n, 8));
      crc := Xor(table[0, Index(ByteAt(crc, 0))], Shr(crc, 8));
      table[k, n] := crc;
    }
  }

  method InitBig(table: array2<Word>)
    requires table.Length0 == 8 && table.Length1 == 256
    modifies table
    ensures BigTable(table)
  {
    InitLittle(table);
    for k := 0 to 8
      invariant forall j, m :: 0 <= j < k && 0 <= m < 256 ==> table[j, m] == Rev8(Entry(j, BitsOf(m, 8)))
      invariant forall j, m :: k <= j < 8 && 0 <= m < 256 ==> table[j, m] == Entry(j, BitsOf(m, 8))
    {
      ReverseRow(table, k);
    }
  }

  method ReverseRow(table: array2<Word>, k: nat)
    requires table.Length0 == 8 && table.Length1 == 256 && k < 8
    modifies table
    ensures forall m :: 0 <= m < 256 ==> table[k, m] == Rev8(old(table[k, m]))
    ensures forall j, m :: 0 <= j < 8 && 0 <= m < 256 && j != k ==> table[j, m] == old(table[j, m])
  {
    for n := 0 to 256
      invariant forall m :: 0 <= m < n ==> table[k, m] == Rev8(old(table[k, m]))
      invariant forall j, m :: 0 <= j < 8 && 0 <= m < 256 && (j != k || m >= n) ==> table[j, m] == old(table[j, m])
    {
      table[k, n] := Rev8(table[k, n]);
    }
  }

  // ------------------------------------------------------------------ slice-by-8

  // `addr` is the address of the buffer's first byte.
  method CrcSpeed64Little(table: array2<Word>, crc0: Word, buf: seq<Byte>, addr: nat) returns (crc: Word)
    requires LittleTable(table)
    ensures crc == Crc(crc0, buf)
  {
    hide FeedByte;
    crc := crc0;
    var next := 0;
    while next < |buf| && (addr + next) % 8 != 0
      invariant next <= |buf| && crc == Crc(crc0, buf[..next])
    {
      crc := LittleByte(table, crc, buf[next]);
      CrcPrefix(crc0, buf, next);
      next := next + 1;
    }
    while |buf| - next >= 8
      invariant next <= |buf| && crc == Crc(crc0, buf[..next])
    {
      crc := LittleWord(table, crc, buf[next..next + 8]);
      CrcConcat(crc0, buf[..next], buf[next..next + 8]);
      assert buf[..next + 8] == buf[..next] + buf[next..next + 8];
      next := next + 8;
    }
    while next < |buf|
      invariant next <= |buf| && crc == Crc(crc0, buf[..next])
    {
      crc := LittleByte(table, crc, buf[next]);
      CrcPrefix(crc0, buf, next);
      next := next + 1;
    }
    assert buf[..next] == buf;
  }

  method LittleByte(table: array2<Word>, crc: Word, c: Byte) returns (r: Word)
    requires LittleTable(table)
    ensures r == FeedByte(crc, c)
  {
    r := Xor(table[0, Index(ByteAt(Xor(crc, Extend(c)), 0))], Shr(crc, 8));
    FeedByLookup(crc, c);
  }

  method LittleWord(table: array2<Word>, crc0: Word, s: seq<Byte>) returns (crc: Word)
    requires LittleTable(table)
    requires |s| == 8
    ensures crc == Crc(crc0, s)
  {
    crc := Xor(crc0, Load(s));
    crc := Xor8(table[7, Index(ByteAt(crc, 0))], table[6, Index(ByteAt(crc, 1))],
                table[5, Index(ByteAt(crc, 2))], table[4, Index(ByteAt(crc, 3))],
                table[3, Index(ByteAt(crc, 4))], table[2, Index(ByteAt(crc, 5))],
                table[1, Index(ByteAt(crc, 6))], table[0, Index(ByteAt(crc, 7))]);
    FeedBySlices(crc0, s);
  }

  function XorByte(a: Byte, b: Byte): Byte {
    seq(8, i requires 0 <= i < 8 => a[i] != b[i])
  }

  method BigByte(table: array2<Word>, crc: Word, c: Byte) returns (r: Word)
    requires BigTable(table)
    ensures Rev8(r) == FeedByte(Rev8(crc), c)
  {
    r := Xor(table[0, Index(XorByte(ByteAt(crc, 7), c))], Shl(crc, 8));
    ghost var l := Rev8(crc);
    FeedByLookup(l, c);
    Rev8Byte(crc, 0);
    assert XorByte(ByteAt(crc, 7), c) == ByteAt(Xor(l, Extend(c)), 0);
    ghost var e := Entry(0, ByteAt(Xor(l, Extend(c)), 0));
    Rev8Xor(Rev8(e), Shl(crc, 8));
    Rev8Involutive(e);
    Rev8Shl(crc);
  }

  lemma Rev8Shl(w: Word)
    ensures Rev8(Shl(w, 8)) == Shr(Rev8(w), 8)
  {
    forall i | 0 <= i < 64
      ensures Rev8(Shl(w, 8))[i] == Shr(Rev8(w), 8)[i]
    {
      if i < 56 {
        assert (i + 8) / 8 == i / 8 + 1 && (i + 8) % 8 == i % 8;
      }
    }
  }

  // The big-endian lookups, on the byte-reversed register, sum to the reversed result.
  lemma Rev8Slices(e0: Word, e1: Word, e2: Word, e3: Word, e4: Word, e5: Word, e6: Word, e7: Word)
    ensures Rev8(Xor8(Rev8(e0), Rev8(e1), Rev8(e2), Rev8(e3), Rev8(e4), Rev8(e5), Rev8(e6), Rev8(e7)))
         == Xor8(e7, e6, e5, e4, e3, e2, e1, e0)
  {
    var w := Xor8(e0, e1, e2, e3, e4, e5, e6, e7);
    Rev8Xor(e0, e1);
    Rev8Xor(Xor(e0, e1), e2);
    Rev8Xor(Xor(Xor(e0, e1), e2), e3);
    Rev8Xor(Xor(Xor(Xor(e0, e1), e2), e3), e4);
    Rev8Xor(Xor(Xor(Xor(Xor(e0, e1), e2), e3), e4), e5);
    Rev8Xor(Xor(Xor(Xor(Xor(Xor(e0, e1), e2), e3), e4), e5), e6);
    Rev8Xor(Xor(Xor(Xor(Xor(Xor(Xor(e0, e1), e2), e3), e4), e5), e6), e7);
    Rev8Involutive(w);
    assert w == Xor8(e7, e6, e5, e4, e3, e2, e1, e0);
  }

  method CrcSpeed64Big(table: array2<Word>, crc0: Word, buf: seq<Byte>, addr: nat) returns (r: Word)
    requires BigTable(table)
    ensures r == Crc(crc0, buf)
  {
    hide FeedByte;
    var crc := Rev8(crc0);
    Rev8Involutive(crc0);
    var next := 0;
    while next < |buf| && (addr + next) % 8 != 0
      invariant next <= |buf| && Rev8(crc) == Crc(crc0, buf[..next])
    {
      crc := BigByte(table, crc, buf[next]);
      CrcPrefix(crc0, buf, next);
      next := next + 1;
    }
    while |buf| - next >= 8
      invariant next <= |buf| && Rev8(crc) == Crc(crc0, buf[..next])
    {
      crc := BigWord(table, crc, buf[next..next + 8]);
      CrcConcat(crc0, buf[..next], buf[next..next + 8]);
      assert buf[..next + 8] == buf[..next] + buf[next..next + 8];
      next := next + 8;
    }
    while next < |buf|
      invariant next <= |buf| && Rev8(crc) == Crc(crc0, buf[..next])
    {
      crc := BigByte(table, crc, buf[next]);
      CrcPrefix(crc0, buf, next);
      next := next + 1;
    }
    assert buf[..next] == buf;
    r := Rev8(crc);
  }

  // A big-endian machine loads the eight bytes as the reversed word.
  method BigWord(table: array2<Word>, crc0: Word, s: seq<Byte>) returns (crc: Word)
    requires BigTable(table)
    requires |s| == 8
    ensures Rev8(crc) == Crc(Rev8(crc0), s)
  {
    crc := Xor(crc0, Rev8(Load(s)));
    ghost var x := Xor(Rev8(crc0), Load(s));
    Rev8Xor(crc0, Rev8(Load(s)));
    Rev8Involutive(Load(s));
    Rev8Involutive(crc);
    assert crc == Rev8(x);
    Rev8Bytes(x);
    crc := Xor8(table[0, Index(ByteAt(crc, 0))], table[1, Index(ByteAt(crc, 1))],
                table[2, Index(ByteAt(crc, 2))], table[3, Index(ByteAt(crc, 3))],
                table[4, Index(ByteAt(crc, 4))], table[5, Index(ByteAt(crc, 5))],
                table[6, Index(ByteAt(crc, 6))], table[7, Index(ByteAt(crc, 7))]);
    Rev8Slices(Entry(0, ByteAt(x, 7)), Entry(1, ByteAt(x, 6)), Entry(2, ByteAt(x, 5)), Entry(3, ByteAt(x, 4)),
               Entry(4, ByteAt(x, 3)), Entry(5, ByteAt(x, 2)), Entry(6, ByteAt(x, 1)), Entry(7, ByteAt(x, 0)));
    FeedBySlices(Rev8(crc0), s);
  }

  lemma Rev8Bytes(x: Word)
    ensures forall i :: 0 <= i < 8 ==> ByteAt(Rev8(x), i) == ByteAt(x, 7 - i)
  {
    forall i | 0 <= i < 8
      ensures ByteAt(Rev8(x), i) == ByteAt(x, 7 - i)
    {
      Rev8Byte(x, i);
    }
  }

  // crc64() on a little- or big-endian machine, from the register the reference would
  // start from, reflected, is the reference's answer.
  method Crc64Native(little: bool, c: Word, buf: seq<Byte>, addr: nat) returns (r: Word)
    ensures r == Reflect64(Bitwise(c, buf))
  {
    var table := new Word[8, 256];
    var crc := CrcReflect(c);
    if little {
      InitLittle(table);
      r := CrcSpeed64Little(table, crc, buf, addr);
    } else {
      InitBig(table);
      r := CrcSpeed64Big(table, crc, buf, addr);
    }
    BitwiseIsCrc(c, buf);
  }
}
