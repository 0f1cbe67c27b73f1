/**
Finding the first bit of a kind, and combining strings bit by bit, a word at a time.  A byte is
its eight bits, the most significant first, which is the order of bit positions in a string.
*/
module BitScan {
  import opened Options
  import Words

  type Byte = Words.Byte

  const WORD_BYTES := 8
  const WORD_BITS := 64

  function Same(v: bool, n: nat): (s: seq<bool>)
    ensures |s| == n && forall i :: 0 <= i < n ==> s[i] == v
  {
    seq(n, i => v)
  }

  lemma {:induction false} FlatConcat(a: seq<Byte>, b: seq<Byte>)
    ensures Words.Flat(a + b) == Words.Flat(a) + Words.Flat(b)
    decreases |b|
  {
    if b == [] {
      assert a + b == a;
    } else {
      assert (a + b)[..|a + b| - 1] == a + b[..|b| - 1];
      FlatConcat(a, b[..|b| - 1]);
    }
  }

  lemma FlatSlice(s: seq<Byte>, n: nat, m: nat)
    requires n <= m <= |s|
    ensures Words.Flat(s[n..m]) == Words.Flat(s)[8 * n..8 * m]
  {
    hide Words.Flat;
    assert s == s[..n] + s[n..m] + s[m..];
    FlatMiddle(s[..n], s[n..m], s[m..]);
  }

  lemma FlatMiddle(a: seq<Byte>, c: seq<Byte>, b: seq<Byte>)
    ensures Words.Flat(a + c + b)[8 * |a|..8 * (|a| + |c|)] == Words.Flat(c)
  {
    hide Words.Flat;
    FlatConcat(a + c, b);
    FlatConcat(a, c);
    Middle(Words.Flat(a), Words.Flat(c), Words.Flat(b));
  }

  lemma Middle(a: seq<bool>, c: seq<bool>, b: seq<bool>)
    ensures (a + c + b)[|a|..|a| + |c|] == c
  {
  }

  // -------------------------------------------------------------------- the first match

  // Position p holds the first bit equal to v.
  ghost predicate FirstAt(bits: seq<bool>, v: bool, p: nat) {
    p < |bits| && bits[p] == v && forall i :: 0 <= i < p ==> bits[i] != v
  }

  // What a search must return: the first match; if there is none, -1 for ones and, since a
  // string is followed by zeros, its length in bits for zeros.
  ghost predicate Answer(bits: seq<bool>, v: bool, pos: int) {
    || (pos >= 0 && FirstAt(bits, v, pos))
    || ((forall i :: 0 <= i < |bits| ==> bits[i] != v) && pos == if v then -1 else |bits|)
  }

  // All bits of the first n bytes are of the other kind.
  ghost predicate Skipped(s: seq<Byte>, v: bool, n: nat) {
    n <= |s| && forall i :: 0 <= i < 8 * n ==> Words.Flat(s)[i] != v
  }

  lemma SkipBytes(s: seq<Byte>, v: bool, n: nat, k: nat)
    requires Skipped(s, v, n) && n + k <= |s|
    requires Words.Flat(s[n..n + k]) == Same(!v, 8 * k)
    ensures Skipped(s, v, n + k)
  {
    FlatSlice(s, n, n + k);
    hide Words.Flat;
    forall i | 0 <= i < 8 * (n + k) ensures Words.Flat(s)[i] != v {
      if i >= 8 * n { assert Words.Flat(s)[i] == Words.Flat(s)[8 * n..8 * (n + k)][i - 8 * n]; }
    }
  }

  lemma OneByte(b: Byte)
    ensures Words.Flat([b]) == b
  {
    assert [b][..0] == [];
    assert Words.Flat([b]) == [] + b;
  }

  // The bytes from n on, at most eight, followed by zeros.
  function LoadWord(s: seq<Byte>, n: nat): (w: seq<bool>)
    requires n <= |s|
    ensures |w| == WORD_BITS
  {
    var left := if |s| - n < WORD_BYTES then |s| - n else WORD_BYTES;
    Words.Flat(s[n..n + left]) + Same(false, 8 * (WORD_BYTES - left))
  }

  // Bit p of a string that is followed by zeros.
  predicate Padded(bits: seq<bool>, p: nat) {
    p < |bits| && bits[p]
  }

  lemma WordBits(s: seq<Byte>, n: nat)
    requires n <= |s|
    ensures forall i :: 0 <= i < WORD_BITS ==> LoadWord(s, n)[i] == Padded(Words.Flat(s), 8 * n + i)
  {
    var left := if |s| - n < WORD_BYTES then |s| - n else WORD_BYTES;
    FlatSlice(s, n, n + left);
    hide Words.Flat;
    forall i | 0 <= i < WORD_BITS ensures LoadWord(s, n)[i] == Padded(Words.Flat(s), 8 * n + i) {
      if i < 8 * left { assert LoadWord(s, n)[i] == Words.Flat(s)[8 * n..8 * (n + left)][i]; }
    }
  }

  // What has been loaded: the right end of the word.
  ghost predicate Loaded(s: seq<Byte>, n: nat, c: nat, j: nat, word: seq<bool>)
    requires n <= c <= |s| && c <= n + j <= n + WORD_BYTES && |word| == WORD_BITS
  {
    word[WORD_BITS - 8 * j..] == Words.Flat(s[n..c]) + Same(false, 8 * (n + j - c))
  }

  lemma LoadByte(s: seq<Byte>, n: nat, c: nat, j: nat, word: seq<bool>)
    requires n <= c < |s| && c == n + j < n + WORD_BYTES && |word| == WORD_BITS && Loaded(s, n, c, j, word)
    ensures Loaded(s, n, c + 1, j + 1, word[8..] + s[c])
  {
    var w := word[8..] + s[c];
    assert Words.Flat(s[n..c + 1]) == Words.Flat(s[n..c]) + s[c] by { assert s[n..c + 1][..c - n] == s[n..c]; }
    hide Words.Flat;
    assert w[WORD_BITS - 8 * (j + 1)..] == word[WORD_BITS - 8 * j..] + s[c];
  }

  lemma LoadZero(s: seq<Byte>, n: nat, c: nat, j: nat, word: seq<bool>)
    requires n <= c <= |s| && c <= n + j < n + WORD_BYTES && |word| == WORD_BITS && Loaded(s, n, c, j, word)
    ensures Loaded(s, n, c, j + 1, word[8..] + Same(false, 8))
  {
    hide Words.Flat;
    var w := word[8..] + Same(false, 8);
    assert w[WORD_BITS - 8 * (j + 1)..] == word[WORD_BITS - 8 * j..] + Same(false, 8);
    assert Same(false, 8 * (n + j - c)) + Same(false, 8) == Same(false, 8 * (n + j + 1 - c));
  }

  /** Loading the word byte by byte: each byte is shifted in from the right. */
  method LoadBytes(s: seq<Byte>, n: nat) returns (word: seq<bool>)
    requires n <= |s|
    ensures word == LoadWord(s, n)
  {
    word := Same(false, WORD_BITS);
    var j: nat := 0;
    var c := n;
    assert Loaded(s, n, c, 0, word) by { assert s[n..n] == []; }
    while j < WORD_BYTES
      invariant j <= WORD_BYTES && |word| == WORD_BITS
      invariant n <= c <= |s| && c == (if n + j <= |s| then n + j else |s|)
      invariant Loaded(s, n, c, j, word)
    {
      hide Loaded;
      if c < |s| {
        LoadByte(s, n, c, j, word);
        word := word[8..] + s[c];
        c := c + 1;
      } else {
        LoadZero(s, n, c, j, word);
        word := word[8..] + Same(false, 8);
      }
      j := j + 1;
    }
    assert word[0..] == word;
  }

  // A match within the next word.
  ghost predicate Hit(s: seq<Byte>, v: bool, n: nat) {
    exists p :: 8 * n <= p < 8 * n + WORD_BITS && p < |Words.Flat(s)| && Words.Flat(s)[p] == v
  }

  // Bytes that are not all of the other kind contain a match.
  lemma HitBytes(s: seq<Byte>, v: bool, n: nat, k: nat)
    requires n + k <= |s| && k <= WORD_BYTES && Words.Flat(s[n..n + k]) != Same(!v, 8 * k)
    ensures Hit(s, v, n)
  {
    FlatSlice(s, n, n + k);
    hide Words.Flat;
    var m := Words.Flat(s)[8 * n..8 * (n + k)];
    var i :| 0 <= i < 8 * k && m[i] != Same(!v, 8 * k)[i];
    assert Words.Flat(s)[8 * n + i] == v;
  }

  // The word is the rest of the string, or it contains a match.
  ghost predicate Ready(s: seq<Byte>, v: bool, n: nat) {
    Skipped(s, v, n) && (|s| - n < WORD_BYTES || Hit(s, v, n))
  }

  lemma NoOnes(s: seq<Byte>, n: nat)
    requires n <= |s| && Ready(s, true, n) && LoadWord(s, n) == Same(false, WORD_BITS)
    ensures Answer(Words.Flat(s), true, -1)
  {
    WordBits(s, n);
    hide LoadWord;
    forall p | 8 * n <= p < 8 * n + WORD_BITS && p < |Words.Flat(s)| ensures !Words.Flat(s)[p] {
      assert LoadWord(s, n)[p - 8 * n] == Padded(Words.Flat(s), p);
    }
    forall i | 0 <= i < |Words.Flat(s)| ensures !Words.Flat(s)[i] {
      if i >= 8 * n {
        if i < 8 * n + WORD_BITS { assert LoadWord(s, n)[i - 8 * n] == Padded(Words.Flat(s), i); }
      }
    }
  }

  lemma MatchAt(s: seq<Byte>, v: bool, n: nat, k: nat)
    requires n <= |s| && Ready(s, v, n) && k < WORD_BITS && LoadWord(s, n)[k] == v
    requires forall i :: 0 <= i < k ==> LoadWord(s, n)[i] != v
    ensures Answer(Words.Flat(s), v, 8 * n + k)
  {
    WordBits(s, n);
    var bits, word := Words.Flat(s), LoadWord(s, n);
    assert |bits| == 8 * |s|;
    hide LoadWord, Words.Flat;
    assert v == Padded(bits, 8 * n + k);
    if 8 * n + k < |bits| {
      forall i | 0 <= i < 8 * n + k ensures bits[i] != v {
        if i >= 8 * n { assert word[i - 8 * n] == Padded(bits, i); }
      }
    } else {
      var e := |bits| - 8 * n;
      assert word[e] == Padded(bits, 8 * n + e);
      assert e == k;
      forall i | 0 <= i < |bits| ensures bits[i] != v {
        if i >= 8 * n { assert word[i - 8 * n] == Padded(bits, i); }
      }
    }
  }

  lemma SomeMatch(s: seq<Byte>, v: bool, n: nat)
    requires n <= |s| && Ready(s, v, n) && !(v && LoadWord(s, n) == Same(false, WORD_BITS))
    ensures exists i :: 0 <= i < WORD_BITS && LoadWord(s, n)[i] == v
  {
    WordBits(s, n);
    hide LoadWord;
    var word := LoadWord(s, n);
    if v {
      var i :| 0 <= i < WORD_BITS && word[i] != Same(false, WORD_BITS)[i];
      assert word[i] == v;
    } else if Hit(s, v, n) {
      var p :| 8 * n <= p < 8 * n + WORD_BITS && p < |Words.Flat(s)| && Words.Flat(s)[p] == v;
      assert word[p - 8 * n] == Padded(Words.Flat(s), p);
    } else {
      assert word[WORD_BITS - 1] == Padded(Words.Flat(s), 8 * n + WORD_BITS - 1);
    }
  }

  lemma NothingSkipped(s: seq<Byte>, v: bool)
    ensures Skipped(s, v, 0)
  {
  }

  lemma OneByteSkipped(s: seq<Byte>, v: bool, n: nat)
    requires Skipped(s, v, n) && n < |s|
    ensures if s[n] == Same(!v, 8) then Skipped(s, v, n + 1) else Hit(s, v, n)
  {
    OneByte(s[n]);
    assert s[n..n + 1] == [s[n]];
    hide Words.Flat;
    if s[n] == Same(!v, 8) {
      SkipBytes(s, v, n, 1);
    } else {
      HitBytes(s, v, n, 1);
    }
  }

  // Bytes up to a word boundary.
  method SkipToBoundary(s: seq<Byte>, v: bool, address: nat) returns (n: nat, found: bool)
    ensures Skipped(s, v, n) && (found ==> Hit(s, v, n))
  {
    n, found := 0, false;
    NothingSkipped(s, v);
    while (address + n) % WORD_BYTES != 0 && n < |s|
      invariant Skipped(s, v, n)
      decreases |s| - n
    {
      OneByteSkipped(s, v, n);
      if s[n] != Same(!v, 8) {
        found := true;
        return;
      }
      n := n + 1;
    }
  }

  // Whole words.
  method SkipWords(s: seq<Byte>, v: bool, start: nat) returns (n: nat)
    requires Skipped(s, v, start)
    ensures Ready(s, v, n)
  {
    n := start;
    while |s| - n >= WORD_BYTES
      invariant Skipped(s, v, n)
      decreases |s| - n
    {
      if Words.Flat(s[n..n + WORD_BYTES]) != Same(!v, WORD_BITS) {
        HitBytes(s, v, n, WORD_BYTES);
        return;
      }
      SkipBytes(s, v, n, WORD_BYTES);
      n := n + WORD_BYTES;
    }
  }

  /** The first bit equal to v.  The end of the last loop is never reached without a match. */
  method RedisBitpos(s: seq<Byte>, v: bool, address: nat) returns (pos: int)
    ensures Answer(Words.Flat(s), v, pos)
  {
    var n, found := SkipToBoundary(s, v, address);
    if !found { n := SkipWords(s, v, n); }
    assert Ready(s, v, n) && n <= |s|;
    hide Ready, Answer, Words.Flat, LoadWord;
    pos := 8 * n;
    var word := LoadBytes(s, n);
    if v && word == Same(false, WORD_BITS) {
      NoOnes(s, n);
      return -1;
    }
    SomeMatch(s, v, n);
    var k: nat := 0;
    while k < WORD_BITS
      invariant k <= WORD_BITS && pos == 8 * n + k
      invariant forall i :: 0 <= i < k ==> word[i] != v
    {
      if word[k] == v {
        MatchAt(s, v, n, k);
        return;
      }
      pos := pos + 1;
      k := k + 1;
    }
    assert false;
  }

  // ---------------------------------------------------------------- combining strings

  datatype Op = AND | OR | XOR | NOT

  function Bit(op: Op, a: bool, b: bool): bool {
    match op
    case AND => a && b
    case OR => a || b
    case XOR => a != b
    case NOT => a
  }

  // One operation on two strings of bits of the same length.
  function Combine(op: Op, a: seq<bool>, b: seq<bool>): (r: seq<bool>)
    requires |a| == |b|
    ensures |r| == |a| && forall i :: 0 <= i < |a| ==> r[i] == Bit(op, a[i], b[i])
  {
    seq(|a|, i requires 0 <= i < |a| => Bit(op, a[i], b[i]))
  }

  function Flip(a: seq<bool>): (r: seq<bool>)
    ensures |r| == |a| && forall i :: 0 <= i < |a| ==> r[i] == !a[i]
  {
    seq(|a|, i requires 0 <= i < |a| => !a[i])
  }

  // Byte j, or zero past the end.
  function ByteAt(s: seq<Byte>, j: nat): Byte {
    if j < |s| then s[j] else Same(false, 8)
  }

  // Byte j of the result: the strings are combined from left to right.
  function Output(op: Op, src: seq<seq<Byte>>, j: nat, n: nat): (r: Byte)
    requires 0 < n <= |src|
  {
    if n == 1 then (if op == NOT then Flip(ByteAt(src[0], j)) else ByteAt(src[0], j))
    else Combine(op, Output(op, src, j, n - 1), ByteAt(src[n - 1], j))
  }

  // A byte that nothing can change any more.
  predicate Saturated(op: Op, b: Byte) {
    (op == AND && b == Same(false, 8)) || (op == OR && b == Same(true, 8))
  }

  lemma {:induction false} StaysSaturated(op: Op, src: seq<seq<Byte>>, j: nat, n: nat, m: nat)
    requires 0 < n <= m <= |src| && Saturated(op, Output(op, src, j, n))
    ensures Output(op, src, j, m) == Output(op, src, j, n)
    decreases m
  {
    if n < m {
      StaysSaturated(op, src, j, n, m - 1);
      assert Combine(op, Output(op, src, j, n), ByteAt(src[m - 1], j)) == Output(op, src, j, n);
    }
  }

  lemma OutputNext(op: Op, src: seq<seq<Byte>>, j: nat, n: nat)
    requires 0 < n < |src|
    ensures Output(op, src, j, n + 1) == Combine(op, Output(op, src, j, n), ByteAt(src[n], j))
  {
  }

  lemma OutputFirst(op: Op, src: seq<seq<Byte>>, j: nat)
    requires src != []
    ensures Output(op, src, j, 1) == if op == NOT then Flip(ByteAt(src[0], j)) else ByteAt(src[0], j)
  {
    hide Combine, ByteAt;
  }

  /** One byte of the slow path, with its early exit. */
  method SlowByte(op: Op, src: seq<seq<Byte>>, j: nat) returns (output: Byte)
    requires src != [] && (op == NOT ==> |src| == 1)
    ensures output == Output(op, src, j, |src|)
  {
    hide Output, Combine, ByteAt, Flip, Saturated;
    OutputFirst(op, src, j);
    output := ByteAt(src[0], j);
    if op == NOT { output := Flip(output); }
    var i: nat := 1;
    while i < |src|
      invariant 1 <= i <= |src| && output == Output(op, src, j, i)
    {
      OutputNext(op, src, j, i);
      output := Combine(op, output, ByteAt(src[i], j));
      if Saturated(op, output) {
        StaysSaturated(op, src, j, i + 1, |src|);
        return;
      }
      i := i + 1;
    }
  }

  // ------------------------------------------------------------------ a word at a time

  lemma {:induction false} FlatAt(s: seq<Byte>, i: nat)
    requires i < |s|
    ensures Words.Flat(s)[8 * i..8 * i + 8] == s[i]
    decreases |s|
  {
    var front := s[..|s| - 1];
    if i < |front| {
      FlatAt(front, i);
      assert Words.Flat(s)[8 * i..8 * i + 8] == Words.Flat(front)[8 * i..8 * i + 8];
    }
  }

  // Bits cut into bytes.
  function Cut(bits: seq<bool>): (s: seq<Byte>)
    requires |bits| % 8 == 0
    ensures |s| == |bits| / 8 && forall i :: 0 <= i < |s| ==> s[i] == bits[8 * i..8 * i + 8]
  {
    seq(|bits| / 8, i requires 0 <= i < |bits| / 8 => bits[8 * i..8 * i + 8])
  }

  // Two words are combined as words.
  function CombineWords(op: Op, a: seq<Byte>, b: seq<Byte>): seq<Byte>
    requires |a| == |b|
  {
    Cut(Combine(op, Words.Flat(a), Words.Flat(b)))
  }

  function FlipWord(a: seq<Byte>): seq<Byte> {
    Cut(Flip(Words.Flat(a)))
  }

  /** That is the same as byte by byte. */
  lemma WordsAreBytes(op: Op, a: seq<Byte>, b: seq<Byte>, i: nat)
    requires |a| == |b| && i < |a|
    ensures |CombineWords(op, a, b)| == |a| && CombineWords(op, a, b)[i] == Combine(op, a[i], b[i])
    ensures |FlipWord(a)| == |a| && FlipWord(a)[i] == Flip(a[i])
  {
    FlatAt(a, i);
    FlatAt(b, i);
    var c := Combine(op, Words.Flat(a), Words.Flat(b));
    assert c[8 * i..8 * i + 8] == Combine(op, a[i], b[i]);
    assert Flip(Words.Flat(a))[8 * i..8 * i + 8] == Flip(a[i]);
  }

  const CHUNK := 32

  // The same chunk of a string, or of the result so far, as four words of eight bytes.
  method CombineChunk(op: Op, res: array<Byte>, p: nat, other: seq<Byte>)
    requires p + CHUNK <= res.Length && p + CHUNK <= |other|
    modifies res
    ensures forall k :: 0 <= k < res.Length ==>
      res[k] == if p <= k < p + CHUNK then Combine(op, old(res[k]), other[k]) else old(res[k])
  {
    var q := 0;
    while q < 4
      invariant 0 <= q <= 4
      invariant forall k :: 0 <= k < res.Length ==>
        res[k] == if p <= k < p + 8 * q then Combine(op, old(res[k]), other[k]) else old(res[k])
    {
      CombineWord(op, res, p + 8 * q, other);
      q := q + 1;
    }
  }

  method CombineWord(op: Op, res: array<Byte>, p: nat, other: seq<Byte>)
    requires p + 8 <= res.Length && p + 8 <= |other|
    modifies res
    ensures forall k :: 0 <= k < res.Length ==>
      res[k] == if p <= k < p + 8 then Combine(op, old(res[k]), other[k]) else old(res[k])
  {
    var a, b := res[p..p + 8], other[p..p + 8];
    var w := CombineWords(op, a, b);
    forall i | 0 <= i < 8 ensures |w| == 8 && w[i] == Combine(op, old(res[p + i]), other[p + i]) {
      WordsAreBytes(op, a, b, i);
    }
    hide CombineWords, Combine;
    Store(res, p, w);
    forall k | p <= k < p + 8 ensures res[k] == Combine(op, old(res[k]), other[k]) {
      assert w[k - p] == Combine(op, old(res[p + (k - p)]), other[p + (k - p)]);
    }
  }

  method FlipChunk(res: array<Byte>, p: nat)
    requires p + CHUNK <= res.Length
    modifies res
    ensures forall k :: 0 <= k < res.Length ==> res[k] == if p <= k < p + CHUNK then Flip(old(res[k])) else old(res[k])
  {
    var a := res[p..p + CHUNK];
    var w := FlipWord(a);
    forall i | 0 <= i < CHUNK ensures |w| == CHUNK && w[i] == Flip(old(res[p + i])) {
      WordsAreBytes(NOT, a, a, i);
    }
    hide FlipWord, Flip;
    Store(res, p, w);
    forall k | p <= k < p + CHUNK ensures res[k] == Flip(old(res[k])) {
      assert w[k - p] == Flip(old(res[p + (k - p)]));
    }
  }

  method Store(res: array<Byte>, p: nat, w: seq<Byte>)
    requires p + |w| <= res.Length
    modifies res
    ensures forall k :: 0 <= k < res.Length ==> res[k] == if p <= k < p + |w| then w[k - p] else old(res[k])
  {
    var i := 0;
    while i < |w|
      invariant 0 <= i <= |w|
      invariant forall k :: 0 <= k < res.Length ==> res[k] == if p <= k < p + i then w[k - p] else old(res[k])
    {
      res[p + i] := w[i];
      i := i + 1;
    }
  }

  /** The sources; a key that does not exist is an empty string. */
  method Sources(keys: seq<Option<seq<Byte>>>) returns (src: seq<seq<Byte>>, minlen: nat, maxlen: nat)
    ensures |src| == |keys| && forall i :: 0 <= i < |keys| ==> src[i] == if keys[i].Some? then keys[i].value else []
    ensures forall i :: 0 <= i < |src| ==> minlen <= |src[i]| <= maxlen
    ensures maxlen > 0 ==> exists i :: 0 <= i < |src| && |src[i]| == maxlen
  {
    src, minlen, maxlen := [], 0, 0;
    var j := 0;
    while j < |keys|
      invariant 0 <= j <= |keys| && |src| == j
      invariant forall i :: 0 <= i < j ==> src[i] == if keys[i].Some? then keys[i].value else []
      invariant forall i :: 0 <= i < j ==> minlen <= |src[i]| <= maxlen
      invariant maxlen > 0 ==> exists i :: 0 <= i < |src| && |src[i]| == maxlen
    {
      ghost var before := src;
      if keys[j].None? {
        src, minlen := src + [[]], 0;
      } else {
        var s := keys[j].value;
        src := src + [s];
        if |s| > maxlen { maxlen := |s|; }
        if j == 0 || |s| < minlen { minlen := |s|; }
        assert src[j] == s;
      }
      assert forall i :: 0 <= i < j ==> src[i] == before[i];
      j := j + 1;
    }
  }

  // The result so far: below j it is finished.
  ghost predicate Done(op: Op, src: seq<seq<Byte>>, res: seq<Byte>, j: nat)
    requires src != []
  {
    j <= |res| && forall k :: 0 <= k < j ==> res[k] == Output(op, src, k, |src|)
  }

  // Four words at a time while every source has them.
  method FastPath(op: Op, src: seq<seq<Byte>>, minlen: nat, res: array<Byte>) returns (j: nat)
    requires src != [] && (op == NOT ==> |src| == 1) && minlen <= res.Length
    requires forall i :: 0 <= i < |src| ==> minlen <= |src[i]|
    requires forall k :: 0 <= k < minlen ==> res[k] == src[0][k]
    modifies res
    ensures Done(op, src, res[..], j)
  {
    j := 0;
    while minlen - j >= CHUNK
      invariant j <= minlen && Done(op, src, res[..], j)
      invariant forall k :: j <= k < minlen ==> res[k] == src[0][k]
    {
      if op == NOT {
        FlipChunk(res, j);
        assert forall k :: j <= k < j + CHUNK ==> res[k] == Output(op, src, k, 1);
      } else {
        ChunkOfAll(op, src, minlen, res, j);
      }
      j := j + CHUNK;
    }
  }

  // One chunk of all the sources.
  method ChunkOfAll(op: Op, src: seq<seq<Byte>>, minlen: nat, res: array<Byte>, j: nat)
    requires src != [] && op != NOT && j + CHUNK <= minlen <= res.Length
    requires forall i :: 0 <= i < |src| ==> minlen <= |src[i]|
    requires forall k :: j <= k < j + CHUNK ==> res[k] == src[0][k]
    modifies res
    ensures forall k :: 0 <= k < res.Length ==>
      res[k] == if j <= k < j + CHUNK then Output(op, src, k, |src|) else old(res[k])
  {
    assert forall k :: j <= k < j + CHUNK ==> res[k] == Output(op, src, k, 1);
    var i: nat := 1;
    while i < |src|
      invariant 1 <= i <= |src|
      invariant forall k :: 0 <= k < res.Length ==>
        res[k] == if j <= k < j + CHUNK then Output(op, src, k, i) else old(res[k])
    {
      hide Output, Combine;
      forall k | j <= k < j + CHUNK
        ensures Output(op, src, k, i + 1) == Combine(op, Output(op, src, k, i), src[i][k])
      {
        OutputNext(op, src, k, i);
      }
      CombineChunk(op, res, j, src[i]);
      i := i + 1;
    }
  }

  /** The result of a bit operation: as long as the longest source, every byte the combination of
      the bytes at its place. */
  method Bitop(op: Op, keys: seq<Option<seq<Byte>>>) returns (src: seq<seq<Byte>>, res: array<Byte>)
    requires keys != [] && (op == NOT ==> |keys| == 1)
    ensures |src| == |keys| && forall i :: 0 <= i < |keys| ==> src[i] == if keys[i].Some? then keys[i].value else []
    ensures forall i :: 0 <= i < |src| ==> |src[i]| <= res.Length
    ensures res.Length > 0 ==> exists i :: 0 <= i < |src| && |src[i]| == res.Length
    ensures forall j :: 0 <= j < res.Length ==> res[j] == Output(op, src, j, |src|)
  {
    var minlen, maxlen;
    src, minlen, maxlen := Sources(keys);
    res := new Byte[maxlen](i => Same(false, 8));
    var j: nat := 0;
    if minlen >= CHUNK && |src| <= 16 {
      Store(res, 0, src[0][..minlen]);
      j := FastPath(op, src, minlen, res);
    }
    hide Output;
    while j < maxlen
      invariant Done(op, src, res[..], j)
    {
      var b := SlowByte(op, src, j);
      ghost var before := res[..];
      res[j] := b;
      assert forall k :: 0 <= k < j ==> res[k] == before[k];
      j := j + 1;
    }
  }

  // --------------------------------------------------------- what the operations mean

  // Bit i of byte j is set.
  predicate Has(s: seq<Byte>, j: nat, i: nat)
    requires i < 8
  {
    j < |s| && s[j][i]
  }

  // An odd number of the first n sources have the bit.
  predicate Odd(src: seq<seq<Byte>>, j: nat, n: nat, i: nat)
    requires n <= |src| && i < 8
  {
    n > 0 && (Odd(src, j, n - 1, i) != Has(src[n - 1], j, i))
  }

  /** A bit of the result is set if all, some or an odd number of the sources have it, or if the
      only source has not; what a source lacks at its end counts as zero. */
  lemma {:induction false} OutputMeans(op: Op, src: seq<seq<Byte>>, j: nat, n: nat, i: nat)
    requires 0 < n <= |src| && i < 8 && (op == NOT ==> n == 1)
    ensures var bit := Output(op, src, j, n)[i];
      match op
      case AND => bit <==> forall k :: 0 <= k < n ==> Has(src[k], j, i)
      case OR => bit <==> exists k :: 0 <= k < n && Has(src[k], j, i)
      case XOR => bit <==> Odd(src, j, n, i)
      case NOT => bit <==> !Has(src[0], j, i)
  {
    if n > 1 {
      OutputMeans(op, src, j, n - 1, i);
    }
  }
}
