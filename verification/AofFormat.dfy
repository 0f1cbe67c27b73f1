/**
The append-only log as text: how a command is written, and how the log is read back at
startup, including a log that ends in the middle of a command or of a transaction.
*/
module AofFormat {
  import opened Options

  type Bytes = string
  type Command = seq<Bytes>

  // --------------------------------------------------------------------- decimal numbers

  function Digit(d: nat): char
    requires d < 10
  {
    '0' + d as char
  }

  predicate IsDigit(c: char) {
    '0' <= c <= '9'
  }

  function Decimal(n: nat): (s: string)
    ensures |s| > 0 && forall i :: 0 <= i < |s| ==> IsDigit(s[i])
    ensures n > 0 ==> s[0] != '0'
  {
    if n < 10 then [Digit(n)] else Decimal(n / 10) + [Digit(n % 10)]
  }

  // The digits of s from i on, added to what has been read before them.
  function Digits(s: string, i: nat, acc: nat): nat
    requires i <= |s|
    decreases |s| - i
  {
    if i < |s| && IsDigit(s[i]) then Digits(s, i + 1, 10 * acc + (s[i] - '0') as nat) else acc
  }

  predicate IsSpace(c: char) {
    c == ' ' || '\t' <= c <= '\r'
  }

  function SkipSpaces(s: string, i: nat): (j: nat)
    requires i <= |s|
    ensures i <= j <= |s|
    decreases |s| - i
  {
    if i < |s| && IsSpace(s[i]) then SkipSpaces(s, i + 1) else i
  }

  // atoi and strtol from position i: spaces, a sign, digits.
  function ParseInt(s: string, i: nat): int
    requires i <= |s|
  {
    var j := SkipSpaces(s, i);
    if j < |s| && s[j] == '-' then -(Digits(s, j + 1, 0) as int)
    else if j < |s| && s[j] == '+' then Digits(s, j + 1, 0)
    else Digits(s, j, 0)
  }

  // Digits followed by something else.
  lemma {:induction false} DigitsOfDecimal(s: string, i: nat, n: nat)
    requires i + |Decimal(n)| <= |s| && s[i..i + |Decimal(n)|] == Decimal(n)
    ensures Digits(s, i, 0) == Digits(s, i + |Decimal(n)|, n)
  {
    if n >= 10 {
      var k := |Decimal(n / 10)|;
      assert s[i..i + k] == s[i..i + k + 1][..k];
      DigitsOfDecimal(s, i, n / 10);
      assert s[i + k] == s[i..i + k + 1][k] == Digit(n % 10);
    } else {
      assert s[i] == s[i..i + 1][0];
    }
  }

  lemma ParseDecimal(s: string, i: nat, n: nat)
    requires i + |Decimal(n)| <= |s| && s[i..i + |Decimal(n)|] == Decimal(n)
    requires i + |Decimal(n)| < |s| ==> !IsDigit(s[i + |Decimal(n)|])
    ensures ParseInt(s, i) == n
  {
    DigitsOfDecimal(s, i, n);
    assert s[i] == s[i..i + |Decimal(n)|][0];
    assert IsDigit(s[i]);
  }

  lemma {:induction false} DigitsGrow(s: string, i: nat, acc: nat)
    requires i <= |s|
    ensures Digits(s, i, acc) >= acc
    decreases |s| - i
  {
    if i < |s| && IsDigit(s[i]) {
      DigitsGrow(s, i + 1, 10 * acc + (s[i] - '0') as nat);
    }
  }

  // A number cut short, or not, is still positive if it was.
  lemma ParsePositive(s: string, i: nat)
    requires i < |s| && IsDigit(s[i]) && s[i] != '0'
    ensures ParseInt(s, i) >= 1
  {
    DigitsGrow(s, i + 1, (s[i] - '0') as nat);
  }

  function Pow10(k: nat): nat {
    if k == 0 then 1 else 10 * Pow10(k - 1)
  }

  lemma {:induction false} DecimalLength(n: nat, k: nat)
    requires k >= 1 && n < Pow10(k)
    ensures |Decimal(n)| <= k
  {
    if n >= 10 {
      DecimalLength(n / 10, k - 1);
    }
  }

  // ----------------------------------------------------------------------- the printer

  const CRLF: string := "\r\n"

  function Line(c: char, n: nat): string {
    [c] + Decimal(n) + CRLF
  }

  function EncodeArg(a: Bytes): string {
    Line('$', |a|) + a + CRLF
  }

  function EncodeArgs(args: seq<Bytes>): string {
    if args == [] then "" else EncodeArgs(args[..|args| - 1]) + EncodeArg(args[|args| - 1])
  }

  function Encode(cmd: Command): string {
    Line('*', |cmd|) + EncodeArgs(cmd)
  }

  function EncodeAll(cmds: seq<Command>): string {
    if cmds == [] then "" else Encode(cmds[0]) + EncodeAll(cmds[1..])
  }

  method CatAppendOnlyGenericCommand(dst: string, argv: Command) returns (r: string)
    ensures r == dst + Encode(argv)
  {
    hide EncodeArg, Line, Decimal;
    r := CatLine(dst, '*', |argv|);
    ghost var head := r;
    assert argv[..0] == [];
    for j := 0 to |argv|
      invariant r == head + EncodeArgs(argv[..j])
    {
      r := CatArg(r, argv[j]);
      assert argv[..j + 1][..j] == argv[..j];
    }
    assert argv[..|argv|] == argv;
  }

  method CatLine(dst: string, c: char, n: nat) returns (r: string)
    ensures r == dst + Line(c, n)
  {
    hide Decimal;
    var buf := [c] + Decimal(n);
    buf := buf + CRLF;
    r := dst + buf;
  }

  method CatArg(dst: string, a: Bytes) returns (r: string)
    ensures r == dst + EncodeArg(a)
  {
    hide Line;
    r := CatLine(dst, '$', |a|);
    r := r + a;
    r := r + CRLF;
  }

  lemma {:induction false} EncodeArgsFront(args: seq<Bytes>)
    requires args != []
    ensures EncodeArgs(args) == EncodeArg(args[0]) + EncodeArgs(args[1..])
  {
    if |args| > 1 {
      var front, last := args[..|args| - 1], args[|args| - 1];
      EncodeArgsFront(front);
      assert front[1..] == args[1..][..|args| - 2];
      assert EncodeArgs(args[1..]) == EncodeArgs(front[1..]) + EncodeArg(last);
    } else {
      assert args[..0] == [] && args[1..] == [];
    }
  }

  // A command whose sizes fit the program's integers.
  predicate Sized(cmd: Command) {
    |cmd| >= 1 && |cmd| < 0x8000_0000 && forall i :: 0 <= i < |cmd| ==> |cmd[i]| < 0x8000_0000_0000_0000
  }

  // ------------------------------------------------------------------------- the reader

  // Short: the file ended.  Bad: not the format.  Broken: a read error before the end.
  datatype Read<T> = Got(value: T, next: nat) | Short | Bad | Broken

  const BUFFER: nat := 127  // fgets into 128 bytes

  // Where fgets stops: after a newline, after `room` bytes, or at the end of the file.
  function LineEnd(s: string, pos: nat, room: nat): (e: nat)
    requires pos <= |s|
    ensures pos <= e <= |s| && e - pos <= room
    ensures pos < |s| && room > 0 ==> e > pos
    decreases room
  {
    if pos == |s| || room == 0 then pos
    else if s[pos] == '\n' then pos + 1
    else LineEnd(s, pos + 1, room - 1)
  }

  function ToUnsigned(n: int): nat
  {
    if n < 0 then n % 0x1_0000_0000_0000_0000 else n
  }

  function ReadArg(s: string, pos: nat): (r: Read<Bytes>)
    requires pos <= |s|
    ensures r.Got? ==> pos < r.next <= |s|
  {
    if pos == |s| then Short
    else
      var e := LineEnd(s, pos, BUFFER);
      var buf := s[pos..e];
      if buf[0] != '$' then Bad
      else
        var len := ToUnsigned(ParseInt(buf, 1));
        if e + len + 2 > |s| then Short else Got(s[e..e + len], e + len + 2)
  }

  function ReadArgs(s: string, pos: nat, n: nat): (r: Read<seq<Bytes>>)
    requires pos <= |s|
    ensures r.Got? ==> pos <= r.next <= |s| && |r.value| == n
    decreases n
  {
    if n == 0 then Got([], pos)
    else
      match ReadArg(s, pos)
      case Got(a, next) => Prepend([a], ReadArgs(s, next, n - 1))
      case Short => Short
      case Bad => Bad
      case Broken => Broken
  }

  function Prepend(front: seq<Bytes>, r: Read<seq<Bytes>>): Read<seq<Bytes>> {
    if r.Got? then Got(front + r.value, r.next) else r
  }

  function ReadCommand(s: string, pos: nat): (r: Read<Command>)
    requires pos < |s|
    ensures r.Got? ==> pos < r.next <= |s|
  {
    var e := LineEnd(s, pos, BUFFER);
    var buf := s[pos..e];
    if buf[0] != '*' then Bad
    else if |buf| == 1 || buf[1] == '\0' then
      (if e == |s| && |buf| < BUFFER && buf[|buf| - 1] != '\n' then Short else Broken)
    else
      var argc := ParseInt(buf, 1);
      if argc < 1 then Bad else ReadArgs(s, e, argc)
  }

  // ------------------------------------------------------------------------- the loader

  datatype Kind = Multi | Exec | Plain | Unknown

  datatype State = State(executed: seq<Command>, multi: bool, queue: seq<Command>, validUpTo: nat, beforeMulti: nat)

  const FRESH: State := State([], false, [], 0, 0)

  // Run one command that ended at offset `end`.  Inside a transaction it is queued.
  function Execute(st: State, cmd: Command, kind: Kind, end: nat, loadTruncated: bool): State {
    var st1 := if kind.Multi? then st.(beforeMulti := st.validUpTo) else st;
    var st2 := if st1.multi && !kind.Exec? then st1.(queue := st1.queue + [cmd])
               else match kind
                    case Multi => st1.(multi := true, queue := [])
                    case Exec => st1.(multi := false, executed := st1.executed + st1.queue, queue := [])
                    case _ => st1.(executed := st1.executed + [cmd]);
    if loadTruncated then st2.(validUpTo := end) else st2
  }

  datatype Reason = UnknownCommand | FormatError | ReadError | UnexpectedEnd

  // Started(state, log): the server starts with `state` and the log as it is then on disk.
  datatype Outcome = EmptyLog | Started(state: State, log: string) | Exit(reason: Reason)

  function Truncate(s: string, st: State, loadTruncated: bool): Outcome
    requires st.validUpTo <= |s|
  {
    if loadTruncated then Started(st, s[..st.validUpTo]) else Exit(UnexpectedEnd)
  }

  function LoadFrom(s: string, pos: nat, st: State, kind: Bytes -> Kind, loadTruncated: bool): Outcome
    requires pos <= |s| && st.validUpTo <= |s| && st.beforeMulti <= |s|
    decreases |s| - pos
  {
    if pos == |s| then
      if st.multi then Truncate(s, st.(validUpTo := st.beforeMulti), loadTruncated) else Started(st, s)
    else
      match ReadCommand(s, pos)
      case Got(cmd, next) =>
        if |cmd| == 0 || kind(cmd[0]).Unknown? then Exit(UnknownCommand)
        else LoadFrom(s, next, Execute(st, cmd, kind(cmd[0]), next, loadTruncated), kind, loadTruncated)
      case Short => Truncate(s, st, loadTruncated)
      case Bad => Exit(FormatError)
      case Broken => Exit(ReadError)
  }

  function Load(s: string, kind: Bytes -> Kind, loadTruncated: bool): Outcome {
    if s == "" then EmptyLog else LoadFrom(s, 0, FRESH, kind, loadTruncated)
  }

  method FGets(s: string, pos: nat) returns (buf: string, next: nat)
    requires pos < |s|
    ensures next == LineEnd(s, pos, BUFFER) && buf == s[pos..next]
  {
    next := pos;
    while next < |s| && next - pos < BUFFER
      invariant pos <= next <= |s| && next - pos <= BUFFER
      invariant LineEnd(s, pos, BUFFER) == LineEnd(s, next, BUFFER - (next - pos))
    {
      next := next + 1;
      if s[next - 1] == '\n' {
        break;
      }
    }
    buf := s[pos..next];
  }

  // The loader, on a log without an RDB preamble.
  method LoadAppendOnlyFile(s: string, kind: Bytes -> Kind, loadTruncated: bool) returns (r: Outcome)
    ensures r == Load(s, kind, loadTruncated)
  {
    if |s| == 0 {
      return EmptyLog;
    }
    var st, pos := FRESH, 0;
    while pos < |s|
      invariant pos <= |s| && st.validUpTo <= |s| && st.beforeMulti <= |s|
      invariant Load(s, kind, loadTruncated) == LoadFrom(s, pos, st, kind, loadTruncated)
    {
      var cmd := LoadCommand(s, pos);
      match cmd
      case Got(argv, next) =>
        if |argv| == 0 || kind(argv[0]).Unknown? {
          return Exit(UnknownCommand);
        }
        var k := kind(argv[0]);
        st := RunCommand(st, argv, k, next, loadTruncated);
        pos := next;
      case Short => return Truncate(s, st, loadTruncated);
      case Bad => return Exit(FormatError);
      case Broken => return Exit(ReadError);
    }
    if st.multi {
      return Truncate(s, st.(validUpTo := st.beforeMulti), loadTruncated);
    }
    r := Started(st, s);
  }

  method RunCommand(st0: State, argv: Command, kind: Kind, end: nat, loadTruncated: bool) returns (st: State)
    ensures st == Execute(st0, argv, kind, end, loadTruncated)
  {
    st := st0;
    if kind.Multi? {
      st := st.(beforeMulti := st.validUpTo);
    }
    if st.multi && !kind.Exec? {
      st := st.(queue := st.queue + [argv]);
    } else if kind.Multi? {
      st := st.(multi := true, queue := []);
    } else if kind.Exec? {
      st := st.(multi := false, executed := st.executed + st.queue, queue := []);
    } else {
      st := st.(executed := st.executed + [argv]);
    }
    if loadTruncated {
      st := st.(validUpTo := end);
    }
  }

  method LoadCommand(s: string, pos: nat) returns (r: Read<Command>)
    requires pos < |s|
    ensures r == ReadCommand(s, pos)
  {
    var buf, at := FGets(s, pos);
    if buf[0] != '*' {
      return Bad;
    }
    if |buf| == 1 || buf[1] == '\0' {
      return if at == |s| && |buf| < BUFFER && buf[|buf| - 1] != '\n' then Short else Broken;
    }
    var argc := ParseInt(buf, 1);
    if argc < 1 {
      return Bad;
    }
    r := LoadArgs(s, at, argc);
  }

  method LoadArgs(s: string, start: nat, argc: nat) returns (r: Read<Command>)
    requires start <= |s|
    ensures r == ReadArgs(s, start, argc)
  {
    hide ReadArg;
    var argv: Command := [];
    var next: nat := start;
    PrependNone(ReadArgs(s, start, argc));
    for j := 0 to argc
      invariant next <= |s|
      invariant ReadArgs(s, start, argc) == Prepend(argv, ReadArgs(s, next, argc - j))
    {
      var arg := LoadArg(s, next);
      match arg
      case Got(a, after) =>
        PrependTwice(argv, a, ReadArgs(s, after, argc - j - 1));
        argv, next := argv + [a], after;
      case Short => return Short;
      case Bad => return Bad;
      case Broken => return Broken;
    }
    assert argv + [] == argv;
    r := Got(argv, next);
  }

  method LoadArg(s: string, pos: nat) returns (r: Read<Bytes>)
    requires pos <= |s|
    ensures r == ReadArg(s, pos)
  {
    if pos == |s| {
      return Short;
    }
    var buf, at := FGets(s, pos);
    if buf[0] != '$' {
      return Bad;
    }
    var len := ToUnsigned(ParseInt(buf, 1));
    if len > 0 && at + len > |s| {
      return Short;
    }
    var arg := s[at..at + len];
    at := at + len;
    if at + 2 > |s| {
      return Short;
    }
    r := Got(arg, at + 2);
  }

  lemma PrependNone(r: Read<seq<Bytes>>)
    ensures Prepend([], r) == r
  {
    if r.Got? {
      assert [] + r.value == r.value;
    }
  }

  lemma PrependTwice(front: seq<Bytes>, a: Bytes, r: Read<seq<Bytes>>)
    ensures Prepend(front, Prepend([a], r)) == Prepend(front + [a], r)
  {
    if r.Got? {
      assert front + ([a] + r.value) == front + [a] + r.value;
    }
  }

  // ----------------------------------------------------------------- reading what was written

  // s holds t at position p.
  predicate At(s: string, p: nat, t: string) {
    p + |t| <= |s| && s[p..p + |t|] == t
  }

  lemma AtConcat(s: string, p: nat, t: string, u: string)
    requires At(s, p, t + u)
    ensures At(s, p, t) && At(s, p + |t|, u)
  {
    assert s[p..p + |t|] == s[p..p + |t + u|][..|t|];
    assert s[p + |t|..p + |t| + |u|] == s[p..p + |t + u|][|t|..];
  }

  lemma {:induction false} LineEndAt(s: string, p: nat, e: nat, room: nat)
    requires p < e <= |s| && e - p <= room && s[e - 1] == '\n'
    requires forall i :: p <= i < e - 1 ==> s[i] != '\n'
    ensures LineEnd(s, p, room) == e
    decreases room
  {
    if p < e - 1 {
      LineEndAt(s, p + 1, e, room - 1);
    }
  }

  // A whole line: where it ends, and the number in it.
  lemma LineRead(s: string, p: nat, c: char, n: nat)
    requires At(s, p, Line(c, n)) && c != '\n' && n < 0x8000_0000_0000_0000
    ensures LineEnd(s, p, BUFFER) == p + |Line(c, n)|
    ensures ParseInt(s[p..p + |Line(c, n)|], 1) == n
    ensures s[p] == c
  {
    hide Decimal, ParseInt, LineEnd;
    var line := Line(c, n);
    ShortDecimal(n);
    forall i | 0 <= i < |line| ensures s[p + i] == line[i] {
      assert s[p..p + |line|][i] == line[i];
    }
    LineEndAt(s, p, p + |line|, BUFFER);
    assert line[1..1 + |Decimal(n)|] == Decimal(n);
    ParseDecimal(line, 1, n);
  }

  // A 63-bit number takes at most 19 digits.
  lemma ShortDecimal(n: nat)
    requires n < 0x8000_0000_0000_0000
    ensures |Decimal(n)| <= 19
  {
    Pow10At19();
    DecimalLength(n, 19);
  }

  lemma Pow10At19()
    ensures Pow10(19) == 10_000_000_000_000_000_000
  {
    assert Pow10(5) == 100_000;
    assert Pow10(10) == 10_000_000_000;
    assert Pow10(15) == 1_000_000_000_000_000;
  }

  lemma ArgRead(s: string, p: nat, a: Bytes)
    requires At(s, p, EncodeArg(a)) && |a| < 0x8000_0000_0000_0000
    ensures ReadArg(s, p) == Got(a, p + |EncodeArg(a)|)
  {
    hide Decimal, ParseInt, LineEnd;
    var line := Line('$', |a|);
    AtConcat(s, p, line + a, CRLF);
    AtConcat(s, p, line, a);
    LineRead(s, p, '$', |a|);
  }

  lemma NoArgs()
    ensures EncodeArgs([]) == ""
  {}

  lemma {:induction false} ArgsRead(s: string, p: nat, args: seq<Bytes>)
    requires At(s, p, EncodeArgs(args)) && forall i :: 0 <= i < |args| ==> |args[i]| < 0x8000_0000_0000_0000
    ensures ReadArgs(s, p, |args|) == Got(args, p + |EncodeArgs(args)|)
    decreases |args|
  {
    hide EncodeArg, ReadArg, EncodeArgs;
    if args == [] {
      assert EncodeArgs(args) == "" by { NoArgs(); }
    } else {
      EncodeArgsFront(args);
      AtConcat(s, p, EncodeArg(args[0]), EncodeArgs(args[1..]));
      ArgRead(s, p, args[0]);
      ArgsRead(s, p + |EncodeArg(args[0])|, args[1..]);
      assert [args[0]] + args[1..] == args;
    }
  }

  // What is written is read back, wherever it stands in the log.
  lemma CommandRead(s: string, p: nat, cmd: Command)
    requires At(s, p, Encode(cmd)) && Sized(cmd)
    ensures ReadCommand(s, p) == Got(cmd, p + |Encode(cmd)|)
  {
    hide Decimal, EncodeArgs, ReadArgs, ParseInt, LineEnd;
    var line := Line('*', |cmd|);
    AtConcat(s, p, line, EncodeArgs(cmd));
    LineRead(s, p, '*', |cmd|);
    var buf := s[p..p + |line|];
    assert buf == line;
    assert buf[1] == Decimal(|cmd|)[0];
    ArgsRead(s, p + |line|, cmd);
  }

  // --------------------------------------------------------------------- logs cut short

  // s ends with the first k characters of t, from position p.
  predicate CutAt(s: string, p: nat, t: string, k: nat) {
    k <= |t| && |s| == p + k && s[p..] == t[..k]
  }

  lemma CutInside(s: string, p: nat, t: string, u: string, k: nat)
    requires CutAt(s, p, t + u, k)
    ensures k <= |t| ==> CutAt(s, p, t, k)
    ensures k >= |t| ==> At(s, p, t) && CutAt(s, p + |t|, u, k - |t|)
  {
    if k <= |t| {
      assert (t + u)[..k] == t[..k];
    }
    if k >= |t| {
      assert s[p..p + |t|] == s[p..][..|t|] == (t + u)[..k][..|t|] == t;
      assert s[p + |t|..] == s[p..][|t|..] == (t + u)[..k][|t|..] == u[..k - |t|];
    }
  }

  lemma {:induction false} LineEndCut(s: string, p: nat, room: nat)
    requires p <= |s| && |s| - p <= room && forall i :: p <= i < |s| ==> s[i] != '\n'
    ensures LineEnd(s, p, room) == |s|
    decreases room
  {
    if p < |s| {
      LineEndCut(s, p + 1, room - 1);
    }
  }

  // A line cut short is all that is left of the file.
  lemma LineCut(s: string, p: nat, c: char, n: nat, k: nat)
    requires CutAt(s, p, Line(c, n), k) && 0 < k < |Line(c, n)| && c != '\n' && n < 0x8000_0000_0000_0000
    ensures LineEnd(s, p, BUFFER) == |s| && s[p] == c && |s| - p < BUFFER && s[|s| - 1] != '\n'
    ensures forall i :: 0 <= i < k ==> s[p + i] == Line(c, n)[i]
  {
    hide Decimal, LineEnd;
    var line := Line(c, n);
    ShortDecimal(n);
    assert forall i :: 0 <= i < k ==> s[p + i] == s[p..][i] == line[i];
    LineEndCut(s, p, BUFFER);
  }

  lemma ArgCut(s: string, p: nat, a: Bytes, k: nat)
    requires CutAt(s, p, EncodeArg(a), k) && k < |EncodeArg(a)| && |a| < 0x8000_0000_0000_0000
    ensures ReadArg(s, p) == Short
  {
    hide Decimal, ParseInt, LineEnd;
    var line := Line('$', |a|);
    if k > 0 {
      CutInside(s, p, line + a, CRLF, k);
      if k < |line| {
        assert (line + a + CRLF)[..k] == line[..k];
        LineCut(s, p, '$', |a|, k);
      } else {
        assert line + a + CRLF == line + (a + CRLF);
        CutInside(s, p, line, a + CRLF, k);
        LineRead(s, p, '$', |a|);
      }
    }
  }

  lemma {:induction false} ArgsCut(s: string, p: nat, args: seq<Bytes>, k: nat)
    requires CutAt(s, p, EncodeArgs(args), k) && k < |EncodeArgs(args)|
    requires forall i :: 0 <= i < |args| ==> |args[i]| < 0x8000_0000_0000_0000
    ensures ReadArgs(s, p, |args|) == Short
    decreases |args|
  {
    hide EncodeArg, ReadArg;
    if args != [] {
      EncodeArgsFront(args);
      var first := EncodeArg(args[0]);
      CutInside(s, p, first, EncodeArgs(args[1..]), k);
      if k < |first| {
        ArgCut(s, p, args[0], k);
      } else {
        ArgRead(s, p, args[0]);
        ArgsCut(s, p + |first|, args[1..], k - |first|);
      }
    }
  }

  // A command cut anywhere is recognised as the end of the file.
  lemma CommandCut(s: string, p: nat, cmd: Command, k: nat)
    requires CutAt(s, p, Encode(cmd), k) && 0 < k < |Encode(cmd)| && Sized(cmd)
    ensures ReadCommand(s, p) == Short
  {
    hide Decimal, EncodeArgs, ParseInt, LineEnd;
    var line := Line('*', |cmd|);
    CutInside(s, p, line, EncodeArgs(cmd), k);
    if k < |line| {
      LineCut(s, p, '*', |cmd|, k);
      var buf := s[p..|s|];
      if k > 1 {
        assert buf[1] == line[1] == Decimal(|cmd|)[0];
        ParsePositive(buf, 1);
      }
    } else {
      LineRead(s, p, '*', |cmd|);
      var buf := s[p..p + |line|];
      assert buf == line;
      assert buf[1] == Decimal(|cmd|)[0];
      ArgsCut(s, p + |line|, cmd, k - |line|);
    }
  }

  // ----------------------------------------------------------------------- whole logs

  ghost predicate Loadable(cmds: seq<Command>, kind: Bytes -> Kind) {
    forall i :: 0 <= i < |cmds| ==> |cmds[i]| > 0 && Sized(cmds[i]) && !kind(cmds[i][0]).Unknown?
  }

  // The state after running commands whose text starts at offset `at`.
  function After(cmds: seq<Command>, at: nat, st: State, kind: Bytes -> Kind): State
    requires forall i :: 0 <= i < |cmds| ==> |cmds[i]| > 0
  {
    if cmds == [] then st
    else
      var end := at + |Encode(cmds[0])|;
      After(cmds[1..], end, Execute(st, cmds[0], kind(cmds[0][0]), end, true), kind)
  }

  // How many commands are complete in the first k characters.
  function Complete(cmds: seq<Command>, k: nat): (m: nat)
    ensures m <= |cmds|
  {
    if cmds == [] || |Encode(cmds[0])| > k then 0 else 1 + Complete(cmds[1..], k - |Encode(cmds[0])|)
  }

  lemma {:induction false} CompleteFits(cmds: seq<Command>, k: nat)
    ensures |EncodeAll(cmds[..Complete(cmds, k)])| <= k
    ensures Complete(cmds, k) < |cmds| ==>
              k < |EncodeAll(cmds[..Complete(cmds, k)])| + |Encode(cmds[Complete(cmds, k)])|
  {
    hide Encode;
    var m := Complete(cmds, k);
    if m > 0 {
      CompleteFits(cmds[1..], k - |Encode(cmds[0])|);
      assert cmds[..m][1..] == cmds[1..][..m - 1];
    }
  }

  // What the loader makes of a log ending here, at a command boundary or not.
  function Ending(s: string, st: State, boundary: bool): Outcome
    requires st.validUpTo <= |s| && st.beforeMulti <= |s|
  {
    if !boundary then Started(st, s[..st.validUpTo])
    else if st.multi then Started(st.(validUpTo := st.beforeMulti), s[..st.beforeMulti])
    else Started(st, s)
  }

  lemma {:induction false} LoadFromPrefix(s: string, pos: nat, cmds: seq<Command>, k: nat, st: State, kind: Bytes -> Kind)
    requires Loadable(cmds, kind) && CutAt(s, pos, EncodeAll(cmds), k)
    requires st.validUpTo <= |s| && st.beforeMulti <= |s|
    ensures var m := Complete(cmds, k);
            var st' := After(cmds[..m], pos, st, kind);
            && st'.validUpTo <= |s| && st'.beforeMulti <= |s|
            && LoadFrom(s, pos, st, kind, true) == Ending(s, st', k == |EncodeAll(cmds[..m])|)
            && (m > 0 ==> st'.validUpTo == pos + |EncodeAll(cmds[..m])|)
    decreases |cmds|
  {
    hide Encode, ReadCommand, Execute, Sized;
    var m := Complete(cmds, k);
    if k == 0 {
      if cmds != [] {
        EncodeNotEmpty(cmds[0]);
      }
      assert m == 0 && cmds[..0] == [];
    } else if m == 0 {
      assert cmds[..0] == [];
      CutInside(s, pos, Encode(cmds[0]), EncodeAll(cmds[1..]), k);
      CommandCut(s, pos, cmds[0], k);
    } else {
      var c := Encode(cmds[0]);
      CutInside(s, pos, c, EncodeAll(cmds[1..]), k);
      CommandRead(s, pos, cmds[0]);
      var st1 := Execute(st, cmds[0], kind(cmds[0][0]), pos + |c|, true);
      ExecuteOffsets(st, cmds[0], kind(cmds[0][0]), pos + |c|);
      LoadFromPrefix(s, pos + |c|, cmds[1..], k - |c|, st1, kind);
      assert cmds[..m][1..] == cmds[1..][..m - 1];
      assert cmds[..m][0] == cmds[0];
    }
  }

  lemma ExecuteOffsets(st: State, cmd: Command, kind: Kind, end: nat)
    ensures var st' := Execute(st, cmd, kind, end, true);
            st'.validUpTo == end && (st'.beforeMulti == st.beforeMulti || st'.beforeMulti == st.validUpTo)
  {}

  lemma EncodeNotEmpty(cmd: Command)
    ensures |Encode(cmd)| > 0
  {}

  // Loading any non-empty prefix of a log runs exactly the complete commands.  A log cut inside
  // a command is truncated to them; one that ends inside a transaction is rolled back.
  lemma LoadOfPrefix(cmds: seq<Command>, k: nat, kind: Bytes -> Kind)
    requires Loadable(cmds, kind) && 0 < k <= |EncodeAll(cmds)|
    ensures var m := Complete(cmds, k);
            var st := After(cmds[..m], 0, FRESH, kind);
            var s := EncodeAll(cmds)[..k];
            && st.validUpTo == |EncodeAll(cmds[..m])| <= k && st.beforeMulti <= k
            && Load(s, kind, true) == Ending(s, st, k == |EncodeAll(cmds[..m])|)
  {
    hide LoadFrom, Encode;
    var s := EncodeAll(cmds)[..k];
    LoadFromPrefix(s, 0, cmds, k, FRESH, kind);
    CompleteFits(cmds, k);
  }

  ghost predicate AllPlain(cmds: seq<Command>, kind: Bytes -> Kind) {
    forall i :: 0 <= i < |cmds| ==> |cmds[i]| > 0 && kind(cmds[i][0]).Plain?
  }

  // Outside transactions, every command is executed, in order.
  lemma {:induction false} AfterPlain(cmds: seq<Command>, at: nat, st: State, kind: Bytes -> Kind)
    requires AllPlain(cmds, kind) && !st.multi
    ensures var st' := After(cmds, at, st, kind);
            !st'.multi && st'.beforeMulti == st.beforeMulti && st'.executed == st.executed + cmds
    decreases |cmds|
  {
    hide Encode;
    if cmds == [] {
      assert st.executed + cmds == st.executed;
    } else {
      var end := at + |Encode(cmds[0])|;
      AfterPlain(cmds[1..], end, Execute(st, cmds[0], kind(cmds[0][0]), end, true), kind);
      assert st.executed + [cmds[0]] + cmds[1..] == st.executed + cmds;
    }
  }

  // Inside one, every command is queued.
  lemma {:induction false} AfterQueued(cmds: seq<Command>, at: nat, st: State, kind: Bytes -> Kind)
    requires AllPlain(cmds, kind) && st.multi
    ensures var st' := After(cmds, at, st, kind);
            st'.multi && st'.beforeMulti == st.beforeMulti && st'.executed == st.executed && st'.queue == st.queue + cmds
    decreases |cmds|
  {
    hide Encode;
    if cmds == [] {
      assert st.queue + cmds == st.queue;
    } else {
      var end := at + |Encode(cmds[0])|;
      AfterQueued(cmds[1..], end, Execute(st, cmds[0], kind(cmds[0][0]), end, true), kind);
      assert st.queue + [cmds[0]] + cmds[1..] == st.queue + cmds;
    }
  }

  lemma PlainPrefix(cmds: seq<Command>, k: nat, kind: Bytes -> Kind)
    requires Loadable(cmds, kind) && 0 < k <= |EncodeAll(cmds)|
    requires AllPlain(cmds, kind)
    ensures var r := Load(EncodeAll(cmds)[..k], kind, true);
            var done := cmds[..Complete(cmds, k)];
            && r.Started? && r.state.executed == done
            && r.log == EncodeAll(done) && r.state.validUpTo == |EncodeAll(done)|
  {
    hide Load, Encode;
    var m := Complete(cmds, k);
    var st := After(cmds[..m], 0, FRESH, kind);
    LoadOfPrefix(cmds, k, kind);
    AfterPlain(cmds[..m], 0, FRESH, kind);
    assert [] + cmds[..m] == cmds[..m];
    PrefixText(cmds, m);
    assert EncodeAll(cmds)[..k][..st.validUpTo] == EncodeAll(cmds)[..st.validUpTo];
  }

  lemma {:induction false} EncodeAllSplit(a: seq<Command>, b: seq<Command>)
    ensures EncodeAll(a + b) == EncodeAll(a) + EncodeAll(b)
    decreases |a|
  {
    hide Encode;
    if a == [] {
      assert a + b == b;
    } else {
      assert (a + b)[1..] == a[1..] + b;
      EncodeAllSplit(a[1..], b);
    }
  }

  lemma PrefixText(cmds: seq<Command>, m: nat)
    requires m <= |cmds|
    ensures |EncodeAll(cmds[..m])| <= |EncodeAll(cmds)| && EncodeAll(cmds)[..|EncodeAll(cmds[..m])|] == EncodeAll(cmds[..m])
  {
    EncodeAllSplit(cmds[..m], cmds[m..]);
    assert cmds[..m] + cmds[m..] == cmds;
  }

  lemma {:induction false} AfterSplit(a: seq<Command>, b: seq<Command>, at: nat, st: State, kind: Bytes -> Kind)
    requires forall i :: 0 <= i < |a| ==> |a[i]| > 0
    requires forall i :: 0 <= i < |b| ==> |b[i]| > 0
    ensures After(a + b, at, st, kind) == After(b, at + |EncodeAll(a)|, After(a, at, st, kind), kind)
    decreases |a|
  {
    hide Encode, Execute;
    if a == [] {
      assert a + b == b;
    } else {
      assert (a + b)[1..] == a[1..] + b;
      AfterSplit(a[1..], b, at + |Encode(a[0])|,
                 Execute(st, a[0], kind(a[0][0]), at + |Encode(a[0])|, true), kind);
    }
  }

  lemma {:induction false} AfterOffset(cmds: seq<Command>, at: nat, st: State, kind: Bytes -> Kind)
    requires forall i :: 0 <= i < |cmds| ==> |cmds[i]| > 0
    requires st.validUpTo == at
    ensures After(cmds, at, st, kind).validUpTo == at + |EncodeAll(cmds)|
    decreases |cmds|
  {
    hide Encode, Execute;
    if cmds != [] {
      var end := at + |Encode(cmds[0])|;
      ExecuteOffsets(st, cmds[0], kind(cmds[0][0]), end);
      AfterOffset(cmds[1..], end, Execute(st, cmds[0], kind(cmds[0][0]), end, true), kind);
    }
  }

  lemma LoadableConcat(a: seq<Command>, b: seq<Command>, kind: Bytes -> Kind)
    requires Loadable(a, kind) && Loadable(b, kind)
    ensures Loadable(a + b, kind)
  {}

  // The state inside a transaction opened after `before`.
  lemma InsideTransaction(before: seq<Command>, multi: Command, inside: seq<Command>, kind: Bytes -> Kind)
    requires Loadable(before, kind) && Loadable([multi], kind) && Loadable(inside, kind)
    requires |multi| > 0 && kind(multi[0]).Multi? && AllPlain(inside, kind)
    requires !After(before, 0, FRESH, kind).multi
    ensures Loadable(before + [multi] + inside, kind)
    ensures var st, st0 := After(before + [multi] + inside, 0, FRESH, kind), After(before, 0, FRESH, kind);
            st.multi && st.executed == st0.executed && st.queue == inside && st.beforeMulti == |EncodeAll(before)|
  {
    hide Encode, EncodeAll;
    LoadableConcat(before, [multi], kind);
    LoadableConcat(before + [multi], inside, kind);
    AfterOffset(before, 0, FRESH, kind);
    AfterSplit(before + [multi], inside, 0, FRESH, kind);
    AfterSplit(before, [multi], 0, FRESH, kind);
    var st0 := After(before, 0, FRESH, kind);
    var st1 := After(before + [multi], 0, FRESH, kind);
    OneMulti(multi, |EncodeAll(before)|, st0, kind);
    AfterQueued(inside, |EncodeAll(before + [multi])|, st1, kind);
    assert [] + inside == inside;
  }

  lemma OneMulti(multi: Command, at: nat, st: State, kind: Bytes -> Kind)
    requires |multi| > 0 && kind(multi[0]).Multi? && !st.multi
    ensures var st' := After([multi], at, st, kind);
            st'.multi && st'.executed == st.executed && st'.queue == [] && st'.beforeMulti == st.validUpTo
  {
    hide Encode;
  }

  // A log that ends at a command boundary inside an open transaction: nothing of the
  // transaction is executed, and the log is cut back to before its MULTI.
  lemma OpenTransactionRollsBack(before: seq<Command>, multi: Command, inside: seq<Command>, kind: Bytes -> Kind)
    requires Loadable(before, kind) && Loadable([multi], kind) && Loadable(inside, kind)
    requires |multi| > 0 && kind(multi[0]).Multi? && AllPlain(inside, kind)
    requires !After(before, 0, FRESH, kind).multi
    ensures var r := Load(EncodeAll(before + [multi] + inside), kind, true);
            && r.Started? && r.log == EncodeAll(before) && r.state.validUpTo == |EncodeAll(before)|
            && r.state.executed == After(before, 0, FRESH, kind).executed
  {
    var all := before + [multi] + inside;
    var text := EncodeAll(all);
    hide Encode, Load, Execute;
    InsideTransaction(before, multi, inside, kind);
    assert |text| > 0 by {
      EncodeNotEmpty(all[0]);
    }
    LoadOfPrefix(all, |text|, kind);
    WholeIsComplete(all);
    assert all[..|all|] == all && text[..|text|] == text;
    PrefixText(all, |before|);
    assert all[..|before|] == before;
  }

  lemma {:induction false} WholeIsComplete(cmds: seq<Command>)
    ensures Complete(cmds, |EncodeAll(cmds)|) == |cmds|
  {
    hide Encode;
    if cmds != [] {
      WholeIsComplete(cmds[1..]);
    }
  }

  // The log the server starts with is left inside a transaction exactly when it was cut in
  // the middle of a command of an open transaction.
  lemma LeftOpenExactly(cmds: seq<Command>, k: nat, kind: Bytes -> Kind)
    requires Loadable(cmds, kind) && 0 < k <= |EncodeAll(cmds)|
    ensures var m := Complete(cmds, k);
            var st := After(cmds[..m], 0, FRESH, kind);
            var r := Load(EncodeAll(cmds)[..k], kind, true);
            r.Started? && ((st.multi && r.log == EncodeAll(cmds[..m])) <==> (st.multi && k != |EncodeAll(cmds[..m])|))
  {
    hide Encode, Load, Execute;
    var m := Complete(cmds, k);
    var st := After(cmds[..m], 0, FRESH, kind);
    LoadOfPrefix(cmds, k, kind);
    PrefixText(cmds, m);
    assert EncodeAll(cmds)[..k][..st.validUpTo] == EncodeAll(cmds)[..st.validUpTo];
    if st.multi {
      MultiWasBefore(cmds[..m], 0, FRESH, kind);
    }
  }

  lemma {:induction false} CompleteCut(cmds: seq<Command>, next: Command, k: nat)
    requires |EncodeAll(cmds)| <= k < |EncodeAll(cmds)| + |Encode(next)|
    ensures Complete(cmds + [next], k) == |cmds|
  {
    hide Encode;
    if cmds != [] {
      assert (cmds + [next])[1..] == cmds[1..] + [next];
      CompleteCut(cmds[1..], next, k - |Encode(cmds[0])|);
    }
  }

  // Such logs exist: whatever the transaction, cut any command of it in two.
  lemma CutInsideTransaction(before: seq<Command>, multi: Command, inside: seq<Command>, next: Command, k: nat,
                             kind: Bytes -> Kind)
    requires Loadable(before, kind) && Loadable([multi], kind) && Loadable(inside, kind) && Loadable([next], kind)
    requires |multi| > 0 && kind(multi[0]).Multi? && AllPlain(inside, kind) && !After(before, 0, FRESH, kind).multi
    requires var size := |EncodeAll(before + [multi] + inside)|; size < k < size + |Encode(next)|
    ensures var begun := before + [multi] + inside;
            var all := EncodeAll(begun + [next]);
            k <= |all| && Loadable(begun + [next], kind) && After(begun, 0, FRESH, kind).multi
            && var r := Load(all[..k], kind, true);
               r.Started? && r.log == EncodeAll(begun) && r.state.multi
               && r.state.executed == After(before, 0, FRESH, kind).executed
  {
    hide Encode, Load, Execute;
    var begun := before + [multi] + inside;
    var all := begun + [next];
    InsideTransaction(before, multi, inside, kind);
    LoadableConcat(begun, [next], kind);
    EncodeAllSplit(begun, [next]);
    assert EncodeAll([next]) == Encode(next) by { OneText(next); }
    CompleteCut(begun, next, k);
    assert all[..|begun|] == begun;
    LoadOfPrefix(all, k, kind);
    LeftOpenExactly(all, k, kind);
  }

  lemma OneText(cmd: Command)
    ensures EncodeAll([cmd]) == Encode(cmd)
  {
    hide Encode;
    assert [cmd][1..] == [];
    assert Encode(cmd) + "" == Encode(cmd);
  }

  function OnlyMulti(name: Bytes): Kind {
    if name == "MULTI" then Multi else Plain
  }

  // For example the log of MULTI and one character of what follows: the server starts, and the
  // log it goes on with consists of MULTI.
  lemma LeftOpenLog()
    ensures var log := EncodeAll([["MULTI"]]) + "*";
            var r := Load(log, OnlyMulti, true);
            r.Started? && r.log == EncodeAll([["MULTI"]]) && r.state.multi && r.state.executed == []
  {
    hide Encode, Load, EncodeAll;
    var multi, next := ["MULTI"], ["GET", "k"];
    var size := |EncodeAll([multi])|;
    assert [] + [multi] + [] == [multi];
    NextText(next);
    CutInsideTransaction([], multi, [], next, size + 1, OnlyMulti);
    EncodeAllSplit([multi], [next]);
    OneText(next);
    var all := EncodeAll([multi] + [next]);
    assert all[..size + 1] == EncodeAll([multi]) + "*";
  }

  lemma NextText(cmd: Command)
    requires |cmd| > 0
    ensures |Encode(cmd)| > 1 && Encode(cmd)[0] == '*'
  {}

  // An open transaction began strictly before the end of the log.
  lemma {:induction false} MultiWasBefore(cmds: seq<Command>, at: nat, st: State, kind: Bytes -> Kind)
    requires forall i :: 0 <= i < |cmds| ==> |cmds[i]| > 0
    requires st.validUpTo == at && (st.multi ==> st.beforeMulti < at)
    ensures var st' := After(cmds, at, st, kind); st'.multi ==> st'.beforeMulti < st'.validUpTo
    decreases |cmds|
  {
    if cmds != [] {
      EncodeNotEmpty(cmds[0]);
      hide Encode;
      var end := at + |Encode(cmds[0])|;
      MultiWasBefore(cmds[1..], end, Execute(st, cmds[0], kind(cmds[0][0]), end, true), kind);
    }
  }
}
