/**
What the loader makes of logs of every kind: with transactions, with garbage, with commands it
does not know, and cut short when it must not repair them.
*/
module AofLoading {
  import opened AofFormat

  // The same up to offsets, which are not kept when the log must not be cut.
  predicate SameData(a: State, b: State) {
    a.executed == b.executed && a.multi == b.multi && a.queue == b.queue
  }

  ghost predicate NoneEmpty(cmds: seq<Command>) {
    forall i :: 0 <= i < |cmds| ==> |cmds[i]| > 0
  }

  // What the strict loader says, given what the tolerant one says.
  ghost predicate Strictly(s: string, tolerant: Outcome, strict: Outcome) {
    match tolerant
    case EmptyLog => strict == EmptyLog
    case Exit(reason) => strict == Exit(reason)
    case Started(st, log) =>
      if log == s then strict.Started? && strict.log == s && SameData(strict.state, st)
      else strict == Exit(UnexpectedEnd)
  }

  // Positions lag behind the reading.
  predicate Behind(st: State, pos: nat) {
    st.validUpTo <= pos && st.beforeMulti <= pos && (st.multi ==> st.beforeMulti < pos)
  }

  lemma ExecuteBoth(st: State, st': State, cmd: Command, kind: Kind, pos: nat, end: nat)
    requires SameData(st, st') && Behind(st', pos) && pos < end
    ensures var a, b := AofFormat.Execute(st, cmd, kind, end, false), AofFormat.Execute(st', cmd, kind, end, true);
      SameData(a, b) && Behind(b, end)
      && a.validUpTo == st.validUpTo && a.beforeMulti in {st.beforeMulti, st.validUpTo}
  {
  }

  lemma {:induction false} StrictFrom(s: string, pos: nat, st: State, st': State, kind: Bytes -> Kind)
    requires pos <= |s| && SameData(st, st') && Behind(st', pos) && st.validUpTo <= |s| && st.beforeMulti <= |s|
    ensures Strictly(s, LoadFrom(s, pos, st', kind, true), LoadFrom(s, pos, st, kind, false))
    decreases |s| - pos
  {
    hide ReadCommand, AofFormat.Execute;
    if pos < |s| {
      match ReadCommand(s, pos)
      case Got(cmd, next) =>
        if |cmd| != 0 && !kind(cmd[0]).Unknown? {
          var k := kind(cmd[0]);
          ExecuteBoth(st, st', cmd, k, pos, next);
          StrictFrom(s, next, AofFormat.Execute(st, cmd, k, next, false), AofFormat.Execute(st', cmd, k, next, true), kind);
        }
      case _ =>
    }
  }

  /** Whatever the bytes of the log: a server that may not cut it starts exactly with those logs
      that one that may would leave whole, with the same commands executed; it exits where the
      other would cut, and both exit for the same reason otherwise. */
  lemma StrictExactly(s: string, kind: Bytes -> Kind)
    ensures Strictly(s, Load(s, kind, true), Load(s, kind, false))
  {
    if s != "" {
      StrictFrom(s, 0, FRESH, FRESH, kind);
    }
  }

  // Complete commands are read before whatever follows them.
  lemma {:induction false} LoadFromTail(s: string, pos: nat, cmds: seq<Command>, st: State, kind: Bytes -> Kind)
    requires Loadable(cmds, kind) && AofFormat.At(s, pos, EncodeAll(cmds))
    requires st.validUpTo <= |s| && st.beforeMulti <= |s|
    ensures var st' := AofFormat.After(cmds, pos, st, kind);
      && st'.validUpTo <= |s| && st'.beforeMulti <= |s|
      && LoadFrom(s, pos, st, kind, true) == LoadFrom(s, pos + |EncodeAll(cmds)|, st', kind, true)
    decreases |cmds|
  {
    hide Encode, ReadCommand, AofFormat.Execute, Sized;
    if cmds != [] {
      var c := Encode(cmds[0]);
      AtConcat(s, pos, c, EncodeAll(cmds[1..]));
      EncodeNotEmpty(cmds[0]);
      CommandRead(s, pos, cmds[0]);
      ExecuteOffsets(st, cmds[0], kind(cmds[0][0]), pos + |c|);
      LoadFromTail(s, pos + |c|, cmds[1..], AofFormat.Execute(st, cmds[0], kind(cmds[0][0]), pos + |c|, true), kind);
    }
  }

  lemma AtMiddle(t: string, u: string, v: string)
    ensures AofFormat.At(t + (u + v), |t|, u)
  {
  }

  // What follows the complete commands decides.
  lemma LoadTail(cmds: seq<Command>, rest: string, kind: Bytes -> Kind)
    requires Loadable(cmds, kind) && rest != ""
    ensures var s, st := EncodeAll(cmds) + rest, AofFormat.After(cmds, 0, FRESH, kind);
      && st.validUpTo <= |s| && st.beforeMulti <= |s|
      && Load(s, kind, true) == LoadFrom(s, |EncodeAll(cmds)|, st, kind, true)
  {
    hide Load, LoadFrom, EncodeAll, AofFormat.After, AofFormat.At, Loadable;
    AtMiddle("", EncodeAll(cmds), rest);
    assert "" + (EncodeAll(cmds) + rest) == EncodeAll(cmds) + rest;
    LoadFromTail(EncodeAll(cmds) + rest, 0, cmds, FRESH, kind);
    LoadStarts(EncodeAll(cmds) + rest, kind);
  }

  lemma LoadStarts(s: string, kind: Bytes -> Kind)
    requires s != ""
    ensures Load(s, kind, true) == LoadFrom(s, 0, FRESH, kind, true)
  {
  }

  lemma ExitAt(s: string, pos: nat, st: State, kind: Bytes -> Kind)
    requires pos < |s| && st.validUpTo <= |s| && st.beforeMulti <= |s|
    ensures ReadCommand(s, pos).Bad? ==> LoadFrom(s, pos, st, kind, true) == Exit(FormatError)
    ensures var r := ReadCommand(s, pos);
      r.Got? && |r.value| > 0 && kind(r.value[0]).Unknown? ==> LoadFrom(s, pos, st, kind, true) == Exit(UnknownCommand)
  {
    hide ReadCommand;
  }

  /** After any commands, text that does not start as a command stops the server; the log is not
      cut. */
  lemma GarbageRefused(cmds: seq<Command>, rest: string, kind: Bytes -> Kind, tolerant: bool)
    requires Loadable(cmds, kind) && rest != "" && rest[0] != '*'
    ensures Load(EncodeAll(cmds) + rest, kind, tolerant) == Exit(FormatError)
  {
    var s, pos := EncodeAll(cmds) + rest, |EncodeAll(cmds)|;
    assert ReadCommand(s, pos).Bad? by { assert s[pos] == rest[0]; }
    hide *;
    LoadTail(cmds, rest, kind);
    ExitAt(s, pos, AofFormat.After(cmds, 0, FRESH, kind), kind);
    ExitsAlike(s, kind, tolerant);
  }

  /** After any commands, one that the server does not know stops it; the log is not cut. */
  lemma UnknownRefused(cmds: seq<Command>, cmd: Command, more: string, kind: Bytes -> Kind, tolerant: bool)
    requires Loadable(cmds, kind) && Sized(cmd) && kind(cmd[0]).Unknown?
    ensures Load(EncodeAll(cmds) + (Encode(cmd) + more), kind, tolerant) == Exit(UnknownCommand)
  {
    var rest := Encode(cmd) + more;
    var s, pos := EncodeAll(cmds) + rest, |EncodeAll(cmds)|;
    assert |cmd| > 0;
    hide *;
    AtMiddle(EncodeAll(cmds), Encode(cmd), more);
    EncodeNotEmpty(cmd);
    CommandRead(s, pos, cmd);
    LoadTail(cmds, rest, kind);
    ExitAt(s, pos, AofFormat.After(cmds, 0, FRESH, kind), kind);
    ExitsAlike(s, kind, tolerant);
  }

  lemma ExitsAlike(s: string, kind: Bytes -> Kind, tolerant: bool)
    requires Load(s, kind, true).Exit?
    ensures Load(s, kind, tolerant) == Load(s, kind, true)
  {
    hide Load;
    StrictExactly(s, kind);
  }

  /** After any commands, an argument that is not announced by its length stops the server. */
  lemma ArgumentRefused(cmds: seq<Command>, n: nat, rest: string, kind: Bytes -> Kind, tolerant: bool)
    requires Loadable(cmds, kind) && 1 <= n < 0x8000_0000 && rest != "" && rest[0] != '$'
    ensures Load(EncodeAll(cmds) + (Line('*', n) + rest), kind, tolerant) == Exit(FormatError)
  {
    var line := Line('*', n);
    var s, pos := EncodeAll(cmds) + (line + rest), |EncodeAll(cmds)|;
    assert s[pos + |line|] == rest[0];
    assert line + rest != "";
    ArgumentRead(s, pos, n);
    hide *;
    LoadTail(cmds, line + rest, kind);
    ExitAt(s, pos, AofFormat.After(cmds, 0, FRESH, kind), kind);
    ExitsAlike(s, kind, tolerant);
  }

  lemma ArgumentRead(s: string, pos: nat, n: nat)
    requires AofFormat.At(s, pos, Line('*', n)) && 1 <= n < 0x8000_0000
    requires pos + |Line('*', n)| < |s| && s[pos + |Line('*', n)|] != '$'
    ensures ReadCommand(s, pos).Bad?
  {
    hide Decimal, LineEnd, ParseInt;
    var line := Line('*', n);
    LineRead(s, pos, '*', n);
    assert s[pos..pos + |line|] == line && line[1] == Decimal(n)[0];
  }

  lemma {:induction false} NotEmptyFrom(s: string, pos: nat, st: State, kind: Bytes -> Kind, tolerant: bool)
    requires pos <= |s| && st.validUpTo <= |s| && st.beforeMulti <= |s|
    ensures LoadFrom(s, pos, st, kind, tolerant) != EmptyLog
    decreases |s| - pos
  {
    hide ReadCommand;
    if pos < |s| && ReadCommand(s, pos).Got? {
      var r := ReadCommand(s, pos);
      if |r.value| != 0 && !kind(r.value[0]).Unknown? {
        NotEmptyFrom(s, r.next, AofFormat.Execute(st, r.value, kind(r.value[0]), r.next, tolerant), kind, tolerant);
      }
    }
  }

  /** Only an empty file counts as no log. */
  lemma EmptyExactly(s: string, kind: Bytes -> Kind, tolerant: bool)
    ensures Load(s, kind, tolerant) == EmptyLog <==> s == ""
  {
    NotEmptyFrom(s, 0, FRESH, kind, tolerant);
  }

  // ------------------------------------------------------------------------ odd numbers

  lemma {:induction false} Blanks(s: string, i: nat, n: nat)
    requires i <= n <= |s| && (forall k :: i <= k < n ==> IsSpace(s[k])) && (n < |s| ==> !IsSpace(s[n]))
    ensures SkipSpaces(s, i) == n
    decreases n - i
  {
    if i < n {
      Blanks(s, i + 1, n);
    }
  }

  /** Numbers are read as atoi reads them: blanks and a sign may come first, anything may follow. */
  lemma NumberRead(blanks: string, sign: string, n: nat, rest: string)
    requires (forall i :: 0 <= i < |blanks| ==> IsSpace(blanks[i])) && sign in ["", "+", "-"]
    requires rest != "" ==> !IsDigit(rest[0])
    ensures ParseInt(blanks + sign + Decimal(n) + rest, 0) == if sign == "-" then 0 - n as int else n
  {
    hide Digits, SkipSpaces;
    var d := Decimal(n);
    hide Decimal;
    var s, b, p := blanks + sign + d + rest, |blanks|, |blanks| + |sign|;
    assert s[p..p + |d|] == d;
    assert s[b] == if sign == "" then d[0] else sign[0];
    assert s[p] == d[0] && IsDigit(s[p]);
    assert forall k :: 0 <= k < b ==> s[k] == blanks[k];
    Blanks(s, 0, b);
    Blanks(s, p, p);
    assert p + |d| < |s| ==> s[p + |d|] == rest[0];
    ParseDecimal(s, p, n);
  }

  // -------------------------------------------------------------------- a star and a NUL

  // Where reading a line stops without a newline and short of the buffer, there is none.
  lemma {:induction false} LineEndOpen(s: string, p: nat, room: nat)
    requires p <= |s|
    ensures var e := LineEnd(s, p, room);
      (e == |s| && e - p < room && (e > p ==> s[e - 1] != '\n')) <==> (|s| - p < room && '\n' !in s[p..])
    decreases room
  {
    if p < |s| && room > 0 {
      assert s[p..] == [s[p]] + s[p + 1..];
      if s[p] != '\n' {
        LineEndOpen(s, p + 1, room - 1);
      }
    }
  }

  /** A star followed by a NUL ends the log as if it were cut there, exactly if nothing but the
      end of the file stopped the reading of the line; otherwise it stops the server. */
  lemma NulExactly(cmds: seq<Command>, rest: string, kind: Bytes -> Kind)
    requires Loadable(cmds, kind) && |rest| >= 2 && rest[..2] == "*\0"
    ensures var r := Load(EncodeAll(cmds) + rest, kind, true);
      if |rest| < BUFFER && '\n' !in rest then r.Started? && r.log == EncodeAll(cmds) else r == Exit(ReadError)
  {
    assert NoneEmpty(cmds);
    hide EncodeAll, LoadFrom, ReadCommand, LineEnd, AofFormat.After, Load, Loadable, NoneEmpty;
    var s, pos := EncodeAll(cmds) + rest, |EncodeAll(cmds)|;
    assert s[pos..] == rest && s[..pos] == EncodeAll(cmds);
    assert rest[..2][0] == '*' && rest[..2][1] == '\0';
    StarNul(s, pos);
    LoadTail(cmds, rest, kind);
    var st := AofFormat.After(cmds, 0, FRESH, kind);
    ValidUpTo(cmds, kind);
    ShortAt(s, pos, st, kind);
  }

  lemma ValidUpTo(cmds: seq<Command>, kind: Bytes -> Kind)
    requires NoneEmpty(cmds)
    ensures AofFormat.After(cmds, 0, FRESH, kind).validUpTo == |EncodeAll(cmds)|
  {
    AfterOffset(cmds, 0, FRESH, kind);
  }

  lemma StarNul(s: string, pos: nat)
    requires pos + 1 < |s| && s[pos] == '*' && s[pos + 1] == '\0'
    ensures ReadCommand(s, pos) == if |s| - pos < BUFFER && '\n' !in s[pos..] then Read.Short else Broken
  {
    LineEndOpen(s, pos, BUFFER);
    assert LineEnd(s, pos, BUFFER) > pos;
  }

  lemma ShortAt(s: string, pos: nat, st: State, kind: Bytes -> Kind)
    requires pos < |s| && st.validUpTo <= |s| && st.beforeMulti <= |s|
    ensures ReadCommand(s, pos).Short? ==> LoadFrom(s, pos, st, kind, true) == Started(st, s[..st.validUpTo])
    ensures ReadCommand(s, pos).Broken? ==> LoadFrom(s, pos, st, kind, true) == Exit(ReadError)
  {
    hide ReadCommand;
  }

  // ----------------------------------------------------------------------- transactions

  // A MULTI without an EXEC behind it.
  ghost predicate LeftOpen(cmds: seq<Command>, kind: Bytes -> Kind)
    requires NoneEmpty(cmds)
  {
    exists i :: 0 <= i < |cmds| && kind(cmds[i][0]).Multi? && forall j :: i < j < |cmds| ==> !kind(cmds[j][0]).Exec?
  }

  lemma LastCommand(front: seq<Command>, cmd: Command, kind: Bytes -> Kind)
    requires NoneEmpty(front) && |cmd| > 0
    ensures NoneEmpty(front + [cmd])
    ensures AofFormat.After(front + [cmd], 0, FRESH, kind) ==
      AofFormat.Execute(AofFormat.After(front, 0, FRESH, kind), cmd, kind(cmd[0]), |EncodeAll(front)| + |Encode(cmd)|, true)
  {
    hide AofFormat.Execute, AofFormat.After, Encode, EncodeAll;
    AfterSplit(front, [cmd], 0, FRESH, kind);
    OneCommand(cmd, |EncodeAll(front)|, AofFormat.After(front, 0, FRESH, kind), kind);
  }

  lemma OneCommand(cmd: Command, at: nat, st: State, kind: Bytes -> Kind)
    requires |cmd| > 0
    ensures AofFormat.After([cmd], at, st, kind) == AofFormat.Execute(st, cmd, kind(cmd[0]), at + |Encode(cmd)|, true)
  {
    hide AofFormat.Execute, Encode;
  }

  /** The loader is inside a transaction exactly after a MULTI that no EXEC follows. */
  lemma {:induction false} OpenExactly(cmds: seq<Command>, kind: Bytes -> Kind)
    requires NoneEmpty(cmds)
    ensures AofFormat.After(cmds, 0, FRESH, kind).multi <==> LeftOpen(cmds, kind)
    decreases |cmds|
  {
    hide Encode, EncodeAll, AofFormat.After;
    if cmds == [] {
      assert !AofFormat.After([], 0, FRESH, kind).multi by { NothingOpen(kind); }
    } else {
      var n := |cmds| - 1;
      var front, cmd := cmds[..n], cmds[n];
      assert cmds == front + [cmd];
      LastCommand(front, cmd, kind);
      OpenExactly(front, kind);
      if LeftOpen(front, kind) && !kind(cmd[0]).Exec? {
        var i :| 0 <= i < n && kind(front[i][0]).Multi? && forall j :: i < j < n ==> !kind(front[j][0]).Exec?;
        forall j | i < j < |cmds| ensures !kind(cmds[j][0]).Exec? {
          assert j < n ==> front[j] == cmds[j];
        }
        assert LeftOpen(cmds, kind);
      }
    }
  }

  lemma NothingOpen(kind: Bytes -> Kind)
    ensures !AofFormat.After([], 0, FRESH, kind).multi
  {
  }

  /** A complete transaction is executed as a whole, in order, and the loader is outside again. */
  lemma TransactionRuns(before: seq<Command>, multi: Command, inside: seq<Command>, exec: Command, kind: Bytes -> Kind)
    requires Loadable(before, kind) && Loadable([multi], kind) && Loadable(inside, kind) && Loadable([exec], kind)
    requires |multi| > 0 && kind(multi[0]).Multi? && AllPlain(inside, kind) && |exec| > 0 && kind(exec[0]).Exec?
    requires !AofFormat.After(before, 0, FRESH, kind).multi
    ensures NoneEmpty(before + [multi] + inside + [exec])
    ensures var st := AofFormat.After(before + [multi] + inside + [exec], 0, FRESH, kind);
      !st.multi && st.queue == [] && st.executed == AofFormat.After(before, 0, FRESH, kind).executed + inside
  {
    hide Encode, EncodeAll, AofFormat.After;
    InsideTransaction(before, multi, inside, kind);
    var open := before + [multi] + inside;
    LastCommand(open, exec, kind);
  }
}
