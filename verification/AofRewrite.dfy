/**
Background rewriting of the append-only log: a parent that goes on executing commands, a
child that writes a compact log of the data as it was at the fork, the data pipe between
them, and the stop/acknowledge handshake.

The two processes interleave freely.  In every reachable state the log, with what is still
in memory, rebuilds the current data; installing the child's file preserves that.
*/
module AofRewrite {
  import opened Options
  import opened AofFormat

  // -------------------------------------------------------------------- what a log means

  // The data, and the database the loader's client has selected.
  datatype Machine<D> = Machine(data: D, db: nat)

  function SelectCmd(db: nat): Command {
    ["SELECT", Decimal(db)]
  }

  // The text feedAppendOnlyFile prints for a change of database.
  lemma SelectText(db: nat)
    ensures var d := Decimal(db);
            Encode(SelectCmd(db)) == Line('*', 2) + (Line('$', 6) + "SELECT" + CRLF) + (Line('$', |d|) + d + CRLF)
  {
    hide Decimal, Line;
    var c := SelectCmd(db);
    EncodeArgsFront(c);
    assert c[1..] == [Decimal(db)];
    assert c[1..][..0] == [];
    assert EncodeArgs(c[1..]) == EncodeArg(Decimal(db));
  }

  predicate IsSelect(cmd: Command) {
    |cmd| == 2 && cmd[0] == "SELECT"
  }

  function RunOne<D>(m: Machine<D>, cmd: Command, apply: (D, nat, Command) -> D): Machine<D> {
    if IsSelect(cmd) then
      var db := ParseInt(cmd[1], 0);
      m.(db := if db >= 0 then db else 0)
    else m.(data := apply(m.data, m.db, cmd))
  }

  function Replay<D>(cmds: seq<Command>, m: Machine<D>, apply: (D, nat, Command) -> D): Machine<D> {
    if cmds == [] then m else RunOne(Replay(cmds[..|cmds| - 1], m, apply), cmds[|cmds| - 1], apply)
  }

  lemma ReplayOneMore<D>(cmds: seq<Command>, cmd: Command, m: Machine<D>, apply: (D, nat, Command) -> D)
    ensures Replay(cmds + [cmd], m, apply) == RunOne(Replay(cmds, m, apply), cmd, apply)
  {
    assert (cmds + [cmd])[..|cmds|] == cmds;
  }

  lemma RunSelect<D>(m: Machine<D>, db: nat, apply: (D, nat, Command) -> D)
    ensures RunOne(m, SelectCmd(db), apply) == m.(db := db)
  {
    var d := Decimal(db);
    assert d[0..0 + |d|] == d;
    ParseDecimal(d, 0, db);
  }

  // What is logged for a command: a SELECT first, if the database has changed.
  function Entries(selected: Option<nat>, db: nat, cmd: Command): seq<Command> {
    if selected == Some(db) then [cmd] else [SelectCmd(db), cmd]
  }

  // Each command replays in the database it ran in, wherever the log was left.
  lemma EntriesReplay<D>(cmds: seq<Command>, m: Machine<D>, selected: Option<nat>, db: nat, cmd: Command,
                         apply: (D, nat, Command) -> D)
    requires !IsSelect(cmd)
    requires selected == Some(db) ==> Replay(cmds, m, apply).db == db
    ensures var m1 := Replay(cmds, m, apply);
            Replay(cmds + Entries(selected, db, cmd), m, apply) == Machine(apply(m1.data, db, cmd), db)
  {
    if selected == Some(db) {
      ReplayOneMore(cmds, cmd, m, apply);
    } else {
      assert cmds + [SelectCmd(db), cmd] == cmds + [SelectCmd(db)] + [cmd];
      ReplayOneMore(cmds, SelectCmd(db), m, apply);
      ReplayOneMore(cmds + [SelectCmd(db)], cmd, m, apply);
      RunSelect(Replay(cmds, m, apply), db, apply);
    }
  }

  // -------------------------------------------------------------------------- the state

  datatype Phase =
    | Collecting   // writing the snapshot and reading what the parent sends
    | Asked        // has asked the parent to stop, waits for the answer
    | Draining     // reads what is left in the pipe
    | Finished     // has exited with success

  datatype Rewrite = Rewrite(
    base: seq<Command>,    // what the child writes for the data at the fork
    fed: seq<Command>,     // everything logged since the fork
    buffer: string,        // the parent's rewrite blocks
    stop: bool,            // aof_stop_sending_diff
    pipe: string,
    ask: bool,             // a stop request is in the pipe to the parent
    ack: bool,             // the answer is in the pipe to the child
    phase: Phase,
    diff: string,          // aof_child_diff
    tmp: string            // the child's file, once finished
  )

  datatype Aof<D> = Aof(
    data: D,
    on: bool,              // AOF_ON, or waiting for the first rewrite
    entries: seq<Command>, // everything in the log
    file: string,
    buf: string,           // aof_buf
    selected: Option<nat>, // aof_selected_db
    rewrite: Option<Rewrite>
  )

  datatype Action =
    | Execute(db: nat, cmd: Command)
    | Flush(n: nat)                // n more bytes of aof_buf reach the file
    | Fork(base: seq<Command>)
    | Send(n: nat)                 // the parent writes n bytes into the pipe
    | Receive(n: nat)              // the child reads n bytes
    | AskStop
    | HearAsk(answered: bool)      // the answer may fail to be sent
    | HearAck
    | Finish                       // the pipe is empty: write the file and exit
    | Abandon                      // the child dies, times out or is killed, or installing fails
    | Install

  ghost predicate Enabled<D(!new)>(s: Aof<D>, a: Action, init: Machine<D>, apply: (D, nat, Command) -> D) {
    match a
    case Execute(db, cmd) => !IsSelect(cmd)
    case Flush(n) => n <= |s.buf|
    case Fork(base) => s.rewrite == None && Replay(base, init, apply).data == s.data
    case _ => s.rewrite.Some? && Permits(s.rewrite.value, a)
  }

  ghost predicate Permits(r: Rewrite, a: Action) {
    match a
    case Send(n) => !r.stop && n <= |r.buffer|
    case Receive(n) => (r.phase.Collecting? || r.phase.Draining?) && n <= |r.pipe|
    case AskStop => r.phase.Collecting?
    case HearAsk(_) => r.ask
    case HearAck => r.phase.Asked? && r.ack
    case Finish => r.phase.Draining? && r.pipe == ""
    case Install => r.phase.Finished?
    case _ => true
  }

  ghost function Next<D(!new)>(s: Aof<D>, a: Action, init: Machine<D>, apply: (D, nat, Command) -> D): Aof<D>
    requires Enabled(s, a, init, apply)
  {
    match a
    case Execute(db, cmd) =>
      var es := Entries(s.selected, db, cmd);
      var text := EncodeAll(es);
      s.(data := apply(s.data, db, cmd), selected := Some(db),
         entries := if s.on then s.entries + es else s.entries,
         buf := if s.on then s.buf + text else s.buf,
         rewrite := if s.rewrite == None then None
                    else Some(s.rewrite.value.(fed := s.rewrite.value.fed + es, buffer := s.rewrite.value.buffer + text)))
    case Flush(n) => s.(file := s.file + s.buf[..n], buf := s.buf[n..])
    case Fork(base) =>
      s.(selected := None, rewrite := Some(Rewrite(base, [], "", false, "", false, false, Collecting, "", "")))
    case Abandon => s.(rewrite := None)
    case Install =>
      var r := s.rewrite.value;
      s.(on := true, entries := r.base + r.fed, file := r.tmp + r.buffer, buf := "", selected := None, rewrite := None)
    case _ => s.(rewrite := Some(Advance(s.rewrite.value, a)))
  }

  // The steps inside a rewrite.
  ghost function Advance(r: Rewrite, a: Action): Rewrite
    requires Permits(r, a)
  {
    match a
    case Send(n) => r.(pipe := r.pipe + r.buffer[..n], buffer := r.buffer[n..])
    case Receive(n) => r.(diff := r.diff + r.pipe[..n], pipe := r.pipe[n..])
    case AskStop => r.(phase := Asked, ask := true)
    case HearAsk(answered) => r.(stop := true, ask := false, ack := answered)
    case HearAck => r.(phase := Draining, ack := false)
    case Finish => r.(phase := Finished, tmp := EncodeAll(r.base) + r.diff)
    case _ => r
  }

  // ---------------------------------------------------------------------- the invariant

  // Nothing fed since the fork is lost, duplicated or reordered on its way to the child.
  ghost predicate Conserved(r: Rewrite) {
    r.diff + r.pipe + r.buffer == EncodeAll(r.fed)
  }

  ghost predicate Orderly(r: Rewrite) {
    && (r.ack ==> r.stop)
    && (r.phase.Draining? || r.phase.Finished? ==> r.stop)
    && (r.phase.Finished? ==> r.pipe == "" && r.tmp == EncodeAll(r.base) + r.diff)
  }

  // A log that rebuilds the data, in step with the database selected last.
  ghost predicate Rebuilds<D(!new)>(cmds: seq<Command>, data: D, selected: Option<nat>,
                                    init: Machine<D>, apply: (D, nat, Command) -> D)
  {
    var m := Replay(cmds, init, apply);
    m.data == data && (selected.Some? ==> m.db == selected.value)
  }

  ghost predicate Inv<D(!new)>(s: Aof<D>, init: Machine<D>, apply: (D, nat, Command) -> D) {
    && (s.on ==> s.file + s.buf == EncodeAll(s.entries) && Rebuilds(s.entries, s.data, s.selected, init, apply))
    && (s.rewrite.Some? ==>
          var r := s.rewrite.value;
          Conserved(r) && Orderly(r) && Rebuilds(r.base + r.fed, s.data, s.selected, init, apply))
  }

  lemma ConservedStep(r: Rewrite, a: Action)
    requires Conserved(r) && Orderly(r)
    requires Permits(r, a)
    ensures Conserved(Advance(r, a)) && Orderly(Advance(r, a))
  {
    if a.Send? {
      assert r.pipe + r.buffer[..a.n] + r.buffer[a.n..] == r.pipe + r.buffer;
      assert r.diff + (r.pipe + r.buffer[..a.n]) + r.buffer[a.n..] == r.diff + r.pipe + r.buffer;
    } else if a.Receive? {
      assert r.diff + r.pipe[..a.n] + r.pipe[a.n..] == r.diff + r.pipe;
    }
  }

  // One more command in a log that rebuilds the data.
  lemma RebuildsMore<D(!new)>(cmds: seq<Command>, data: D, selected: Option<nat>, db: nat, cmd: Command,
                              init: Machine<D>, apply: (D, nat, Command) -> D)
    requires Rebuilds(cmds, data, selected, init, apply) && !IsSelect(cmd)
    ensures Rebuilds(cmds + Entries(selected, db, cmd), apply(data, db, cmd), Some(db), init, apply)
  {
    hide Replay, Entries, IsSelect;
    EntriesReplay(cmds, init, selected, db, cmd, apply);
  }

  // More text behind a text that is an encoding.
  lemma TextMore(text: string, cmds: seq<Command>, es: seq<Command>)
    requires text == EncodeAll(cmds)
    ensures text + EncodeAll(es) == EncodeAll(cmds + es)
  {
    EncodeAllSplit(cmds, es);
  }

  lemma ExecuteStep<D(!new)>(s: Aof<D>, a: Action, init: Machine<D>, apply: (D, nat, Command) -> D)
    requires Inv(s, init, apply) && a.Execute? && Enabled(s, a, init, apply)
    ensures Inv(Next(s, a, init, apply), init, apply)
  {
    hide EncodeAll, Rebuilds, Entries, IsSelect;
    var es := Entries(s.selected, a.db, a.cmd);
    if s.on {
      TextMore(s.file + s.buf, s.entries, es);
      RebuildsMore(s.entries, s.data, s.selected, a.db, a.cmd, init, apply);
      assert s.file + (s.buf + EncodeAll(es)) == s.file + s.buf + EncodeAll(es);
    }
    if s.rewrite.Some? {
      var r := s.rewrite.value;
      TextMore(r.diff + r.pipe + r.buffer, r.fed, es);
      RebuildsMore(r.base + r.fed, s.data, s.selected, a.db, a.cmd, init, apply);
      assert r.base + (r.fed + es) == r.base + r.fed + es;
      assert r.diff + r.pipe + (r.buffer + EncodeAll(es)) == r.diff + r.pipe + r.buffer + EncodeAll(es);
    }
  }

  // The child's file with the parent's remainder is the snapshot and exactly what was fed since.
  lemma InstallStep<D(!new)>(s: Aof<D>, a: Action, init: Machine<D>, apply: (D, nat, Command) -> D)
    requires Inv(s, init, apply) && a.Install? && Enabled(s, a, init, apply)
    ensures var s', r := Next(s, a, init, apply), s.rewrite.value;
            s'.file == EncodeAll(r.base) + EncodeAll(r.fed) && s'.buf == "" && s'.data == s.data && s'.on
            && Inv(s', init, apply)
  {
    hide EncodeAll, Replay;
    var r := s.rewrite.value;
    assert r.diff + "" + r.buffer == r.diff + r.buffer;
    assert EncodeAll(r.base) + r.diff + r.buffer == EncodeAll(r.base) + (r.diff + r.buffer);
    EncodeAllSplit(r.base, r.fed);
  }

  lemma StepKeeps<D(!new)>(s: Aof<D>, a: Action, init: Machine<D>, apply: (D, nat, Command) -> D)
    requires Inv(s, init, apply) && Enabled(s, a, init, apply)
    ensures Inv(Next(s, a, init, apply), init, apply)
  {
    hide EncodeAll, Replay, Advance, Conserved, Orderly;
    match a
    case Execute(_, _) => ExecuteStep(s, a, init, apply);
    case Flush(n) => assert s.file + s.buf[..n] + s.buf[n..] == s.file + s.buf;
    case Fork(base) => ForkStep(s, a, init, apply);
    case Install => InstallStep(s, a, init, apply);
    case Abandon =>
    case _ => ConservedStep(s.rewrite.value, a);
      AdvanceSame(s.rewrite.value, a);
  }

  lemma AdvanceSame(r: Rewrite, a: Action)
    requires Permits(r, a)
    ensures Advance(r, a).base == r.base && Advance(r, a).fed == r.fed
  {}

  lemma ForkStep<D(!new)>(s: Aof<D>, a: Action, init: Machine<D>, apply: (D, nat, Command) -> D)
    requires Inv(s, init, apply) && a.Fork? && Enabled(s, a, init, apply)
    ensures Inv(Next(s, a, init, apply), init, apply)
  {
    assert a.base + [] == a.base;
    assert "" + "" + "" == EncodeAll([]);
  }

  // ------------------------------------------------------------------------------- runs

  ghost predicate Run<D(!new)>(ss: seq<Aof<D>>, acts: seq<Action>, init: Machine<D>, apply: (D, nat, Command) -> D) {
    && |ss| == |acts| + 1 && Inv(ss[0], init, apply)
    && forall i :: 0 <= i < |acts| ==> Enabled(ss[i], acts[i], init, apply) && ss[i + 1] == Next(ss[i], acts[i], init, apply)
  }

  lemma {:induction false} RunInv<D(!new)>(ss: seq<Aof<D>>, acts: seq<Action>, k: nat,
                                           init: Machine<D>, apply: (D, nat, Command) -> D)
    requires Run(ss, acts, init, apply) && k < |ss|
    ensures Inv(ss[k], init, apply)
  {
    hide Inv, Enabled, Next;
    if k > 0 {
      RunInv(ss, acts, k - 1, init, apply);
      StepKeeps(ss[k - 1], acts[k - 1], init, apply);
    }
  }

  // MULTI and EXEC of the log change no data themselves.
  ghost predicate Ignores<D(!new)>(cmds: seq<Command>, apply: (D, nat, Command) -> D, kind: Bytes -> Kind)
    requires forall i :: 0 <= i < |cmds| ==> |cmds[i]| > 0
  {
    forall i :: 0 <= i < |cmds| && !kind(cmds[i][0]).Plain? ==> !IsSelect(cmds[i]) && NoEffect(apply, cmds[i])
  }

  ghost predicate NoEffect<D(!new)>(apply: (D, nat, Command) -> D, cmd: Command) {
    forall d, db :: apply(d, db, cmd) == d
  }

  lemma ReplayIgnored<D(!new)>(cmds: seq<Command>, cmd: Command, m: Machine<D>, apply: (D, nat, Command) -> D)
    requires !IsSelect(cmd) && NoEffect(apply, cmd)
    ensures Replay(cmds + [cmd], m, apply) == Replay(cmds, m, apply)
  {
    ReplayOneMore(cmds, cmd, m, apply);
  }

  // One more command: executed, queued, or opening or closing a transaction.
  lemma OneMoreLoaded<D(!new)>(front: seq<Command>, c: Command, st: State, end: nat, init: Machine<D>,
                               apply: (D, nat, Command) -> D, kind: Bytes -> Kind)
    requires |c| > 0 && !kind(c[0]).Unknown?
    requires !kind(c[0]).Plain? ==> !IsSelect(c) && NoEffect(apply, c)
    requires Replay(st.executed + st.queue, init, apply) == Replay(front, init, apply) && (!st.multi ==> st.queue == [])
    ensures var st' := AofFormat.Execute(st, c, kind(c[0]), end, true);
            Replay(st'.executed + st'.queue, init, apply) == Replay(front + [c], init, apply) && (!st'.multi ==> st'.queue == [])
  {
    hide Replay, NoEffect;
    var st' := AofFormat.Execute(st, c, kind(c[0]), end, true);
    ReplayOneMore(front, c, init, apply);
    ReplayOneMore(st.executed + st.queue, c, init, apply);
    if st.multi && !kind(c[0]).Exec? {
      assert st'.executed + st'.queue == st.executed + st.queue + [c];
    } else if kind(c[0]).Plain? {
      assert st'.executed + st'.queue == st.executed + st.queue + [c];
    } else {
      ReplayIgnored(front, c, init, apply);
      assert st'.executed + st'.queue == st.executed + st.queue;
    }
  }

  // What the loader has executed and queued replays to what the whole log replays to.
  lemma {:induction false} LoadedReplays<D(!new)>(cmds: seq<Command>, init: Machine<D>,
                                                  apply: (D, nat, Command) -> D, kind: Bytes -> Kind)
    requires Loadable(cmds, kind) && Ignores(cmds, apply, kind)
    ensures var st := After(cmds, 0, FRESH, kind);
            Replay(st.executed + st.queue, init, apply) == Replay(cmds, init, apply) && (!st.multi ==> st.queue == [])
    decreases |cmds|
  {
    hide Replay, NoEffect, AofFormat.Execute, Encode, IsSelect;
    if cmds == [] {
      assert After(cmds, 0, FRESH, kind).executed + [] == cmds;
    } else {
      var n := |cmds| - 1;
      var front, c := cmds[..n], cmds[n];
      LoadedReplays(front, init, apply, kind);
      assert cmds == front + [c];
      AfterSplit(front, [c], 0, FRESH, kind);
      var st, at := After(front, 0, FRESH, kind), |EncodeAll(front)|;
      assert After([c], at, st, kind) == AofFormat.Execute(st, c, kind(c[0]), at + |Encode(c)|, true);
      OneMoreLoaded(front, c, st, at + |Encode(c)|, init, apply, kind);
    }
  }

  // A log that does not end inside a transaction: loading it executes commands that rebuild
  // what the log rebuilds.
  lemma LoadReplays<D(!new)>(cmds: seq<Command>, init: Machine<D>, apply: (D, nat, Command) -> D, kind: Bytes -> Kind)
    requires Loadable(cmds, kind) && Ignores(cmds, apply, kind) && cmds != [] && !After(cmds, 0, FRESH, kind).multi
    ensures var r := Load(EncodeAll(cmds), kind, true);
            r.Started? && r.log == EncodeAll(cmds) && Replay(r.state.executed, init, apply) == Replay(cmds, init, apply)
  {
    hide Load, Replay, Encode, AofFormat.Execute, Ignores;
    var text := EncodeAll(cmds);
    EncodeNotEmpty(cmds[0]);
    LoadOfPrefix(cmds, |text|, kind);
    WholeIsComplete(cmds);
    assert text[..|text|] == text && cmds[..|cmds|] == cmds;
    LoadedReplays(cmds, init, apply, kind);
    var st := After(cmds, 0, FRESH, kind);
    assert st.executed + st.queue == st.executed;
  }

  // However parent and child interleave: loading what is on disk and in memory at any moment
  // outside a transaction executes commands that rebuild exactly the current data.
  lemma LogRebuildsData<D(!new)>(ss: seq<Aof<D>>, acts: seq<Action>, init: Machine<D>,
                                 apply: (D, nat, Command) -> D, kind: Bytes -> Kind)
    requires Run(ss, acts, init, apply)
    requires ss[|acts|].on && ss[|acts|].entries != [] && Loadable(ss[|acts|].entries, kind)
    requires Ignores(ss[|acts|].entries, apply, kind) && !After(ss[|acts|].entries, 0, FRESH, kind).multi
    ensures var s := ss[|acts|];
            var r := Load(s.file + s.buf, kind, true);
            r.Started? && r.log == s.file + s.buf && Replay(r.state.executed, init, apply).data == s.data
  {
    hide Enabled, Next, Load, Replay, Encode, Ignores, After;
    RunInv(ss, acts, |acts|, init, apply);
    LoadReplays(ss[|acts|].entries, init, apply, kind);
  }
}
