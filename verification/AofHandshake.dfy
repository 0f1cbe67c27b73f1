/**
How a rewrite of the log ends: the child asks the parent to stop sending, the parent answers,
the child reads what is left and finishes, the parent installs the file.

From every state the rewrite can be brought to its end, unless the answer was lost.
*/
module AofHandshake {
  import opened Options
  import opened AofFormat
  import opened AofRewrite

  // Where the request and the answer are in each phase.
  ghost predicate Handshake(r: Rewrite) {
    match r.phase
    case Collecting => !r.ask && !r.ack && !r.stop
    case Asked => (r.ask && !r.ack && !r.stop) || (!r.ask && r.stop)
    case Draining => !r.ask && !r.ack && r.stop
    case Finished => !r.ask && !r.ack && r.stop
  }

  // The child waits for an answer that is not coming.
  ghost predicate Stuck(r: Rewrite) {
    r.phase.Asked? && !r.ask && !r.ack
  }

  lemma HandshakeStep(r: Rewrite, a: Action)
    requires Handshake(r) && Permits(r, a)
    ensures Handshake(Advance(r, a))
  {
  }

  ghost predicate Live<D>(s: Aof<D>) {
    s.rewrite.Some? ==> Handshake(s.rewrite.value)
  }

  /** The handshake is in order in every state of every run. */
  lemma {:induction false} AlwaysLive<D(!new)>(ss: seq<Aof<D>>, acts: seq<Action>, k: nat,
                                               init: Machine<D>, apply: (D, nat, Command) -> D)
    requires Run(ss, acts, init, apply) && k < |ss| && ss[0].rewrite == None
    ensures Live(ss[k])
  {
    hide Inv, Advance, Handshake;
    if k > 0 {
      AlwaysLive(ss, acts, k - 1, init, apply);
      StepLive(ss[k - 1], acts[k - 1], init, apply);
    }
  }

  lemma StepLive<D(!new)>(s: Aof<D>, a: Action, init: Machine<D>, apply: (D, nat, Command) -> D)
    requires Live(s) && AofRewrite.Enabled(s, a, init, apply)
    ensures Live(AofRewrite.Next(s, a, init, apply))
  {
    if s.rewrite.Some? && Permits(s.rewrite.value, a) {
      HandshakeStep(s.rewrite.value, a);
    }
    hide Advance, EncodeAll, Replay;
  }

  // --------------------------------------------------------------------------- finishing

  ghost predicate Legal<D(!new)>(s: Aof<D>, acts: seq<Action>, init: Machine<D>, apply: (D, nat, Command) -> D)
    decreases |acts|
  {
    acts == [] ||
    (AofRewrite.Enabled(s, acts[0], init, apply)
     && Legal(AofRewrite.Next(s, acts[0], init, apply), acts[1..], init, apply))
  }

  ghost function Final<D(!new)>(s: Aof<D>, acts: seq<Action>, init: Machine<D>, apply: (D, nat, Command) -> D): Aof<D>
    requires Legal(s, acts, init, apply)
    decreases |acts|
  {
    if acts == [] then s else Final(AofRewrite.Next(s, acts[0], init, apply), acts[1..], init, apply)
  }

  // A step that brings the rewrite on.
  ghost function Onward(r: Rewrite): Action
    requires !Stuck(r)
  {
    match r.phase
    case Collecting =>
      if r.pipe != "" then Receive(|r.pipe|) else if r.buffer != "" then Send(|r.buffer|) else AskStop
    case Asked => if r.ask then HearAsk(true) else HearAck
    case Draining => if r.pipe != "" then Receive(|r.pipe|) else Finish
    case Finished => Install
  }

  function Rank(r: Rewrite): nat {
    match r.phase
    case Collecting => 4
    case Asked => if r.ask then 3 else 2
    case Draining => 1
    case Finished => 0
  }

  lemma OnwardStep(r: Rewrite)
    requires Handshake(r) && !Stuck(r) && !r.phase.Finished?
    ensures var a := Onward(r);
      && Permits(r, a) && !a.Abandon? && !a.Install?
      && Handshake(Advance(r, a)) && !Stuck(Advance(r, a))
      && (var r1 := Advance(r, a);
          Rank(r1) < Rank(r) || (Rank(r1) == Rank(r) && (|r1.buffer| < |r.buffer| || (r1.buffer == r.buffer && |r1.pipe| < |r.pipe|))))
  {
    hide EncodeAll;
  }

  // The rewritten log is in place: the snapshot and exactly what was fed since.
  ghost predicate Installed<D>(s: Aof<D>, f: Aof<D>)
    requires s.rewrite.Some?
  {
    var r := s.rewrite.value;
    && f.on && f.rewrite == None && f.selected == None && f.data == s.data
    && f.entries == r.base + r.fed && f.file == EncodeAll(r.base + r.fed) && f.buf == ""
  }

  ghost predicate Protocol(acts: seq<Action>) {
    forall i :: 0 <= i < |acts| ==> !acts[i].Execute? && !acts[i].Flush? && !acts[i].Fork? && !acts[i].Abandon?
  }

  /** In every state of a rewrite there are steps of the two processes, and no others, that end
      with the new log in place, unless the child waits for an answer that was lost. */
  lemma {:induction false} CanInstall<D(!new)>(s: Aof<D>, init: Machine<D>, apply: (D, nat, Command) -> D)
    returns (acts: seq<Action>)
    requires AofRewrite.Inv(s, init, apply) && s.rewrite.Some? && Handshake(s.rewrite.value) && !Stuck(s.rewrite.value)
    ensures Legal(s, acts, init, apply) && Protocol(acts) && Installed(s, Final(s, acts, init, apply))
    decreases Rank(s.rewrite.value), |s.rewrite.value.buffer|, |s.rewrite.value.pipe|
  {
    hide EncodeAll, Handshake, Stuck, Replay, Conserved, Orderly, Rank, Advance;
    var r := s.rewrite.value;
    var a := Onward(r);
    if r.phase.Finished? {
      acts := [Install];
      assert acts[1..] == [];
      InstallStep(s, Install, init, apply);
      EncodeAllSplit(r.base, r.fed);
    } else {
      OnwardStep(r);
      AdvanceSame(r, a);
      StepKeeps(s, a, init, apply);
      var s1 := AofRewrite.Next(s, a, init, apply);
      assert s1 == s.(rewrite := Some(Advance(r, a)));
      var rest := CanInstall(s1, init, apply);
      acts := [a] + rest;
      assert acts[1..] == rest;
    }
  }

  /** A lost answer is for good: whatever happens, the child goes on waiting until the rewrite is
      abandoned. */
  lemma StuckForGood<D(!new)>(s: Aof<D>, a: Action, init: Machine<D>, apply: (D, nat, Command) -> D)
    requires s.rewrite.Some? && Stuck(s.rewrite.value) && AofRewrite.Enabled(s, a, init, apply) && !a.Abandon?
    ensures var s1 := AofRewrite.Next(s, a, init, apply); s1.rewrite.Some? && Stuck(s1.rewrite.value)
    ensures !a.Install?
  {
    hide EncodeAll, Replay;
  }

  // ------------------------------------------------------------------------ around a rewrite

  /** A rewrite can be abandoned at any time, which leaves data and log as they are; then, and
      whenever there is none, one can be started from any snapshot of the data. */
  lemma StartAgain<D(!new)>(s: Aof<D>, base: seq<Command>, init: Machine<D>, apply: (D, nat, Command) -> D)
    requires Replay(base, init, apply).data == s.data
    ensures AofRewrite.Enabled(s, Abandon, init, apply) <==> s.rewrite.Some?
    ensures s.rewrite.Some? ==>
      AofRewrite.Next(s, Abandon, init, apply) == s.(rewrite := None)
    ensures var s0 := s.(rewrite := None);
      && AofRewrite.Enabled(s0, Fork(base), init, apply)
      && (var s1 := AofRewrite.Next(s0, Fork(base), init, apply);
          && s1.rewrite.Some? && Handshake(s1.rewrite.value) && s1.rewrite.value.phase.Collecting?
          && s1.rewrite.value.base == base && s1.rewrite.value.fed == []
          && s1 == s.(rewrite := s1.rewrite, selected := None))
  {
    hide Replay;
  }

  /** While the log is off nothing is logged, until a rewrite is installed. */
  lemma OffLogsNothing<D(!new)>(s: Aof<D>, a: Action, init: Machine<D>, apply: (D, nat, Command) -> D)
    requires AofRewrite.Enabled(s, a, init, apply) && !s.on
    ensures var s1 := AofRewrite.Next(s, a, init, apply);
      && (s1.on <==> a.Install?)
      && (!a.Install? ==> s1.entries == s.entries && s1.file + s1.buf == s.file + s.buf)
  {
    hide EncodeAll, Replay, Advance;
    if a.Flush? {
      assert s.file + s.buf[..a.n] + s.buf[a.n..] == s.file + s.buf;
    }
  }

  /** While it is on, everything logged can be brought to the file. */
  lemma CanFlush<D(!new)>(s: Aof<D>, init: Machine<D>, apply: (D, nat, Command) -> D)
    requires AofRewrite.Inv(s, init, apply) && s.on
    ensures AofRewrite.Enabled(s, Flush(|s.buf|), init, apply)
    ensures var s1 := AofRewrite.Next(s, Flush(|s.buf|), init, apply); s1.buf == "" && s1.file == EncodeAll(s.entries)
  {
    hide EncodeAll, Replay;
    assert s.buf[..|s.buf|] == s.buf;
  }
}
