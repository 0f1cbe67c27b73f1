/**
Replica elections: the epochs, votes and counters of the failover protocol, without the
slot tables that decide whether a vote is granted.  `ClusterBus` shows that every step of
the whole bus is a step of this one.

A state also records history no node can see: who voted for whom in which epoch, which of
the votes in a candidate's counter belong to its current election, and who has won.
*/
module Election {

  type Id = nat

  datatype Node = Node(cur: nat, lastVote: nat, authEpoch: nat, count: nat, sent: bool)

  datatype Kind = Request | Ack | Other

  datatype Msg = Msg(from: Id, to: Id, epoch: nat, kind: Kind)

  // `stale` of the winner's votes had been counted before the election they helped to win.
  datatype Win = Win(who: Id, epoch: nat, size: nat, supporters: set<Id>, stale: nat)

  datatype State = State(
    nodes: map<Id, Node>,
    net: multiset<Msg>,
    votes: map<(Id, nat), Id>,
    counted: map<Id, set<Id>>,
    stale: map<Id, nat>,
    wins: set<Win>
  )

  datatype Action =
    | Noise(n: Id, cur: nat, gone: multiset<Msg>, out: multiset<Msg>)
    | Vote(req: Msg, reply: bool)
    | CountAck(ack: Msg)
    | Rearm(n: Id)
    | Ask(n: Id, requests: multiset<Msg>)
    | Declare(n: Id, size: nat)

  function Max(a: nat, b: nat): nat {
    if a < b then b else a
  }

  // The epoch at which node m.to handles m.
  function Seen(s: State, m: Msg): nat
    requires m.to in s.nodes
  {
    Max(s.nodes[m.to].cur, m.epoch)
  }

  ghost predicate Enabled(s: State, a: Action) {
    match a
    case Noise(n, cur, gone, out) =>
      && n in s.nodes && cur >= s.nodes[n].cur && gone <= s.net
      && (forall m :: m in out ==> m.kind == Other)
    case Vote(m, _) =>
      && m in s.net && m.kind == Request && m.to in s.nodes
      && m.epoch >= Seen(s, m) && s.nodes[m.to].lastVote != Seen(s, m)
    case CountAck(m) =>
      m in s.net && m.kind == Ack && m.to in s.nodes && m.epoch >= s.nodes[m.to].authEpoch
    case Rearm(n) =>
      n in s.nodes
    case Ask(n, requests) =>
      && n in s.nodes && !s.nodes[n].sent
      && forall m :: m in requests ==> m.kind == Request && m.from == n && m.epoch == s.nodes[n].cur + 1
    case Declare(n, size) =>
      n in s.nodes && s.nodes[n].sent && s.nodes[n].count >= size / 2 + 1
  }

  ghost predicate Shape(s: State) {
    s.nodes.Keys == s.counted.Keys == s.stale.Keys
  }

  ghost function Do(s: State, a: Action): State
    requires Shape(s) && Enabled(s, a)
  {
    match a
    case Noise(n, cur, gone, out) =>
      s.(nodes := s.nodes[n := s.nodes[n].(cur := cur)], net := s.net - gone + out)
    case Vote(m, reply) =>
      var v, e := m.to, Seen(s, m);
      s.(nodes := s.nodes[v := s.nodes[v].(cur := e, lastVote := e)],
         net := s.net - multiset{m} + (if reply then multiset{Msg(v, m.from, e, Ack)} else multiset{}),
         votes := s.votes[(v, e) := m.from])
    case CountAck(m) =>
      var c := m.to;
      s.(nodes := s.nodes[c := s.nodes[c].(cur := Seen(s, m), count := s.nodes[c].count + 1)],
         net := s.net - multiset{m},
         counted := s.counted[c := s.counted[c] + {m.from}])
    case Rearm(n) =>
      s.(nodes := s.nodes[n := s.nodes[n].(count := 0, sent := false)],
         counted := s.counted[n := {}], stale := s.stale[n := 0])
    case Ask(n, requests) =>
      var e := s.nodes[n].cur + 1;
      s.(nodes := s.nodes[n := s.nodes[n].(cur := e, authEpoch := e, sent := true)],
         net := s.net + requests,
         counted := s.counted[n := {}], stale := s.stale[n := s.nodes[n].count])
    case Declare(n, size) =>
      s.(wins := s.wins + {Win(n, s.nodes[n].authEpoch, size, s.counted[n], s.stale[n])})
  }

  // -------------------------------------------------------------------- the invariant

  ghost predicate NodeInv(s: State, n: Id)
    requires Shape(s) && n in s.nodes
  {
    && s.nodes[n].lastVote <= s.nodes[n].cur
    && s.nodes[n].authEpoch <= s.nodes[n].cur
    && s.nodes[n].count == |s.counted[n]| + s.stale[n]
  }

  ghost predicate Voted(s: State, v: Id, e: nat, c: Id) {
    (v, e) in s.votes && s.votes[(v, e)] == c
  }

  // A vote is remembered by the voter and was asked for by the candidate.
  ghost predicate VoteInv(s: State, v: Id, e: nat) {
    (v, e) in s.votes ==>
      var c := s.votes[(v, e)];
      v in s.nodes && e <= s.nodes[v].lastVote && c in s.nodes && e <= s.nodes[c].authEpoch
  }

  ghost predicate MsgInv(s: State, m: Msg) {
    && (m in s.net && m.kind == Request ==> m.from in s.nodes && m.epoch <= s.nodes[m.from].authEpoch)
    && (m in s.net && m.kind == Ack ==> Voted(s, m.from, m.epoch, m.to) && s.net[m] == 1)
  }

  // A counted vote is a vote for the current election whose packet is gone.
  ghost predicate CountInv(s: State, c: Id, v: Id)
    requires Shape(s) && c in s.nodes
  {
    v in s.counted[c] ==>
      var e := s.nodes[c].authEpoch;
      Voted(s, v, e, c) && Msg(v, c, e, Ack) !in s.net
  }

  ghost predicate WinInv(s: State, w: Win) {
    w in s.wins ==>
      && |w.supporters| + w.stale >= w.size / 2 + 1
      && forall v :: v in w.supporters ==> Voted(s, v, w.epoch, w.who)
  }

  ghost predicate Inv(s: State) {
    && Shape(s)
    && (forall n :: n in s.nodes ==> NodeInv(s, n))
    && (forall v, e :: VoteInv(s, v, e))
    && (forall m :: MsgInv(s, m))
    && (forall c, v :: c in s.nodes ==> CountInv(s, c, v))
    && (forall w :: WinInv(s, w))
  }

  ghost predicate Init(s: State) {
    && Shape(s)
    && s.net == multiset{} && s.votes == map[] && s.wins == {}
    && forall n :: n in s.nodes ==>
         && s.nodes[n].lastVote <= s.nodes[n].cur && s.nodes[n].authEpoch <= s.nodes[n].cur
         && s.nodes[n].count == 0 && !s.nodes[n].sent && s.counted[n] == {} && s.stale[n] == 0
  }

  lemma InitInv(s: State)
    requires Init(s)
    ensures Inv(s)
  {}

  lemma NoiseMsgs(s: State, a: Action)
    requires Inv(s) && a.Noise? && Enabled(s, a)
    ensures forall m :: MsgInv(Do(s, a), m)
    ensures forall m :: m in Do(s, a).net && m.kind != Other ==> m in s.net
  {
    var s' := Do(s, a);
    assert forall m :: m in s'.net && m.kind != Other ==> m in s.net && s'.net[m] <= s.net[m];
    assert forall m :: MsgInv(s, m) ==> MsgInv(s', m);
  }

  lemma NoiseKeeps(s: State, a: Action)
    requires Inv(s) && a.Noise? && Enabled(s, a)
    ensures Inv(Do(s, a))
  {
    var s' := Do(s, a);
    NoiseMsgs(s, a);
    assert forall v, e :: VoteInv(s, v, e) ==> VoteInv(s', v, e);
    assert forall c, v :: c in s.nodes && CountInv(s, c, v) ==> CountInv(s', c, v);
    assert forall w :: WinInv(s, w) ==> WinInv(s', w);
  }

  // Voting again in an epoch is impossible, so an old vote is never overwritten.
  lemma VoteIsNew(s: State, a: Action)
    requires Inv(s) && a.Vote? && Enabled(s, a)
    ensures (a.req.to, Seen(s, a.req)) !in s.votes
    ensures s.nodes[a.req.to].lastVote < Seen(s, a.req) == a.req.epoch
  {
    assert VoteInv(s, a.req.to, Seen(s, a.req));
    assert NodeInv(s, a.req.to);
  }

  lemma VoteMsgs(s: State, a: Action)
    requires Inv(s) && a.Vote? && Enabled(s, a)
    ensures forall m :: MsgInv(Do(s, a), m)
    ensures forall m :: m in Do(s, a).net && m.kind == Ack ==> m in s.net || (m.epoch == Seen(s, a.req) && m.from == a.req.to)
  {
    var s' := Do(s, a);
    VoteIsNew(s, a);
    assert forall v', e', c' :: Voted(s, v', e', c') ==> Voted(s', v', e', c');
    forall m ensures MsgInv(s', m) {
      assert MsgInv(s, m);
    }
  }

  lemma VoteCounts(s: State, a: Action)
    requires Inv(s) && a.Vote? && Enabled(s, a)
    ensures Shape(Do(s, a))
    ensures forall c, v :: c in s.nodes ==> CountInv(Do(s, a), c, v)
  {
    VoteIsNew(s, a);
    forall c, v | c in s.nodes ensures CountInv(Do(s, a), c, v) {
      assert CountInv(s, c, v);
    }
  }

  lemma VoteKeeps(s: State, a: Action)
    requires Inv(s) && a.Vote? && Enabled(s, a)
    ensures Inv(Do(s, a))
  {
    var s' := Do(s, a);
    VoteMsgs(s, a);
    VoteCounts(s, a);
    VoteIsNew(s, a);
    assert MsgInv(s, a.req);
    hide MsgInv;
    hide CountInv;
    forall v, e ensures VoteInv(s', v, e) {
      assert VoteInv(s, v, e);
    }
    forall w ensures WinInv(s', w) {
      assert WinInv(s, w);
      assert forall v :: Voted(s, v, w.epoch, w.who) ==> Voted(s', v, w.epoch, w.who);
    }
  }

  // An acknowledgement that counts answers the candidate's latest request.
  lemma AckIsCurrent(s: State, a: Action)
    requires Inv(s) && a.CountAck? && Enabled(s, a)
    ensures a.ack.epoch == s.nodes[a.ack.to].authEpoch
    ensures a.ack.from !in s.counted[a.ack.to]
  {
    var m := a.ack;
    assert MsgInv(s, m);
    assert VoteInv(s, m.from, m.epoch);
    assert CountInv(s, m.to, m.from);
  }

  lemma CountAckKeeps(s: State, a: Action)
    requires Inv(s) && a.CountAck? && Enabled(s, a)
    ensures Inv(Do(s, a))
  {
    var s', m := Do(s, a), a.ack;
    AckIsCurrent(s, a);
    assert MsgInv(s, m);
    forall m' ensures MsgInv(s', m') {
      assert MsgInv(s, m');
    }
    forall v', e' ensures VoteInv(s', v', e') {
      assert VoteInv(s, v', e');
    }
    forall c', v' | c' in s'.nodes ensures CountInv(s', c', v') {
      assert CountInv(s, c', v');
    }
    forall w ensures WinInv(s', w) {
      assert WinInv(s, w);
    }
  }

  lemma TimerKeeps(s: State, a: Action)
    requires Inv(s) && (a.Rearm? || a.Ask?) && Enabled(s, a)
    ensures Inv(Do(s, a))
  {
    var s' := Do(s, a);
    assert NodeInv(s, a.n);
    forall m ensures MsgInv(s', m) {
      assert MsgInv(s, m);
    }
    forall v', e' ensures VoteInv(s', v', e') {
      assert VoteInv(s, v', e');
    }
    forall c', v' | c' in s'.nodes ensures CountInv(s', c', v') {
      assert CountInv(s, c', v');
    }
    forall w ensures WinInv(s', w) {
      assert WinInv(s, w);
    }
  }

  lemma DeclareKeeps(s: State, a: Action)
    requires Inv(s) && a.Declare? && Enabled(s, a)
    ensures Inv(Do(s, a))
  {
    var s' := Do(s, a);
    assert NodeInv(s, a.n);
    forall w ensures WinInv(s', w) {
      assert WinInv(s, w);
      forall v | w in s'.wins && v in w.supporters ensures Voted(s', v, w.epoch, w.who) {
        assert CountInv(s, a.n, v);
        assert w in s.wins ==> Voted(s, v, w.epoch, w.who);
      }
    }
    assert forall m :: MsgInv(s, m) ==> MsgInv(s', m);
    assert forall v, e :: VoteInv(s, v, e) ==> VoteInv(s', v, e);
    assert forall c, v :: c in s.nodes && CountInv(s, c, v) ==> CountInv(s', c, v);
  }

  lemma StepKeeps(s: State, a: Action)
    requires Inv(s) && Enabled(s, a)
    ensures Inv(Do(s, a))
  {
    hide Inv;
    hide Enabled;
    hide Do;
    match a
    case Noise(_, _, _, _) => NoiseKeeps(s, a);
    case Vote(_, _) => VoteKeeps(s, a);
    case CountAck(_) => CountAckKeeps(s, a);
    case Rearm(_) => TimerKeeps(s, a);
    case Ask(_, _) => TimerKeeps(s, a);
    case Declare(_, _) => DeclareKeeps(s, a);
  }

  // ----------------------------------------------------------------------------- runs

  ghost predicate Run(ss: seq<State>, acts: seq<Action>) {
    && |ss| == |acts| + 1
    && Init(ss[0])
    && forall i :: 0 <= i < |acts| ==> Shape(ss[i]) && Enabled(ss[i], acts[i]) && ss[i + 1] == Do(ss[i], acts[i])
  }

  lemma {:induction false} RunInv(ss: seq<State>, acts: seq<Action>, k: nat)
    requires Run(ss, acts) && k < |ss|
    ensures Inv(ss[k])
  {
    if k == 0 {
      InitInv(ss[0]);
    } else {
      RunInv(ss, acts, k - 1);
      StepKeeps(ss[k - 1], acts[k - 1]);
    }
  }

  // ----------------------------------------------------------------------- the theorem

  lemma DisjointSupport(m: set<Id>, a: set<Id>, b: set<Id>)
    requires a <= m && b <= m && a !! b
    ensures |a| + |b| <= |m|
  {
    Subset(a + b, m);
  }

  lemma {:induction false} Subset(a: set<Id>, m: set<Id>)
    requires a <= m
    ensures |a| <= |m|
  {
    assert m == a + (m - a);
  }

  // Two different winners of one epoch share no supporter: the quorums would intersect, so
  // some of their votes must be left over from earlier elections.  `masters` holds every
  // node that voted in that epoch, and both winners sized their quorum by it.
  lemma SplitNeedsStaleVotes(s: State, w1: Win, w2: Win, masters: set<Id>)
    requires Inv(s) && w1 in s.wins && w2 in s.wins
    requires w1.epoch == w2.epoch && w1.who != w2.who
    requires forall v, c :: Voted(s, v, w1.epoch, c) ==> v in masters
    requires w1.size == |masters| == w2.size
    ensures w1.stale + w2.stale >= 2 * (|masters| / 2 + 1) - |masters|
  {
    assert WinInv(s, w1) && WinInv(s, w2);
    assert forall v :: v in w1.supporters ==> Voted(s, v, w1.epoch, w1.who);
    assert forall v :: v in w2.supporters ==> Voted(s, v, w1.epoch, w2.who);
    DisjointSupport(masters, w1.supporters, w2.supporters);
  }

  // No acknowledgement is counted between a candidate's re-arming and its next request.
  ghost predicate Timely(s: State, a: Action) {
    a.CountAck? ==> a.ack.to in s.nodes && s.nodes[a.ack.to].sent
  }

  ghost predicate NoStale(s: State) {
    && Shape(s)
    && (forall n :: n in s.nodes ==> s.stale[n] == 0 && (!s.nodes[n].sent ==> s.nodes[n].count == 0))
    && (forall w :: w in s.wins ==> w.stale == 0)
  }

  lemma TimelyWin(s: State, a: Action)
    requires NoStale(s) && Enabled(s, a) && a.Declare?
    ensures NoStale(Do(s, a))
  {
    assert forall w :: w in Do(s, a).wins ==> w in s.wins || w.stale == s.stale[a.n];
  }

  lemma TimelyTimer(s: State, a: Action)
    requires NoStale(s) && Enabled(s, a) && (a.Rearm? || a.Ask?)
    ensures NoStale(Do(s, a))
  {}

  lemma TimelyPacket(s: State, a: Action)
    requires NoStale(s) && Enabled(s, a) && Timely(s, a) && (a.Noise? || a.Vote? || a.CountAck?)
    ensures NoStale(Do(s, a))
  {}

  lemma TimelyStep(s: State, a: Action)
    requires NoStale(s) && Enabled(s, a) && Timely(s, a)
    ensures NoStale(Do(s, a))
  {
    hide Do;
    hide Enabled;
    hide NoStale;
    match a
    case Declare(_, _) => TimelyWin(s, a);
    case Rearm(_) => TimelyTimer(s, a);
    case Ask(_, _) => TimelyTimer(s, a);
    case _ => TimelyPacket(s, a);
  }

  lemma {:induction false} TimelyRunHasNoStale(ss: seq<State>, acts: seq<Action>, k: nat)
    requires Run(ss, acts) && k < |ss|
    requires forall i :: 0 <= i < |acts| ==> Timely(ss[i], acts[i])
    ensures NoStale(ss[k])
  {
    hide Do;
    hide Enabled;
    if k > 0 {
      TimelyRunHasNoStale(ss, acts, k - 1);
      TimelyStep(ss[k - 1], acts[k - 1]);
    }
  }

  // Election safety: in a timely run, one epoch has one winner.
  lemma ElectionSafety(ss: seq<State>, acts: seq<Action>, w1: Win, w2: Win, masters: set<Id>)
    requires Run(ss, acts)
    requires forall i :: 0 <= i < |acts| ==> Timely(ss[i], acts[i])
    requires w1 in ss[|acts|].wins && w2 in ss[|acts|].wins && w1.epoch == w2.epoch
    requires forall v, c :: Voted(ss[|acts|], v, w1.epoch, c) ==> v in masters
    requires w1.size == |masters| == w2.size
    ensures w1.who == w2.who
  {
    var s := ss[|acts|];
    RunInv(ss, acts, |acts|);
    TimelyRunHasNoStale(ss, acts, |acts|);
    if w1.who != w2.who {
      SplitNeedsStaleVotes(s, w1, w2, masters);
    }
  }

  // A node's votes, in the order it casts them, are for ever greater epochs.
  lemma LastVoteStep(s: State, a: Action, v: Id)
    requires Inv(s) && Enabled(s, a) && v in s.nodes
    ensures v in Do(s, a).nodes && s.nodes[v].lastVote <= Do(s, a).nodes[v].lastVote
  {
    if a.Vote? {
      VoteIsNew(s, a);
    }
  }

  lemma {:induction false} LastVoteGrows(ss: seq<State>, acts: seq<Action>, i: nat, j: nat, v: Id)
    requires Run(ss, acts) && i <= j < |ss| && v in ss[i].nodes
    ensures v in ss[j].nodes && ss[i].nodes[v].lastVote <= ss[j].nodes[v].lastVote
    decreases j
  {
    hide Do;
    hide Enabled;
    hide Inv;
    if i < j {
      LastVoteGrows(ss, acts, i, j - 1, v);
      RunInv(ss, acts, j - 1);
      LastVoteStep(ss[j - 1], acts[j - 1], v);
    }
  }

  lemma VoteEpochsIncrease(ss: seq<State>, acts: seq<Action>, i: nat, j: nat)
    requires Run(ss, acts) && i < j < |acts|
    requires acts[i].Vote? && acts[j].Vote? && acts[i].req.to == acts[j].req.to
    ensures Seen(ss[i], acts[i].req) < Seen(ss[j], acts[j].req)
  {
    var v := acts[i].req.to;
    assert ss[i + 1].nodes[v].lastVote == Seen(ss[i], acts[i].req);
    LastVoteGrows(ss, acts, i + 1, j, v);
    RunInv(ss, acts, j);
    VoteIsNew(ss[j], acts[j]);
  }

  // ---------------------------------------------------------- what a run leaves behind

  lemma {:induction false} WinsStay(ss: seq<State>, acts: seq<Action>, i: nat, j: nat)
    requires Run(ss, acts) && i <= j < |ss|
    ensures ss[i].wins <= ss[j].wins
    decreases j
  {
    if i < j {
      WinsStay(ss, acts, i, j - 1);
    }
  }

  // Every recorded vote was cast by some step of the run.
  lemma {:induction false} VotersOf(ss: seq<State>, acts: seq<Action>, k: nat, e: nat, masters: set<Id>)
    requires Run(ss, acts) && k < |ss|
    requires forall i :: 0 <= i < |acts| && acts[i].Vote? && Seen(ss[i], acts[i].req) == e ==> acts[i].req.to in masters
    ensures forall v, c :: Voted(ss[k], v, e, c) ==> v in masters
  {
    hide Init;
    if k == 0 {
      assert ss[0].votes == map[] by { InitVotes(ss[0]); }
    } else {
      VotersOf(ss, acts, k - 1, e, masters);
      var s, a := ss[k - 1], acts[k - 1];
      assert forall v, c :: Voted(Do(s, a), v, e, c) ==>
        Voted(s, v, e, c) || (a.Vote? && a.req.to == v && Seen(s, a.req) == e);
    }
  }

  // The step that cast a vote.
  lemma {:induction false} VoteSource(ss: seq<State>, acts: seq<Action>, k: nat, v: Id, e: nat, c: Id) returns (i: nat)
    requires Run(ss, acts) && k < |ss| && Voted(ss[k], v, e, c)
    ensures i < k && acts[i].Vote? && acts[i].req.to == v && v in ss[i].nodes
    ensures acts[i].req.from == c && Seen(ss[i], acts[i].req) == e
  {
    hide Init;
    InitVotes(ss[0]);
    var s, a := ss[k - 1], acts[k - 1];
    if Voted(s, v, e, c) {
      i := VoteSource(ss, acts, k - 1, v, e, c);
    } else {
      i := k - 1;
    }
  }

  lemma InitVotes(s: State)
    requires Init(s)
    ensures s.votes == map[]
  {}

  // ------------------------------------------------------- why the run must be timely

  // One master, 1, and its replicas 2 and 3.  Replica 2 asks in epoch 1 and gives up; the
  // acknowledgement arrives after it has re-armed and is counted towards epoch 2, in which
  // replica 3 wins the master's real vote.

  function Moment(n1: Node, n2: Node, n3: Node, net: multiset<Msg>, votes: map<(Id, nat), Id>,
                  c2: set<Id>, c3: set<Id>, k2: nat, wins: set<Win>): State {
    State(map[1 := n1, 2 := n2, 3 := n3], net, votes, map[1 := {}, 2 := c2, 3 := c3], map[1 := 0, 2 := k2, 3 := 0], wins)
  }

  const IDLE := Node(0, 0, 0, 0, false)
  const VOTER1 := Node(1, 1, 0, 0, false)
  const VOTER2 := Node(2, 2, 0, 0, false)
  const ASKED2 := Node(1, 0, 1, 0, true)
  const LATE2 := Node(2, 0, 2, 1, true)
  const ASKED3 := Node(2, 0, 2, 0, true)
  const REQ2 := Msg(2, 1, 1, Request)
  const ACK2 := Msg(1, 2, 1, Ack)
  const REQ3 := Msg(3, 1, 2, Request)
  const ACK3 := Msg(1, 3, 2, Ack)
  const VOTE1: map<(Id, nat), Id> := map[(1, 1) := 2]
  const VOTE2: map<(Id, nat), Id> := map[(1, 1) := 2, (1, 2) := 3]
  const WIN2 := Win(2, 2, 1, {}, 1)
  const WIN3 := Win(3, 2, 1, {1}, 0)

  function S0(): State { Moment(IDLE, IDLE, IDLE, multiset{}, map[], {}, {}, 0, {}) }
  function S1(): State { Moment(IDLE, ASKED2, IDLE, multiset{REQ2}, map[], {}, {}, 0, {}) }
  function S2(): State { Moment(VOTER1, ASKED2, IDLE, multiset{ACK2}, VOTE1, {}, {}, 0, {}) }
  function S3(): State { Moment(VOTER1, Node(1, 0, 1, 0, false), IDLE, multiset{ACK2}, VOTE1, {}, {}, 0, {}) }
  function S4(): State { Moment(VOTER1, Node(1, 0, 1, 1, false), IDLE, multiset{}, VOTE1, {1}, {}, 0, {}) }
  function S5(): State { Moment(VOTER1, LATE2, IDLE, multiset{}, VOTE1, {}, {}, 1, {}) }
  function S6(): State { Moment(VOTER1, LATE2, IDLE, multiset{}, VOTE1, {}, {}, 1, {WIN2}) }
  function S7(): State { Moment(VOTER1, LATE2, Node(1, 0, 0, 0, false), multiset{}, VOTE1, {}, {}, 1, {WIN2}) }
  function S8(): State { Moment(VOTER1, LATE2, ASKED3, multiset{REQ3}, VOTE1, {}, {}, 1, {WIN2}) }
  function S9(): State { Moment(VOTER2, LATE2, ASKED3, multiset{ACK3}, VOTE2, {}, {}, 1, {WIN2}) }
  function S10(): State { Moment(VOTER2, LATE2, Node(2, 0, 2, 1, true), multiset{}, VOTE2, {}, {1}, 1, {WIN2}) }
  function S11(): State { Moment(VOTER2, LATE2, Node(2, 0, 2, 1, true), multiset{}, VOTE2, {}, {1}, 1, {WIN2, WIN3}) }

  ghost predicate Step(s: State, a: Action, s': State) {
    Shape(s) && Enabled(s, a) && s' == Do(s, a)
  }

  lemma Updates<T>(a: T, b: T, c: T, x: T)
    ensures var m := map[1 := a, 2 := b, 3 := c];
            m[1 := x] == map[1 := x, 2 := b, 3 := c] && m[2 := x] == map[1 := a, 2 := x, 3 := c]
            && m[3 := x] == map[1 := a, 2 := b, 3 := x]
  {}

  lemma Split0() ensures Step(S0(), Ask(2, multiset{REQ2}), S1()) {}
  lemma Split1() ensures Step(S1(), Vote(REQ2, true), S2()) {}
  lemma Split2() ensures Step(S2(), Rearm(2), S3()) {}
  lemma Split3() ensures Step(S3(), CountAck(ACK2), S4()) {
    Updates(VOTER1, Node(1, 0, 1, 0, false), IDLE, Node(1, 0, 1, 1, false));
    Updates<set<Id>>({}, {}, {}, {1});
    assert multiset{ACK2} - multiset{ACK2} == multiset{};
    assert S3().counted[2] + {ACK2.from} == {1};
  }
  lemma Split4() ensures Step(S4(), Ask(2, multiset{}), S5()) {
    Updates(VOTER1, Node(1, 0, 1, 1, false), IDLE, LATE2);
    Updates<set<Id>>({}, {1}, {}, {});
    Updates<nat>(0, 0, 0, 1);
  }
  lemma Split5() ensures Step(S5(), Declare(2, 1), S6()) {}
  lemma Split6() ensures Step(S6(), Noise(3, 1, multiset{}, multiset{}), S7()) {}
  lemma Split7() ensures Step(S7(), Ask(3, multiset{REQ3}), S8()) {}
  lemma Split8() ensures Step(S8(), Vote(REQ3, true), S9()) {
    Updates(VOTER1, LATE2, ASKED3, VOTER2);
  }
  lemma Split9() ensures Step(S9(), CountAck(ACK3), S10()) {
    Updates(VOTER2, LATE2, ASKED3, Node(2, 0, 2, 1, true));
    Updates<set<Id>>({}, {}, {}, {1});
    assert multiset{ACK3} - multiset{ACK3} == multiset{};
    assert S9().counted[3] + {ACK3.from} == {1};
  }
  lemma Split10() ensures Step(S10(), Declare(3, 1), S11()) {}

  lemma UntimelyRunSplits()
    ensures Run([S0(), S1(), S2(), S3(), S4(), S5(), S6(), S7(), S8(), S9(), S10(), S11()],
                [Ask(2, multiset{REQ2}), Vote(REQ2, true), Rearm(2), CountAck(ACK2), Ask(2, multiset{}),
                 Declare(2, 1), Noise(3, 1, multiset{}, multiset{}), Ask(3, multiset{REQ3}),
                 Vote(REQ3, true), CountAck(ACK3), Declare(3, 1)])
    ensures WIN2 in S11().wins && WIN3 in S11().wins && WIN2.epoch == WIN3.epoch && WIN2.who != WIN3.who
    ensures WIN2.size == WIN3.size == |{1}| && forall v, c :: Voted(S11(), v, 2, c) ==> v in {1}
  {
    Split0();
    Split1();
    Split2();
    Split3();
    Split4();
    Split5();
    Split6();
    Split7();
    Split8();
    Split9();
    Split10();
    SplitEnd();
    hide S0, S1, S2, S3, S4, S5, S6, S7, S8, S9, S10, S11;
    hide Do;
    hide Enabled;
    hide Shape;
  }

  lemma SplitEnd()
    ensures Init(S0())
    ensures WIN2 in S11().wins && WIN3 in S11().wins && WIN2.epoch == WIN3.epoch && WIN2.who != WIN3.who
    ensures forall v, c :: Voted(S11(), v, 2, c) ==> v in {1}
  {}
}
