/**
The whole bus: every node's view, and the packets in flight between them.

Packets may be delayed, reordered and lost, but not duplicated.  Timers, failure detection
and operators act at any moment.  `Epochs` holds in every reachable state, and every step is
a step of `Election`, so its theorems hold here.
*/
module ClusterBus {
  import opened Options
  import opened ClusterView
  import E = Election

  datatype Envelope = Envelope(to: Id, packet: Packet)

  datatype Bus = Bus(slotCount: nat, views: map<Id, View>, net: seq<Envelope>)

  datatype Action =
    | Deliver(i: nat, env: Env)
    | Lose(i: nat)
    | Announce(n: Id, to: Id, body: Body)           // PING, PONG or FAIL, on this node's initiative
    | RearmTimer(n: Id, env: Env)
    | RequestTimer(n: Id, env: Env, voters: seq<Id>)
    | WinTimer(n: Id, env: Env)
    | Manual(n: Id)                                 // CLUSTER FAILOVER TAKEOVER
    | BumpEpoch(n: Id)
    | SlotOrder(n: Id, slot: nat, cmd: SlotCommand, hasKeys: bool)
    | ForgetNode(n: Id, gone: Id)
    | Suspect(n: Id, other: Id, failed: bool)       // the FAIL flag, set or cleared locally
    | Recount(n: Id)
    | AddSlotsOrder(n: Id, js: seq<nat>)            // CLUSTER ADDSLOTS
    | DelSlotsOrder(n: Id, js: seq<nat>)
    | ReplicateOrder(n: Id, m: Id, hasKeys: bool)   // CLUSTER REPLICATE
    | MoveReplica(n: Id, m: Id)                     // to an orphaned master

  // The node that acts.
  function Actor(b: Bus, a: Action): Option<Id> {
    match a
    case Deliver(i, _) => if i < |b.net| then Some(b.net[i].to) else None
    case Lose(_) => None
    case Announce(n, _, _) => Some(n)
    case RearmTimer(n, _) => Some(n)
    case RequestTimer(n, _, _) => Some(n)
    case WinTimer(n, _) => Some(n)
    case Manual(n) => Some(n)
    case BumpEpoch(n) => Some(n)
    case SlotOrder(n, _, _, _) => Some(n)
    case ForgetNode(n, _) => Some(n)
    case Suspect(n, _, _) => Some(n)
    case Recount(n) => Some(n)
    case AddSlotsOrder(n, _) => Some(n)
    case DelSlotsOrder(n, _) => Some(n)
    case ReplicateOrder(n, _, _) => Some(n)
    case MoveReplica(n, _) => Some(n)
  }

  // A packet a node other than its sender can receive.
  ghost predicate Sendable(k: nat, e: Envelope) {
    var p := e.packet;
    && p.hdr.sender != e.to && p.hdr.slaveof != Some(p.hdr.sender)
    && |p.hdr.claimed| == k && (p.body.Update? ==> |p.body.served| == k)
  }

  ghost predicate Wellformed(b: Bus) {
    && (forall n :: n in b.views ==> b.views[n].me == n && Ok(b.views[n]) && |b.views[n].slots| == b.slotCount)
    && (forall i :: 0 <= i < |b.net| ==> Sendable(b.slotCount, b.net[i]))
  }

  ghost predicate Enabled(b: Bus, a: Action) {
    match Actor(b, a)
    case None => a.Lose? && a.i < |b.net|
    case Some(n) => n in b.views && Ok(b.views[n]) && Allowed(b, b.views[n], a)
  }

  ghost predicate Allowed(b: Bus, v: View, a: Action)
    requires Ok(v)
  {
    match a
    case Deliver(i, _) => i < |b.net| && Receivable(v, b.net[i].packet)
    case Lose(_) => false
    case Announce(_, to, body) => (body.Ping? || body.Pong? || body.Fail?) && to != v.me
    case RearmTimer(_, env) => MayFailover(v, env)
    case RequestTimer(_, env, to) => MayFailover(v, env) && !v.authSent && v.me !in to
    case WinTimer(_, env) => MayFailover(v, env) && Elected(v)
    case Manual(_) => !v.nodes[v.me].master
    case BumpEpoch(_) => true
    case SlotOrder(_, slot, _, _) => slot < |v.slots|
    case ForgetNode(_, gone) => gone != v.me && v.nodes[v.me].slaveof != Some(gone)
    case Suspect(_, other, _) => other in v.nodes
    case Recount(_) => true
    case AddSlotsOrder(_, _) => true
    case DelSlotsOrder(_, _) => true
    case ReplicateOrder(_, _, _) => true
    case MoveReplica(_, m) => !v.nodes[v.me].master && Orphan(v, m)
  }

  // The actor's new view.
  ghost function NewView(b: Bus, a: Action): View
    requires Enabled(b, a) && Actor(b, a).Some?
  {
    var v := b.views[Actor(b, a).value];
    match a
    case Deliver(i, env) => Process(v, b.net[i].packet, env).0
    case Announce(_, _, _) => v
    case RearmTimer(_, _) => Rearm(v)
    case RequestTimer(_, _, _) => RequestVotes(v)
    case WinTimer(_, _) => TakeOver(v)
    case Manual(_) => ReplaceYourMaster(Bump(v))
    case BumpEpoch(_) => Bump(v)
    case SlotOrder(_, slot, cmd, hasKeys) => SetSlot(v, slot, cmd, hasKeys)
    case ForgetNode(_, gone) => Forget(v, gone)
    case Suspect(_, other, failed) => v.(nodes := v.nodes[other := v.nodes[other].(failed := failed)])
    case Recount(_) => UpdateState(v)
    case AddSlotsOrder(_, js) => ChangeSlots(v, js, false)
    case DelSlotsOrder(_, js) => ChangeSlots(v, js, true)
    case ReplicateOrder(_, m, hasKeys) => Replicate(v, m, hasKeys)
    case MoveReplica(_, m) => SetMaster(v, m)
  }

  function Address(to: Id, ps: seq<Packet>): (es: seq<Envelope>)
    ensures |es| == |ps| && forall i :: 0 <= i < |ps| ==> es[i] == Envelope(to, ps[i])
  {
    seq(|ps|, i requires 0 <= i < |ps| => Envelope(to, ps[i]))
  }

  function Broadcast(p: Packet, to: seq<Id>): (es: seq<Envelope>)
    ensures |es| == |to| && forall i :: 0 <= i < |to| ==> es[i] == Envelope(to[i], p)
  {
    seq(|to|, i requires 0 <= i < |to| => Envelope(to[i], p))
  }

  function Minus<T>(s: seq<T>, i: nat): seq<T>
    requires i < |s|
  {
    s[..i] + s[i + 1..]
  }

  // The packets an action adds to the net, and the ones it takes away.
  ghost function Added(b: Bus, a: Action): seq<Envelope>
    requires Enabled(b, a)
  {
    match a
    case Deliver(i, env) =>
      var p := b.net[i].packet;
      Address(p.hdr.sender, Process(b.views[b.net[i].to], p, env).1)
    case Announce(n, to, body) => [Envelope(to, Packet(BuildHeader(b.views[n]), body))]
    case RequestTimer(n, env, voters) =>
      RequestVotesOk(b.views[n]);
      Broadcast(Packet(BuildHeader(RequestVotes(b.views[n])), AuthRequest(env.manual)), voters)
    case _ => []
  }

  ghost function Removed(b: Bus, a: Action): seq<Envelope>
    requires Enabled(b, a)
  {
    if a.Deliver? || a.Lose? then [b.net[a.i]] else []
  }

  ghost function NewNet(b: Bus, a: Action): seq<Envelope>
    requires Enabled(b, a)
  {
    (if a.Deliver? || a.Lose? then Minus(b.net, a.i) else b.net) + Added(b, a)
  }

  lemma RequestVotesOk(v: View)
    requires Ok(v)
    ensures Ok(RequestVotes(v))
  {}

  ghost function Next(b: Bus, a: Action): Bus
    requires Enabled(b, a)
  {
    Bus(b.slotCount, if Actor(b, a).Some? then b.views[Actor(b, a).value := NewView(b, a)] else b.views, NewNet(b, a))
  }

  // -------------------------------------------------------------------- global epochs

  // No epoch a node knows of exceeds its current epoch; nor does one in a packet.
  ghost predicate Bounded(v: View) {
    && (forall n :: n in v.nodes ==> v.nodes[n].configEpoch <= v.currentEpoch)
    && v.lastVoteEpoch <= v.currentEpoch
    && v.authEpoch <= v.currentEpoch
  }

  ghost predicate BoundedPacket(p: Packet) {
    && p.hdr.configEpoch <= p.hdr.currentEpoch
    && (p.body.Update? ==> p.body.epoch <= p.hdr.currentEpoch)
  }

  ghost predicate Epochs(b: Bus) {
    && (forall n :: n in b.views ==> Bounded(b.views[n]))
    && (forall i :: 0 <= i < |b.net| ==> BoundedPacket(b.net[i].packet))
  }

  // The maximum clusterGetMaxEpoch computes is the current epoch itself.
  lemma MaxEpochIsCurrent(v: View)
    requires Bounded(v)
    ensures MaxEpoch(v) == v.currentEpoch
  {}

  lemma HeaderBounded(v: View, body: Body)
    requires Ok(v) && Bounded(v) && !body.Update?
    ensures BoundedPacket(Packet(BuildHeader(v), body))
  {}

  lemma SeeEpochsBounded(v: View, h: Header)
    requires Bounded(v) && h.sender in v.nodes && h.configEpoch <= h.currentEpoch
    ensures Bounded(SeeEpochs(v, h))
  {}

  lemma {:induction false} CorrectionBounded(v: View, h: Header, j: nat)
    requires Ok(v) && j <= |v.slots| == |h.claimed| && Bounded(v)
    ensures forall i :: 0 <= i < |Correction(v, h, j)| ==> BoundedPacket(Correction(v, h, j)[i])
    decreases |v.slots| - j
  {
    if j < |v.slots| {
      CorrectionBounded(v, h, j + 1);
    }
  }

  lemma HandleUpdateBounded(v: View, about: Id, epoch: nat, served: seq<bool>, allow: bool)
    requires Ok(v) && |served| == |v.slots| && Bounded(v) && epoch <= v.currentEpoch
    ensures Bounded(HandleUpdate(v, about, epoch, served, allow))
  {
    hide UpdateSlots;
    if about in v.nodes && v.nodes[about].configEpoch < epoch {
      var v1 := WithEpoch(if v.nodes[about].master then v else SetNodeAsMaster(v, about), about, epoch);
      UpdateSlotsEpochs(v1, about, epoch, served, allow);
    }
  }

  lemma ProcessBodyBounded(v: View, p: Packet, env: Env)
    requires Ok(v) && Receivable(v, p) && p.hdr.sender in v.nodes
    requires Bounded(v) && BoundedPacket(p) && p.hdr.currentEpoch <= v.currentEpoch
    ensures Bounded(ProcessBody(v, p, env).0)
    ensures var out := ProcessBody(v, p, env).1; forall i :: 0 <= i < |out| ==> BoundedPacket(out[i])
  {
    hide Reconfigure;
    hide HandleUpdate;
    hide Correction;
    hide Superseded;
    hide Dirty;
    match p.body
    case Update(about, epoch, served) => HandleUpdateBounded(v, about, epoch, served, env.allowMigration);
    case Fail(_) =>
    case AuthRequest(_) =>
    case AuthAck =>
    case _ =>
      ReconfigureOk(v, p.hdr, env.allowMigration);
      ReconfigureEpochs(v, p.hdr, env.allowMigration);
      CorrectionBounded(Reconfigure(v, p.hdr, env.allowMigration), p.hdr, 0);
  }

  lemma ProcessBounded(v: View, p: Packet, env: Env)
    requires Ok(v) && Receivable(v, p) && Bounded(v) && BoundedPacket(p)
    ensures Bounded(Process(v, p, env).0)
    ensures var out := Process(v, p, env).1; forall i :: 0 <= i < |out| ==> BoundedPacket(out[i])
  {
    hide ProcessBody;
    hide SeeEpochs;
    hide Bounded;
    if p.hdr.sender in v.nodes {
      var v1 := SeeEpochs(v, p.hdr);
      SeeEpochsOk(v, p.hdr);
      SeeEpochsBounded(v, p.hdr);
      assert p.hdr.currentEpoch <= v1.currentEpoch by { Sees(v, p.hdr); }
      ProcessBodyBounded(v1, p, env);
      HeaderBounded(v1, Pong);
    } else {
      HeaderBounded(v, Pong);
    }
  }

  lemma Sees(v: View, h: Header)
    requires h.sender in v.nodes
    ensures SeeEpochs(v, h).currentEpoch >= h.currentEpoch
  {}

  lemma BumpBounded(v: View)
    requires Ok(v) && Bounded(v)
    ensures Bounded(Bump(v)) && Ok(Bump(v))
  {}

  lemma SetSlotBounded(v: View, j: nat, cmd: SlotCommand, hasKeys: bool)
    requires Ok(v) && j < |v.slots| && Bounded(v)
    ensures Bounded(SetSlot(v, j, cmd, hasKeys))
  {
    if !SetSlotRefused(v, j, cmd, hasKeys) && cmd.Assign? {
      hide MaxEpoch;
      var v1 := v.(slots := v.slots[j := Some(cmd.owner)],
                   migrating := if hasKeys then v.migrating else v.migrating[j := None]);
      BumpBounded(v1);
    }
  }

  lemma ReplaceBounded(v: View)
    requires Ok(v) && Bounded(v)
    ensures Bounded(ReplaceYourMaster(v))
  {}

  lemma TakeOverBounded(v: View)
    requires Ok(v) && Bounded(v)
    ensures Bounded(TakeOver(v))
  {
    hide ReplaceYourMaster;
    ReplaceBounded(WithEpoch(v, v.me, Max(v.nodes[v.me].configEpoch, v.authEpoch)));
  }

  lemma ForgetBounded(v: View, n: Id)
    requires Bounded(v)
    ensures Bounded(Forget(v, n))
  {}

  lemma SuspectBounded(v: View, other: Id, failed: bool)
    requires Bounded(v) && other in v.nodes
    ensures Bounded(v.(nodes := v.nodes[other := v.nodes[other].(failed := failed)]))
  {}

  lemma NewViewBounded(b: Bus, a: Action)
    requires Wellformed(b) && Epochs(b) && Enabled(b, a) && Actor(b, a).Some?
    ensures Bounded(NewView(b, a))
  {
    hide Process;
    hide SetSlot;
    hide Bump;
    hide ReplaceYourMaster;
    hide TakeOver;
    hide Forget;
    hide SlotServers;
    hide OwnersKnown;
    var v := b.views[Actor(b, a).value];
    match a
    case Deliver(i, env) => ProcessBounded(v, b.net[i].packet, env);
    case SlotOrder(_, slot, cmd, hasKeys) => SetSlotBounded(v, slot, cmd, hasKeys);
    case WinTimer(_, _) => TakeOverBounded(v);
    case BumpEpoch(_) => BumpBounded(v);
    case ForgetNode(_, gone) => ForgetBounded(v, gone);
    case Suspect(_, other, failed) => SuspectBounded(v, other, failed);
    case Manual(_) =>
      BumpBounded(v);
      ReplaceBounded(Bump(v));
    case _ =>
  }

  lemma NewNetBounded(b: Bus, a: Action)
    requires Wellformed(b) && Epochs(b) && Enabled(b, a)
    ensures forall i :: 0 <= i < |NewNet(b, a)| ==> BoundedPacket(NewNet(b, a)[i].packet)
  {
    hide Process;
    hide BoundedPacket;
    hide BuildHeader;
    hide Ok;
    hide Bounded;
    match a
    case Deliver(i, env) => ProcessBounded(b.views[b.net[i].to], b.net[i].packet, env);
    case Announce(n, to, body) => HeaderBounded(b.views[n], body);
    case RequestTimer(n, env, _) =>
      RequestVotesOk(b.views[n]);
      RequestVotesBounded(b.views[n]);
      HeaderBounded(RequestVotes(b.views[n]), AuthRequest(env.manual));
    case _ =>
  }

  lemma RequestVotesBounded(v: View)
    requires Bounded(v)
    ensures Bounded(RequestVotes(v))
  {}

  lemma EpochsStep(b: Bus, a: Action)
    requires Wellformed(b) && Epochs(b) && Enabled(b, a)
    ensures Epochs(Next(b, a))
  {
    hide NewView;
    hide NewNet;
    hide Bounded;
    hide BoundedPacket;
    NewNetBounded(b, a);
    if Actor(b, a).Some? {
      NewViewBounded(b, a);
    }
  }

  // ------------------------------------------------------------------- well-formedness

  lemma {:induction false} CorrectionSendable(v: View, h: Header, j: nat)
    requires Ok(v) && j <= |v.slots| == |h.claimed| && h.sender != v.me
    ensures forall i :: 0 <= i < |Correction(v, h, j)| ==> Sendable(|v.slots|, Envelope(h.sender, Correction(v, h, j)[i]))
    decreases |v.slots| - j
  {
    if j < |v.slots| {
      CorrectionSendable(v, h, j + 1);
    }
  }

  lemma HeaderSendable(v: View, to: Id, body: Body)
    requires Ok(v) && to != v.me && !body.Update?
    ensures Sendable(|v.slots|, Envelope(to, Packet(BuildHeader(v), body)))
  {}

  lemma ProcessBodySendable(v: View, p: Packet, env: Env)
    requires Ok(v) && Receivable(v, p) && p.hdr.sender in v.nodes
    ensures var out := ProcessBody(v, p, env).1;
            forall i :: 0 <= i < |out| ==> Sendable(|v.slots|, Envelope(p.hdr.sender, out[i]))
  {
    hide Reconfigure;
    hide Correction;
    hide HandleUpdate;
    hide BuildHeader;
    hide Sendable;
    match p.body
    case AuthRequest(force) =>
      if GrantsVote(v, p.hdr, force, env.now, env.timeout) {
        CastVoteOk(v, p.hdr.sender, env.now);
        HeaderSendable(CastVote(v, p.hdr.sender, env.now), p.hdr.sender, AuthAck);
      }
    case Update(_, _, _) =>
    case Fail(_) =>
    case AuthAck =>
    case _ =>
      ReconfigureOk(v, p.hdr, env.allowMigration);
      CorrectionSendable(Reconfigure(v, p.hdr, env.allowMigration), p.hdr, 0);
  }

  lemma ProcessSendable(v: View, p: Packet, env: Env)
    requires Ok(v) && Receivable(v, p)
    ensures var out := Process(v, p, env).1;
            forall i :: 0 <= i < |out| ==> Sendable(|v.slots|, Envelope(p.hdr.sender, out[i]))
  {
    hide ProcessBody;
    hide Sendable;
    hide BuildHeader;
    if p.hdr.sender in v.nodes {
      var v1 := SeeEpochs(v, p.hdr);
      SeeEpochsOk(v, p.hdr);
      ProcessBodySendable(v1, p, env);
      HeaderSendable(v1, p.hdr.sender, Pong);
    } else {
      HeaderSendable(v, p.hdr.sender, Pong);
    }
  }

  lemma NewNetSendable(b: Bus, a: Action)
    requires Wellformed(b) && Enabled(b, a)
    ensures forall i :: 0 <= i < |NewNet(b, a)| ==> Sendable(b.slotCount, NewNet(b, a)[i])
  {
    hide Process;
    hide Sendable;
    hide BuildHeader;
    hide Ok;
    match a
    case Deliver(i, env) => ProcessSendable(b.views[b.net[i].to], b.net[i].packet, env);
    case Announce(n, to, body) => HeaderSendable(b.views[n], to, body);
    case RequestTimer(n, env, voters) =>
      RequestVotesOk(b.views[n]);
      forall k | 0 <= k < |voters|
        ensures Sendable(b.slotCount, Broadcast(Packet(BuildHeader(RequestVotes(b.views[n])), AuthRequest(env.manual)), voters)[k])
      {
        HeaderSendable(RequestVotes(b.views[n]), voters[k], AuthRequest(env.manual));
      }
    case _ =>
  }

  lemma SuspectOk(v: View, other: Id, failed: bool)
    requires Ok(v) && other in v.nodes
    ensures Keeps(v, v.(nodes := v.nodes[other := v.nodes[other].(failed := failed)]))
  {}

  lemma NewViewOk(b: Bus, a: Action)
    requires Wellformed(b) && Enabled(b, a) && Actor(b, a).Some?
    ensures var v' := NewView(b, a); Ok(v') && v'.me == Actor(b, a).value && |v'.slots| == b.slotCount
  {
    hide Process;
    hide SetSlot;
    hide Bump;
    hide ReplaceYourMaster;
    hide TakeOver;
    hide Serving;
    hide SlotServers;
    var v := b.views[Actor(b, a).value];
    match a
    case Deliver(i, env) => ProcessOk(v, b.net[i].packet, env);
    case SlotOrder(_, slot, cmd, hasKeys) => SetSlotOk(v, slot, cmd, hasKeys);
    case ForgetNode(_, gone) => ForgetOk(v, gone);
    case WinTimer(_, _) => TakeOverOk(v);
    case BumpEpoch(_) => BumpOk(v);
    case AddSlotsOrder(_, js) => ChangeSlotsOk(v, js, false);
    case DelSlotsOrder(_, js) => ChangeSlotsOk(v, js, true);
    case ReplicateOrder(_, m, hasKeys) => ReplicateOk(v, m, hasKeys);
    case MoveReplica(_, m) => SetMasterOk(v, m);
    case Suspect(_, other, failed) => SuspectOk(v, other, failed);
    case Manual(_) =>
      BumpOk(v);
      ReplaceYourMasterOk(Bump(v));
    case _ =>
  }

  lemma WellformedStep(b: Bus, a: Action)
    requires Wellformed(b) && Enabled(b, a)
    ensures Wellformed(Next(b, a))
  {
    hide NewView;
    hide NewNet;
    hide Sendable;
    hide Ok;
    NewNetSendable(b, a);
    if Actor(b, a).Some? {
      NewViewOk(b, a);
    }
  }

  // ----------------------------------------------------------------------------- runs

  ghost predicate Run(bs: seq<Bus>, acts: seq<Action>) {
    && |bs| == |acts| + 1
    && Wellformed(bs[0]) && Epochs(bs[0]) && bs[0].net == []
    && (forall n :: n in bs[0].views ==> bs[0].views[n].authCount == 0 && !bs[0].views[n].authSent)
    && forall i :: 0 <= i < |acts| ==> Enabled(bs[i], acts[i]) && bs[i + 1] == Next(bs[i], acts[i])
  }

  // In every reachable state, epochs are bounded and every view is well formed.
  lemma {:induction false} EpochsInvariant(bs: seq<Bus>, acts: seq<Action>, k: nat)
    requires Run(bs, acts) && k < |bs|
    ensures Wellformed(bs[k]) && Epochs(bs[k])
  {
    hide Wellformed;
    hide Epochs;
    hide Enabled;
    hide Next;
    if k > 0 {
      EpochsInvariant(bs, acts, k - 1);
      WellformedStep(bs[k - 1], acts[k - 1]);
      EpochsStep(bs[k - 1], acts[k - 1]);
    }
  }

  // ------------------------------------------------------------- refinement of Election

  function AbsNode(v: View): E.Node {
    E.Node(v.currentEpoch, v.lastVoteEpoch, v.authEpoch, v.authCount, v.authSent)
  }

  function AbsKind(body: Body): E.Kind {
    match body
    case AuthRequest(_) => E.Request
    case AuthAck => E.Ack
    case _ => E.Other
  }

  function AbsMsg(e: Envelope): E.Msg {
    E.Msg(e.packet.hdr.sender, e.to, e.packet.hdr.currentEpoch, AbsKind(e.packet.body))
  }

  function AbsNet(net: seq<Envelope>): seq<E.Msg> {
    seq(|net|, i requires 0 <= i < |net| => AbsMsg(net[i]))
  }

  // The election state sees of the bus what concerns elections.
  ghost predicate Rep(b: Bus, s: E.State) {
    && E.Shape(s)
    && s.nodes == (map n | n in b.views :: AbsNode(b.views[n]))
    && s.net == multiset(AbsNet(b.net))
  }

  // Does this delivery cast a vote, or count one?
  ghost predicate CastsVote(b: Bus, a: Action)
    requires Enabled(b, a)
  {
    a.Deliver? &&
    var v, p := b.views[b.net[a.i].to], b.net[a.i].packet;
    p.body.AuthRequest? && p.hdr.sender in v.nodes
    && (SeeEpochsOk(v, p.hdr); GrantsVote(SeeEpochs(v, p.hdr), p.hdr, p.body.force, a.env.now, a.env.timeout))
  }

  ghost predicate CountsAck(b: Bus, a: Action)
    requires Enabled(b, a)
  {
    a.Deliver? &&
    var v, p := b.views[b.net[a.i].to], b.net[a.i].packet;
    p.body.AuthAck? && p.hdr.sender in v.nodes && CountsVote(SeeEpochs(v, p.hdr), p.hdr)
  }

  lemma AbsMinus(net: seq<Envelope>, i: nat)
    requires i < |net|
    ensures multiset(AbsNet(Minus(net, i))) == multiset(AbsNet(net)) - multiset{AbsMsg(net[i])}
    ensures AbsMsg(net[i]) in multiset(AbsNet(net))
  {
    var abs := AbsNet(net);
    assert AbsNet(Minus(net, i)) == abs[..i] + abs[i + 1..];
    assert abs == abs[..i] + [abs[i]] + abs[i + 1..];
  }

  lemma AbsConcat(x: seq<Envelope>, y: seq<Envelope>)
    ensures AbsNet(x + y) == AbsNet(x) + AbsNet(y)
  {}

  lemma NetMoves(b: Bus, a: Action)
    requires Enabled(b, a)
    ensures multiset(AbsNet(NewNet(b, a)))
         == multiset(AbsNet(b.net)) - multiset(AbsNet(Removed(b, a))) + multiset(AbsNet(Added(b, a)))
    ensures multiset(AbsNet(Removed(b, a))) <= multiset(AbsNet(b.net))
  {
    hide Added;
    hide Minus;
    if a.Deliver? || a.Lose? {
      AbsConcat(Minus(b.net, a.i), Added(b, a));
      AbsMinus(b.net, a.i);
      assert AbsNet([b.net[a.i]]) == [AbsMsg(b.net[a.i])];
    } else {
      AbsConcat(b.net, Added(b, a));
      assert AbsNet([]) == [];
    }
  }

  ghost function Mimic(b: Bus, a: Action): E.Action
    requires Enabled(b, a) && b.views != map[]
  {
    match Actor(b, a)
    case None =>
      var n :| n in b.views;
      E.Noise(n, b.views[n].currentEpoch, multiset(AbsNet(Removed(b, a))), multiset{})
    case Some(n) =>
      if CastsVote(b, a) then E.Vote(AbsMsg(b.net[a.i]), a.env.linked)
      else if CountsAck(b, a) then E.CountAck(AbsMsg(b.net[a.i]))
      else if a.RearmTimer? then E.Rearm(n)
      else if a.RequestTimer? then E.Ask(n, multiset(AbsNet(Added(b, a))))
      else if a.WinTimer? then E.Declare(n, b.views[n].size)
      else E.Noise(n, NewView(b, a).currentEpoch, multiset(AbsNet(Removed(b, a))), multiset(AbsNet(Added(b, a))))
  }

  // Only votes, counted acknowledgements and the failover timer touch the election fields.
  ghost predicate Quiet(v: View, v': View, out: seq<Packet>) {
    && v'.currentEpoch >= v.currentEpoch
    && AbsNode(v') == AbsNode(v).(cur := v'.currentEpoch)
    && forall i :: 0 <= i < |out| ==> AbsKind(out[i].body) == E.Other
  }

  lemma {:induction false} CorrectionQuiet(v: View, h: Header, j: nat)
    requires Ok(v) && j <= |v.slots| == |h.claimed|
    ensures forall i :: 0 <= i < |Correction(v, h, j)| ==> AbsKind(Correction(v, h, j)[i].body) == E.Other
    decreases |v.slots| - j
  {
    if j < |v.slots| {
      CorrectionQuiet(v, h, j + 1);
    }
  }

  lemma HandleUpdateQuiet(v: View, about: Id, epoch: nat, served: seq<bool>, allow: bool)
    requires Ok(v) && |served| == |v.slots|
    ensures Quiet(v, HandleUpdate(v, about, epoch, served, allow), [])
  {
    hide UpdateSlots;
    if about in v.nodes && v.nodes[about].configEpoch < epoch {
      var v1 := WithEpoch(if v.nodes[about].master then v else SetNodeAsMaster(v, about), about, epoch);
      UpdateSlotsEpochs(v1, about, epoch, served, allow);
    }
  }

  lemma BodyQuiet(v: View, p: Packet, env: Env)
    requires Ok(v) && Receivable(v, p) && p.hdr.sender in v.nodes
    requires p.body.AuthRequest? ==> !GrantsVote(v, p.hdr, p.body.force, env.now, env.timeout)
    requires p.body.AuthAck? ==> !CountsVote(v, p.hdr)
    ensures Quiet(v, ProcessBody(v, p, env).0, ProcessBody(v, p, env).1)
  {
    hide Reconfigure;
    hide HandleUpdate;
    hide Correction;
    hide GrantsVote;
    hide CountsVote;
    hide Dirty;
    match p.body
    case Update(about, epoch, served) => HandleUpdateQuiet(v, about, epoch, served, env.allowMigration);
    case Fail(_) =>
    case AuthRequest(_) =>
    case AuthAck =>
    case _ =>
      ReconfigureOk(v, p.hdr, env.allowMigration);
      ReconfigureEpochs(v, p.hdr, env.allowMigration);
      CorrectionQuiet(Reconfigure(v, p.hdr, env.allowMigration), p.hdr, 0);
  }

  lemma DeliveryQuiet(b: Bus, a: Action)
    requires Wellformed(b) && Enabled(b, a) && a.Deliver? && !CastsVote(b, a) && !CountsAck(b, a)
    ensures var v, p := b.views[b.net[a.i].to], b.net[a.i].packet;
            Quiet(v, Process(v, p, a.env).0, Process(v, p, a.env).1)
  {
    hide ProcessBody;
    hide BuildHeader;
    hide GrantsVote;
    hide CountsVote;
    var v, p := b.views[b.net[a.i].to], b.net[a.i].packet;
    if p.hdr.sender in v.nodes {
      SeeEpochsOk(v, p.hdr);
      BodyQuiet(SeeEpochs(v, p.hdr), p, a.env);
    }
  }

  // What the other actions do to the election fields.
  lemma CommandQuiet(b: Bus, a: Action)
    requires Wellformed(b) && Enabled(b, a) && Actor(b, a).Some?
    requires !a.Deliver? && !a.RearmTimer? && !a.RequestTimer?
    ensures Quiet(b.views[Actor(b, a).value], NewView(b, a), [])
    ensures a.WinTimer? ==> AbsNode(NewView(b, a)) == AbsNode(b.views[Actor(b, a).value])
  {
    hide MaxEpoch;
    hide SlotServers;
    hide Serving;
    hide Ok;
  }

  // The abstract nodes after the actor's view has changed.
  lemma NodesAfter(b: Bus, a: Action, s: E.State)
    requires Enabled(b, a) && Rep(b, s)
    ensures Actor(b, a).Some? ==>
      var n := Actor(b, a).value;
      n in s.nodes && s.nodes[n] == AbsNode(b.views[n])
      && (map k | k in Next(b, a).views :: AbsNode(Next(b, a).views[k])) == s.nodes[n := AbsNode(NewView(b, a))]
    ensures Actor(b, a).None? ==> (map k | k in Next(b, a).views :: AbsNode(Next(b, a).views[k])) == s.nodes
  {
    hide NewView;
    hide NewNet;
    hide AbsNode;
  }

  lemma RepAfter(b: Bus, a: Action, s: E.State, s': E.State)
    requires Enabled(b, a) && Rep(b, s) && E.Shape(s')
    requires s'.nodes == match Actor(b, a) case Some(n) => s.nodes[n := AbsNode(NewView(b, a))] case None => s.nodes
    requires s'.net == s.net - multiset(AbsNet(Removed(b, a))) + multiset(AbsNet(Added(b, a)))
    ensures Rep(Next(b, a), s')
  {
    hide NewView;
    hide Added;
    hide Removed;
    hide AbsNet;
    hide Enabled;
    NetMoves(b, a);
    NodesAfter(b, a, s);
  }

  lemma RepFacts(b: Bus, a: Action, s: E.State)
    requires Enabled(b, a) && Rep(b, s)
    ensures E.Shape(s) && s.nodes.Keys == b.views.Keys
    ensures forall n :: n in b.views ==> s.nodes[n] == AbsNode(b.views[n])
    ensures multiset(AbsNet(Removed(b, a))) <= s.net
    ensures a.Deliver? ==> AbsMsg(b.net[a.i]) in s.net
    ensures a.Deliver? ==> multiset(AbsNet(Removed(b, a))) == multiset{AbsMsg(b.net[a.i])}
  {
    hide Added;
    NetMoves(b, a);
    if a.Deliver? {
      AbsMinus(b.net, a.i);
      assert AbsNet(Removed(b, a)) == [AbsMsg(b.net[a.i])];
    }
  }

  lemma VoteDetails(b: Bus, a: Action)
    requires Wellformed(b) && Enabled(b, a) && CastsVote(b, a)
    ensures var v, m := b.views[b.net[a.i].to], AbsMsg(b.net[a.i]);
            var e := Max(v.currentEpoch, m.epoch);
            && m.kind == E.Request && m.epoch >= e && v.lastVoteEpoch != e
            && AbsNode(NewView(b, a)) == AbsNode(v).(cur := e, lastVote := e)
            && AbsNet(Added(b, a)) == if a.env.linked then [E.Msg(m.to, m.from, e, E.Ack)] else []
  {
    hide Superseded;
    hide Serving;
    hide Bitmap;
    var v, p := b.views[b.net[a.i].to], b.net[a.i].packet;
    SeeEpochsOk(v, p.hdr);
    CastVoteOk(SeeEpochs(v, p.hdr), p.hdr.sender, a.env.now);
    var e := Max(v.currentEpoch, p.hdr.currentEpoch);
    if a.env.linked {
      assert |Added(b, a)| == 1 && AbsMsg(Added(b, a)[0]) == E.Msg(v.me, p.hdr.sender, e, E.Ack);
    }
  }

  lemma RefineVote(b: Bus, a: Action, s: E.State)
    requires Wellformed(b) && Enabled(b, a) && b.views != map[] && Rep(b, s) && CastsVote(b, a)
    ensures E.Enabled(s, Mimic(b, a)) && Rep(Next(b, a), E.Do(s, Mimic(b, a)))
  {
    hide NewView;
    hide Added;
    hide Removed;
    hide AbsNet;
    hide Wellformed;
    hide Rep;
    hide Next;
    hide GrantsVote;
    RepFacts(b, a, s);
    VoteDetails(b, a);
    RepAfter(b, a, s, E.Do(s, Mimic(b, a)));
  }

  lemma AckDetails(b: Bus, a: Action)
    requires Wellformed(b) && Enabled(b, a) && CountsAck(b, a)
    ensures var v, m := b.views[b.net[a.i].to], AbsMsg(b.net[a.i]);
            && m.kind == E.Ack && m.epoch >= v.authEpoch
            && AbsNode(NewView(b, a)) == AbsNode(v).(cur := Max(v.currentEpoch, m.epoch), count := v.authCount + 1)
            && AbsNet(Added(b, a)) == []
  {
    hide Serving;
    var v, p := b.views[b.net[a.i].to], b.net[a.i].packet;
    SeeEpochsOk(v, p.hdr);
  }

  lemma RefineAck(b: Bus, a: Action, s: E.State)
    requires Wellformed(b) && Enabled(b, a) && b.views != map[] && Rep(b, s) && CountsAck(b, a)
    ensures !CastsVote(b, a)
    ensures E.Enabled(s, Mimic(b, a)) && Rep(Next(b, a), E.Do(s, Mimic(b, a)))
  {
    hide NewView;
    hide Added;
    hide Removed;
    hide AbsNet;
    hide Wellformed;
    hide Rep;
    hide Next;
    hide CountsVote;
    RepFacts(b, a, s);
    AckDetails(b, a);
    RepAfter(b, a, s, E.Do(s, Mimic(b, a)));
  }

  lemma TimerDetails(b: Bus, a: Action)
    requires Wellformed(b) && Enabled(b, a) && (a.RearmTimer? || a.RequestTimer?)
    ensures var v := b.views[a.n];
            && AbsNode(NewView(b, a)) == (if a.RearmTimer? then AbsNode(v).(count := 0, sent := false)
                 else AbsNode(v).(cur := v.currentEpoch + 1, authEpoch := v.currentEpoch + 1, sent := true))
            && AbsNet(Removed(b, a)) == []
            && (a.RearmTimer? ==> AbsNet(Added(b, a)) == [])
            && (a.RequestTimer? ==> !v.authSent && forall m :: m in AbsNet(Added(b, a)) ==>
                 m.kind == E.Request && m.from == a.n && m.epoch == v.currentEpoch + 1)
  {
    hide Bitmap;
    hide Serving;
  }

  lemma RefineTimer(b: Bus, a: Action, s: E.State)
    requires Wellformed(b) && Enabled(b, a) && b.views != map[] && Rep(b, s) && (a.RearmTimer? || a.RequestTimer?)
    ensures E.Enabled(s, Mimic(b, a)) && Rep(Next(b, a), E.Do(s, Mimic(b, a)))
  {
    hide NewView;
    hide Added;
    hide Removed;
    hide AbsNet;
    hide Wellformed;
    hide Rep;
    hide Next;
    RepFacts(b, a, s);
    TimerDetails(b, a);
    RepAfter(b, a, s, E.Do(s, Mimic(b, a)));
  }

  lemma NoiseDetails(b: Bus, a: Action)
    requires Wellformed(b) && Enabled(b, a) && Actor(b, a).Some?
    requires !CastsVote(b, a) && !CountsAck(b, a) && !a.RearmTimer? && !a.RequestTimer?
    ensures var v := b.views[Actor(b, a).value];
            && NewView(b, a).currentEpoch >= v.currentEpoch
            && AbsNode(NewView(b, a)) == AbsNode(v).(cur := NewView(b, a).currentEpoch)
            && (a.WinTimer? ==> AbsNode(NewView(b, a)) == AbsNode(v) && AbsNet(Added(b, a)) == AbsNet(Removed(b, a)) == [])
            && forall m :: m in AbsNet(Added(b, a)) ==> m.kind == E.Other
  {
    hide Process;
    hide Bitmap;
    hide BuildHeader;
    if a.Deliver? {
      DeliveryQuiet(b, a);
    } else {
      CommandQuiet(b, a);
    }
  }

  lemma LostDetails(b: Bus, a: Action, s: E.State)
    requires Enabled(b, a) && Actor(b, a).None? && Rep(b, s) && b.views != map[]
    ensures AbsNet(Added(b, a)) == []
    ensures var n := Mimic(b, a).n; n in s.nodes && s.nodes[n := s.nodes[n].(cur := Mimic(b, a).cur)] == s.nodes
  {}

  lemma RefineWin(b: Bus, a: Action, s: E.State)
    requires Wellformed(b) && Enabled(b, a) && b.views != map[] && Rep(b, s) && a.WinTimer?
    ensures E.Enabled(s, Mimic(b, a)) && Rep(Next(b, a), E.Do(s, Mimic(b, a)))
  {
    hide NewView;
    hide Added;
    hide Removed;
    hide AbsNet;
    hide Wellformed;
    hide Rep;
    hide Next;
    hide MayFailover;
    RepFacts(b, a, s);
    NoiseDetails(b, a);
    assert s.nodes[a.n := AbsNode(NewView(b, a))] == s.nodes;
    RepAfter(b, a, s, E.Do(s, Mimic(b, a)));
  }

  lemma RefineNoise(b: Bus, a: Action, s: E.State)
    requires Wellformed(b) && Enabled(b, a) && b.views != map[] && Rep(b, s)
    requires !CastsVote(b, a) && !CountsAck(b, a) && !a.RearmTimer? && !a.RequestTimer? && !a.WinTimer?
    ensures E.Enabled(s, Mimic(b, a)) && Rep(Next(b, a), E.Do(s, Mimic(b, a)))
  {
    hide NewView;
    hide Added;
    hide Removed;
    hide AbsNet;
    hide Wellformed;
    hide Rep;
    hide Next;
    hide CastsVote;
    hide CountsAck;
    hide Allowed;
    RepFacts(b, a, s);
    if Actor(b, a).Some? {
      NoiseDetails(b, a);
    } else {
      LostDetails(b, a, s);
    }
    RepAfter(b, a, s, E.Do(s, Mimic(b, a)));
  }

  lemma RefineStep(b: Bus, a: Action, s: E.State)
    requires Wellformed(b) && Enabled(b, a) && b.views != map[] && Rep(b, s)
    ensures E.Enabled(s, Mimic(b, a)) && Rep(Next(b, a), E.Do(s, Mimic(b, a)))
  {
    hide *;
    if CastsVote(b, a) {
      RefineVote(b, a, s);
    } else if CountsAck(b, a) {
      RefineAck(b, a, s);
    } else if a.RearmTimer? || a.RequestTimer? {
      RefineTimer(b, a, s);
    } else if a.WinTimer? {
      RefineWin(b, a, s);
    } else {
      RefineNoise(b, a, s);
    }
  }

  // ------------------------------------------------------------- election safety, on the bus

  // No acknowledgement is counted between a replica's re-arming and its next request.
  ghost predicate Timely(b: Bus, a: Action)
    requires Enabled(b, a)
  {
    CountsAck(b, a) ==> b.views[b.net[a.i].to].authSent
  }

  // The actor wins an election of this epoch.
  ghost predicate Wins(b: Bus, a: Action, epoch: nat)
    requires Enabled(b, a)
  {
    a.WinTimer? && b.views[a.n].authEpoch == epoch
  }

  // The epoch in which a delivered packet is handled.
  ghost function VoteEpoch(b: Bus, a: Action): nat
    requires Enabled(b, a) && a.Deliver?
  {
    Max(b.views[b.net[a.i].to].currentEpoch, b.net[a.i].packet.hdr.currentEpoch)
  }

  // The master set against which an epoch's votes are cast and its quorums sized.
  ghost predicate Electorate(b: Bus, a: Action, epoch: nat, masters: set<Id>)
    requires Enabled(b, a)
  {
    && (CastsVote(b, a) && VoteEpoch(b, a) == epoch ==> b.net[a.i].to in masters)
    && (Wins(b, a, epoch) ==> b.views[a.n].size == |masters|)
  }

  // The election state matching the start of a run.
  ghost function Start(b: Bus): E.State {
    E.State(map n | n in b.views :: AbsNode(b.views[n]), multiset{}, map[],
            map n | n in b.views :: {}, map n | n in b.views :: 0, {})
  }

  ghost predicate Shadows(bs: seq<Bus>, acts: seq<Action>, ss: seq<E.State>, es: seq<E.Action>, k: nat)
    requires Run(bs, acts) && k <= |acts| && bs[0].views != map[]
  {
    && |ss| == k + 1 && |es| == k && E.Run(ss, es)
    && (forall i :: 0 <= i <= k ==> Rep(bs[i], ss[i]) && bs[i].views != map[])
    && (forall i :: 0 <= i < k ==> es[i] == Mimic(bs[i], acts[i]))
  }

  lemma StartIsInit(b: Bus)
    requires Wellformed(b) && Epochs(b) && b.net == []
    requires forall n :: n in b.views ==> b.views[n].authCount == 0 && !b.views[n].authSent
    ensures E.Init(Start(b)) && Rep(b, Start(b))
  {
    assert AbsNet(b.net) == [];
  }

  // Every run of the bus is shadowed by a run of the election.
  lemma {:induction false} Simulate(bs: seq<Bus>, acts: seq<Action>, k: nat) returns (ss: seq<E.State>, es: seq<E.Action>)
    requires Run(bs, acts) && k <= |acts| && bs[0].views != map[]
    ensures Shadows(bs, acts, ss, es, k)
  {
    hide Wellformed;
    hide Epochs;
    hide Rep;
    hide Enabled;
    hide Mimic;
    hide E.Enabled;
    hide E.Do;
    hide E.Init;
    hide E.Shape;
    hide Next;
    hide AbsNode;
    if k == 0 {
      StartIsInit(bs[0]);
      ss, es := [Start(bs[0])], [];
    } else {
      ss, es := Simulate(bs, acts, k - 1);
      var b, a, s := bs[k - 1], acts[k - 1], ss[k - 1];
      EpochsInvariant(bs, acts, k - 1);
      RefineStep(b, a, s);
      assert E.Shape(s) by { RepFacts(b, a, s); }
      ss, es := ss + [E.Do(s, Mimic(b, a))], es + [Mimic(b, a)];
      ViewsStay(b, a);
    }
  }

  lemma ViewsStay(b: Bus, a: Action)
    requires Enabled(b, a) && b.views != map[]
    ensures Next(b, a).views != map[]
  {
    var n :| n in b.views;
    assert n in Next(b, a).views;
  }

  // What the shadow of a step says about it.
  lemma ShadowFacts(b: Bus, a: Action, s: E.State, epoch: nat, masters: set<Id>)
    requires Enabled(b, a) && Rep(b, s) && b.views != map[]
    requires Timely(b, a) && Electorate(b, a, epoch, masters)
    ensures E.Timely(s, Mimic(b, a))
    ensures (Mimic(b, a).Vote? && Mimic(b, a).req.to in s.nodes && E.Seen(s, Mimic(b, a).req) == epoch)
            ==> Mimic(b, a).req.to in masters
  {
    hide NewView;
    hide Added;
    hide Removed;
    hide GrantsVote;
    hide CountsVote;
    hide AbsNet;
  }

  lemma WinRecorded(b: Bus, a: Action, s: E.State, epoch: nat, masters: set<Id>) returns (w: E.Win)
    requires Enabled(b, a) && Rep(b, s) && b.views != map[] && E.Enabled(s, Mimic(b, a))
    requires Wins(b, a, epoch) && Electorate(b, a, epoch, masters)
    ensures w in E.Do(s, Mimic(b, a)).wins && w.who == a.n && w.epoch == epoch && w.size == |masters|
  {
    hide NewView;
    hide MayFailover;
    w := E.Win(a.n, epoch, |masters|, s.counted[a.n], s.stale[a.n]);
  }

  // One epoch has one winner, whatever else happens on the bus.
  lemma BusElectionSafety(bs: seq<Bus>, acts: seq<Action>, i: nat, j: nat, epoch: nat, masters: set<Id>)
    requires Run(bs, acts) && i < |acts| && j < |acts|
    requires forall k :: 0 <= k < |acts| ==> Timely(bs[k], acts[k]) && Electorate(bs[k], acts[k], epoch, masters)
    requires Wins(bs[i], acts[i], epoch) && Wins(bs[j], acts[j], epoch)
    ensures acts[i].n == acts[j].n
  {
    hide Enabled;
    hide Rep;
    hide Mimic;
    hide Next;
    hide E.Do;
    hide E.Enabled;
    hide Timely;
    hide Electorate;
    assert bs[0].views != map[] by { SomeoneActs(bs, acts, i); }
    var ss, es := Simulate(bs, acts, |acts|);
    forall k | 0 <= k < |acts|
      ensures E.Timely(ss[k], es[k])
      ensures es[k].Vote? && es[k].req.to in ss[k].nodes && E.Seen(ss[k], es[k].req) == epoch ==> es[k].req.to in masters
    {
      ShadowFacts(bs[k], acts[k], ss[k], epoch, masters);
    }
    EnabledVotes(ss, es);
    E.VotersOf(ss, es, |acts|, epoch, masters);
    var w1 := WinRecorded(bs[i], acts[i], ss[i], epoch, masters);
    var w2 := WinRecorded(bs[j], acts[j], ss[j], epoch, masters);
    E.WinsStay(ss, es, i + 1, |acts|);
    E.WinsStay(ss, es, j + 1, |acts|);
    E.ElectionSafety(ss, es, w1, w2, masters);
  }

  lemma EnabledVotes(ss: seq<E.State>, es: seq<E.Action>)
    requires E.Run(ss, es)
    ensures forall k :: 0 <= k < |es| && es[k].Vote? ==> es[k].req.to in ss[k].nodes
  {}

  lemma SomeoneActs(bs: seq<Bus>, acts: seq<Action>, i: nat)
    requires Run(bs, acts) && i < |acts| && acts[i].WinTimer?
    ensures bs[0].views != map[]
  {
    NoViewsAppear(bs, acts, i);
    assert acts[i].n in bs[i].views;
  }

  lemma {:induction false} NoViewsAppear(bs: seq<Bus>, acts: seq<Action>, k: nat)
    requires Run(bs, acts) && k <= |acts|
    ensures bs[k].views.Keys == bs[0].views.Keys
  {
    hide NewView;
    hide NewNet;
    if k > 0 {
      NoViewsAppear(bs, acts, k - 1);
    }
  }

  // A node's successive votes are for ever greater epochs.
  lemma BusVoteEpochsIncrease(bs: seq<Bus>, acts: seq<Action>, i: nat, j: nat)
    requires Run(bs, acts) && i < j < |acts|
    requires CastsVote(bs[i], acts[i]) && CastsVote(bs[j], acts[j])
    requires bs[i].net[acts[i].i].to == bs[j].net[acts[j].i].to
    ensures VoteEpoch(bs[i], acts[i]) < VoteEpoch(bs[j], acts[j])
  {
    hide Rep;
    hide Next;
    hide E.Do;
    hide E.Enabled;
    hide GrantsVote;
    NoViewsAppear(bs, acts, i);
    assert bs[i].net[acts[i].i].to in bs[i].views;
    var ss, es := Simulate(bs, acts, |acts|);
    VoteShadow(bs[i], acts[i], ss[i]);
    VoteShadow(bs[j], acts[j], ss[j]);
    E.VoteEpochsIncrease(ss, es, i, j);
  }

  lemma VoteShadow(b: Bus, a: Action, s: E.State)
    requires Enabled(b, a) && Rep(b, s) && b.views != map[] && CastsVote(b, a)
    ensures Mimic(b, a).Vote? && Mimic(b, a).req.to == b.net[a.i].to && Mimic(b, a).req.to in s.nodes
    ensures E.Seen(s, Mimic(b, a).req) == VoteEpoch(b, a)
  {
    hide GrantsVote;
  }
}
