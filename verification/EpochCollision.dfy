/**
Repair of config-epoch collisions.  When no election, takeover or operator interferes and
every node stays a master, each node gives up a config epoch only for an epoch that a node
with a greater name has held too; so the node with the k-th greatest name changes its epoch
at most k - 1 times, however long the run.
*/
module EpochCollision {
  import opened Options
  import opened ClusterView
  import opened ClusterBus

  // A node's own config epoch.
  ghost function Own(v: View): nat
    requires v.me in v.nodes
  {
    v.nodes[v.me].configEpoch
  }

  ghost predicate Masters(b: Bus) {
    Wellformed(b) && forall n :: n in b.views ==> b.views[n].nodes[n].master
  }

  // Packets, failure detection and accounting; no election, takeover or operator.
  predicate Gossip(a: Action) {
    a.Deliver? || a.Lose? || a.Announce? || a.Suspect? || a.Recount?
  }

  // ------------------------------------------------------- what one packet does to epochs

  lemma PingEpochs(v: View, h: Header, allow: bool)
    requires Ok(v) && h.sender in v.nodes && h.sender != v.me && h.slaveof != Some(h.sender)
    requires |h.claimed| == |v.slots|
    ensures var v' := HandlePing(v, h, allow).0;
            && Keeps(v, v')
            && (forall n :: n in v.nodes && n != v.me ==> v'.nodes[n].configEpoch == v.nodes[n].configEpoch)
            && v'.currentEpoch >= v.currentEpoch
            && (Own(v') == Own(v) || (h.sender > v.me && h.configEpoch == Own(v) && Own(v') == v.currentEpoch + 1))
            // both masters with one epoch: the smaller name moves on
            && ((v'.nodes[v.me].master && h.slaveof == None && h.sender > v.me
                 && h.configEpoch == v.nodes[h.sender].configEpoch == Own(v)) ==> Own(v') == v.currentEpoch + 1)
  {
    hide UpdateSlots, Correction, Dirty;
    ReconfigureOk(v, h, allow);
    ReconfigureEpochs(v, h, allow);
    CollideOk(Reconfigure(v, h, allow), h);
    if h.slaveof == None {
      SenderIsMaster(v, h, allow);
    }
    hide Reconfigure;
  }

  lemma SenderIsMaster(v: View, h: Header, allow: bool)
    requires Ok(v) && h.sender in v.nodes && h.sender != v.me && h.slaveof == None
    requires |h.claimed| == |v.slots|
    ensures h.sender in Reconfigure(v, h, allow).nodes && Reconfigure(v, h, allow).nodes[h.sender].master
  {
    hide Rebound, Taken, NumSlots, Dirty;
    SwitchRoleOk(v, h.sender, None);
  }

  lemma UpdateEpochs(v: View, about: Id, epoch: nat, served: seq<bool>, allow: bool)
    requires Ok(v) && |served| == |v.slots|
    ensures var v' := HandleUpdate(v, about, epoch, served, allow);
            && Keeps(v, v') && v'.currentEpoch == v.currentEpoch
            && forall n :: n in v.nodes ==>
                 v'.nodes[n].configEpoch == if n == about then Max(v.nodes[n].configEpoch, epoch) else v.nodes[n].configEpoch
  {
    hide UpdateSlots;
    HandleUpdateOk(v, about, epoch, served, allow);
    if about in v.nodes && v.nodes[about].configEpoch < epoch {
      var v1 := WithEpoch(if v.nodes[about].master then v else SetNodeAsMaster(v, about), about, epoch);
      UpdateSlotsEpochs(v1, about, epoch, served, allow);
    }
  }

  // What a packet says of n's config epoch.
  function Says(p: Packet, n: Id): nat {
    Max(if p.hdr.sender == n then p.hdr.configEpoch else 0,
        if p.body.Update? && p.body.about == n then p.body.epoch else 0)
  }

  ghost predicate Collides(v: View, v': View, p: Packet)
    requires v.me in v.nodes && v'.me in v'.nodes
  {
    && (p.body.Ping? || p.body.Pong?)
    && p.hdr.sender > v.me && p.hdr.configEpoch == Own(v)
    && Own(v') > v.currentEpoch && Own(v') > p.hdr.currentEpoch
  }

  ghost predicate Tame(v: View, v': View, p: Packet)
    requires Ok(v) && Ok(v')
  {
    && v'.nodes.Keys == v.nodes.Keys && v'.me == v.me
    && v'.currentEpoch >= v.currentEpoch
    && (p.hdr.sender in v.nodes ==> v'.currentEpoch >= p.hdr.currentEpoch)
    && (forall n :: n in v.nodes && n != v.me ==>
          v'.nodes[n].configEpoch <= Max(v.nodes[n].configEpoch, Says(p, n)))
    && (Says(p, v.me) <= Own(v) ==> Own(v') == Own(v) || Collides(v, v', p))
  }

  lemma OtherEpochs(v: View, p: Packet, env: Env)
    requires Ok(v) && Receivable(v, p) && p.hdr.sender in v.nodes
    requires !p.body.Ping? && !p.body.Pong? && !p.body.Update?
    ensures var v' := ProcessBody(v, p, env).0;
            && v'.nodes.Keys == v.nodes.Keys && v'.me == v.me && v'.currentEpoch == v.currentEpoch
            && forall n :: n in v.nodes ==> v'.nodes[n].configEpoch == v.nodes[n].configEpoch
  {
    hide Superseded, Serving, BuildHeader, OwnersKnown;
    if p.body.AuthRequest? && GrantsVote(v, p.hdr, p.body.force, env.now, env.timeout) {
      CastVoteOk(v, p.hdr.sender, env.now);
    }
  }

  lemma TamePing(v: View, v1: View, v': View, p: Packet, env: Env)
    requires Ok(v) && Receivable(v, p) && p.hdr.sender in v.nodes && (p.body.Ping? || p.body.Pong?)
    requires v1 == SeeEpochs(v, p.hdr) && Ok(v1) && v' == HandlePing(v1, p.hdr, env.allowMigration).0 && Ok(v')
    ensures Tame(v, v', p)
  {
    hide HandlePing, OwnersKnown;
    PingEpochs(v1, p.hdr, env.allowMigration);
  }

  lemma TameUpdate(v: View, v1: View, v': View, p: Packet, env: Env)
    requires Ok(v) && Receivable(v, p) && p.hdr.sender in v.nodes && p.body.Update?
    requires v1 == SeeEpochs(v, p.hdr) && Ok(v1) && Ok(v')
    requires v' == HandleUpdate(v1, p.body.about, p.body.epoch, p.body.served, env.allowMigration)
    ensures Tame(v, v', p)
  {
    hide HandleUpdate, OwnersKnown;
    UpdateEpochs(v1, p.body.about, p.body.epoch, p.body.served, env.allowMigration);
    forall n | n in v.nodes
      ensures v'.nodes[n].configEpoch <= Max(v.nodes[n].configEpoch, Says(p, n))
      ensures v'.nodes[n].configEpoch >= v.nodes[n].configEpoch
    {
      assert v1.nodes[n].configEpoch
          == if n == p.hdr.sender then Max(v.nodes[n].configEpoch, p.hdr.configEpoch) else v.nodes[n].configEpoch;
    }
  }

  lemma TameOther(v: View, v1: View, v': View, p: Packet, env: Env)
    requires Ok(v) && Receivable(v, p) && p.hdr.sender in v.nodes
    requires !p.body.Ping? && !p.body.Pong? && !p.body.Update?
    requires v1 == SeeEpochs(v, p.hdr) && Ok(v1) && v' == ProcessBody(v1, p, env).0 && Ok(v')
    ensures Tame(v, v', p)
  {
    hide ProcessBody, OwnersKnown;
    OtherEpochs(v1, p, env);
  }

  lemma ProcessTame(v: View, p: Packet, env: Env)
    requires Ok(v) && Receivable(v, p)
    ensures Ok(Process(v, p, env).0) && Tame(v, Process(v, p, env).0, p)
  {
    hide HandlePing, HandleUpdate, GrantsVote, CountsVote, BuildHeader, OwnersKnown, SeeEpochs;
    ProcessOk(v, p, env);
    if p.hdr.sender in v.nodes {
      hide Tame;
      SeeEpochsOk(v, p.hdr);
      var v1, v' := SeeEpochs(v, p.hdr), Process(v, p, env).0;
      match p.body
      case Update(_, _, _) => TameUpdate(v, v1, v', p, env);
      case Ping => TamePing(v, v1, v', p, env);
      case Pong => TamePing(v, v1, v', p, env);
      case _ => TameOther(v, v1, v', p, env);
    }
  }

  // ------------------------------------------------------------ what packets say is true

  // The packets a node adds to the net speak of its own epoch, and of its table.
  ghost predicate Honest(v: View, p: Packet)
    requires v.me in v.nodes
  {
    && p.hdr.sender == v.me
    && (p.hdr.slaveof == None ==> p.hdr.configEpoch == Own(v))
    && (p.body.Update? ==> p.body.about in v.nodes && p.body.epoch == v.nodes[p.body.about].configEpoch)
  }

  // Only a replica names a master.
  ghost predicate Plain(v: View, p: Packet)
    requires v.me in v.nodes
  {
    v.nodes[v.me].master ==> p.hdr.slaveof == None
  }

  lemma {:induction false} CorrectionHonest(v: View, h: Header, j: nat)
    requires Ok(v) && j <= |v.slots| == |h.claimed|
    ensures forall i :: 0 <= i < |Correction(v, h, j)| ==> Honest(v, Correction(v, h, j)[i]) && Plain(v, Correction(v, h, j)[i])
    decreases |v.slots| - j
  {
    if j < |v.slots| {
      CorrectionHonest(v, h, j + 1);
    }
  }

  lemma HonestMoves(v: View, v': View, p: Packet)
    requires v.me in v.nodes && v'.me == v.me && v'.nodes.Keys == v.nodes.Keys
    requires forall n :: n in v.nodes ==> v'.nodes[n].configEpoch == v.nodes[n].configEpoch
    requires Honest(v, p)
    ensures Honest(v', p)
  {}

  lemma PingHonest(v: View, h: Header, allow: bool)
    requires Ok(v) && h.sender in v.nodes && h.sender != v.me && h.slaveof != Some(h.sender)
    requires |h.claimed| == |v.slots|
    ensures var (v', out) := HandlePing(v, h, allow);
            v'.me in v'.nodes && forall i :: 0 <= i < |out| ==> Honest(v, out[i]) && Plain(v', out[i])
  {
    hide Reconfigure, Correction, Dirty, OwnersKnown;
    ReconfigureOk(v, h, allow);
    ReconfigureEpochs(v, h, allow);
    var v1 := Reconfigure(v, h, allow);
    CorrectionHonest(v1, h, 0);
    forall i | 0 <= i < |Correction(v1, h, 0)| ensures Honest(v, Correction(v1, h, 0)[i]) {
      HonestMoves(v1, v, Correction(v1, h, 0)[i]);
    }
  }

  lemma BodyHonest(v: View, p: Packet, env: Env)
    requires Ok(v) && Receivable(v, p) && p.hdr.sender in v.nodes
    ensures var (v', out) := ProcessBody(v, p, env);
            v'.me in v'.nodes && forall i :: 0 <= i < |out| ==> Honest(v, out[i]) && Plain(v', out[i])
  {
    hide HandlePing, HandleUpdate, Superseded, Serving, OwnersKnown;
    match p.body
    case Update(about, epoch, served) => HandleUpdateOk(v, about, epoch, served, env.allowMigration);
    case Fail(_) =>
    case AuthAck =>
    case AuthRequest(force) =>
      if GrantsVote(v, p.hdr, force, env.now, env.timeout) {
        CastVoteOk(v, p.hdr.sender, env.now);
      }
    case _ => PingHonest(v, p.hdr, env.allowMigration);
  }

  // The epochs in a sent packet are the sender's table just after it has seen the header.
  lemma ProcessHonest(v: View, p: Packet, env: Env)
    requires Ok(v) && Receivable(v, p) && v.nodes[v.me].master
    ensures var v1 := if p.hdr.sender in v.nodes then SeeEpochs(v, p.hdr) else v;
            var (v', out) := Process(v, p, env);
            v1.me in v1.nodes && v1.me == v.me && v'.me in v'.nodes
            && forall i :: 0 <= i < |out| ==> Honest(v1, out[i]) && Plain(v', out[i])
  {
    hide ProcessBody, OwnersKnown;
    if p.hdr.sender in v.nodes {
      SeeEpochsOk(v, p.hdr);
      BodyHonest(SeeEpochs(v, p.hdr), p, env);
    }
  }

  // ------------------------------------------------------------------- histories of epochs

  type History = map<Id, set<nat>>

  // Every node's own config epoch.
  ghost function Owns(b: Bus): map<Id, nat>
    requires Masters(b)
  {
    map n | n in b.views :: Own(b.views[n])
  }

  ghost predicate TrueTable(own: map<Id, nat>, nodes: map<Id, Info>) {
    forall n :: n in nodes && n in own ==> nodes[n].configEpoch <= own[n]
  }

  ghost predicate TruePacket(own: map<Id, nat>, h: History, p: Packet) {
    && p.hdr.slaveof == None
    && p.hdr.sender in h && p.hdr.configEpoch in h[p.hdr.sender]
    && (p.body.Update? && p.body.about in own ==> p.body.epoch <= own[p.body.about])
  }

  ghost predicate Held(h: History, n: Id, e: nat) {
    exists y :: y in h && y > n && e in h[y]
  }

  // Every epoch n has left behind was also held by a node with a greater name.
  ghost predicate LeftToGreater(own: map<Id, nat>, h: History, n: Id) {
    && n in own && n in h && own[n] in h[n]
    && (forall e :: e in h[n] ==> e <= own[n])
    && (forall e :: e in h[n] && e != own[n] ==> Held(h, n, e))
  }

  // h holds every config epoch each node has had.
  ghost predicate Truth(b: Bus, h: History) {
    && Masters(b) && Epochs(b) && h.Keys == b.views.Keys
    && (forall m :: m in b.views ==> TrueTable(Owns(b), b.views[m].nodes))
    && (forall i :: 0 <= i < |b.net| ==> TruePacket(Owns(b), h, b.net[i].packet))
    && (forall n :: n in h ==> LeftToGreater(Owns(b), h, n))
  }

  ghost function Extend(h: History, own: map<Id, nat>): History
    requires h.Keys <= own.Keys
  {
    map n | n in h :: h[n] + {own[n]}
  }

  // ---------------------------------------------------------------------- one gossip step

  lemma SaysTrue(own: map<Id, nat>, h: History, p: Packet)
    requires TruePacket(own, h, p) && forall n :: n in h ==> LeftToGreater(own, h, n)
    ensures forall k :: k in own ==> Says(p, k) <= own[k]
  {
    forall k | k in own ensures Says(p, k) <= own[k] {
      assert k in h ==> LeftToGreater(own, h, k);
    }
  }

  // The actor's own epoch either stays, or rises from one a greater name has held too.
  ghost predicate Rises(h: History, n: Id, before: nat, after: nat) {
    after == before || (after > before && Held(h, n, before))
  }

  lemma GossipDelivery(b: Bus, h: History, a: Action)
    requires Truth(b, h) && Enabled(b, a) && a.Deliver?
    ensures var n := b.net[a.i].to;
            var v, v' := b.views[n], NewView(b, a);
            && Ok(v') && v'.me == n && v'.nodes.Keys == v.nodes.Keys
            && (forall k :: k in v.nodes && k in h && k != n ==> v'.nodes[k].configEpoch <= Owns(b)[k])
            && Rises(h, n, Own(v), Own(v'))
  {
    hide Process, NewView, Allowed, Receivable, Epochs, LeftToGreater, Held, Ok, TrueTable, TruePacket;
    var n, p := b.net[a.i].to, b.net[a.i].packet;
    var v := b.views[n];
    DeliveryFacts(b, h, a);
    NewViewOk(b, a);
    ProcessTame(v, p, a.env);
    TameGossip(v, NewView(b, a), p, Owns(b), h);
  }

  lemma DeliveryFacts(b: Bus, h: History, a: Action)
    requires Truth(b, h) && Enabled(b, a) && a.Deliver?
    ensures var n, p := b.net[a.i].to, b.net[a.i].packet;
            var v := b.views[n];
            && Wellformed(b) && h.Keys == Owns(b).Keys && n in Owns(b) && Owns(b)[n] == Own(v) && v.me == n
            && TrueTable(Owns(b), v.nodes) && TruePacket(Owns(b), h, p) && Bounded(v)
            && Ok(v) && Receivable(v, p) && NewView(b, a) == Process(v, p, a.env).0
            && forall k :: k in Owns(b) ==> Says(p, k) <= Owns(b)[k]
  {
    hide Process, Says, LeftToGreater, TrueTable, TruePacket, OwnersKnown, Bounded;
    SaysTrue(Owns(b), h, b.net[a.i].packet);
  }

  // What a tame reaction to a true packet does to the epochs in a view.
  lemma TameGossip(v: View, v': View, p: Packet, own: map<Id, nat>, h: History)
    requires Ok(v) && Ok(v') && Tame(v, v', p) && Bounded(v)
    requires TrueTable(own, v.nodes) && TruePacket(own, h, p) && h.Keys == own.Keys
    requires v.me in own && own[v.me] == Own(v)
    requires forall k :: k in own ==> Says(p, k) <= own[k]
    ensures v'.nodes.Keys == v.nodes.Keys
    ensures forall k :: k in v.nodes && k in h && k != v.me ==> v'.nodes[k].configEpoch <= own[k]
    ensures Rises(h, v.me, Own(v), Own(v'))
  {
    hide OwnersKnown, Says;
  }

  lemma GossipView(b: Bus, h: History, a: Action)
    requires Truth(b, h) && Enabled(b, a) && Gossip(a) && Actor(b, a).Some?
    ensures var n := Actor(b, a).value;
            var v, v' := b.views[n], NewView(b, a);
            && Ok(v') && v'.me == n && v'.nodes.Keys == v.nodes.Keys
            && (forall k :: k in v.nodes && k in h && k != n ==> v'.nodes[k].configEpoch <= Owns(b)[k])
            && Rises(h, n, Own(v), Own(v'))
  {
    hide Truth, Allowed, NewView, Owns, Own, Rises, Ok;
    if a.Deliver? {
      GossipDelivery(b, h, a);
    } else {
      GossipQuietly(b, h, a);
    }
  }

  // The other steps leave every epoch alone.
  lemma GossipQuietly(b: Bus, h: History, a: Action)
    requires Truth(b, h) && Enabled(b, a) && Gossip(a) && Actor(b, a).Some? && !a.Deliver?
    ensures var n := Actor(b, a).value;
            var v, v' := b.views[n], NewView(b, a);
            && Ok(v') && v'.me == n && v'.nodes.Keys == v.nodes.Keys
            && (forall k :: k in v.nodes && k in h && k != n ==> v'.nodes[k].configEpoch <= Owns(b)[k])
            && Rises(h, n, Own(v), Own(v'))
  {
    hide Ok, SlotServers, LeftToGreater, Epochs, TruePacket, Held, Process, SetSlot, Bump, TakeOver, Forget, SetMaster;
    NewViewOk(b, a);
    assert TrueTable(Owns(b), b.views[Actor(b, a).value].nodes);
  }

  // How a gossip step moves everyone's epochs.
  ghost predicate Moves(own: map<Id, nat>, own': map<Id, nat>, h: History) {
    own'.Keys == own.Keys && forall n :: n in own ==> Rises(h, n, own[n], own'[n])
  }

  lemma OwnsMove(b: Bus, h: History, a: Action)
    requires Truth(b, h) && Enabled(b, a) && Gossip(a) && Masters(Next(b, a))
    ensures Next(b, a).views.Keys == b.views.Keys
    ensures Moves(Owns(b), Owns(Next(b, a)), h)
  {
    hide NewView, NewNet, OwnersKnown, Bounded, LeftToGreater, TrueTable, TruePacket, Held, Epochs, ClusterView.Ok;
    if Actor(b, a).Some? {
      GossipView(b, h, a);
    }
    var b1 := Next(b, a);
    forall n | n in Owns(b) ensures n in Owns(b1) && Rises(h, n, Owns(b)[n], Owns(b1)[n]) {
      assert n in b.views;
    }
  }

  lemma TableStep(b: Bus, h: History, a: Action, m: Id)
    requires Truth(b, h) && Enabled(b, a) && Gossip(a) && Masters(Next(b, a)) && m in b.views
    ensures m in Next(b, a).views && TrueTable(Owns(Next(b, a)), Next(b, a).views[m].nodes)
  {
    hide NewView, NewNet, OwnersKnown, Bounded, LeftToGreater, TruePacket, Held;
    assert TrueTable(Owns(b), b.views[m].nodes);
    OwnsMove(b, h, a);
    if Actor(b, a).Some? {
      GossipView(b, h, a);
    }
  }

  lemma LeftStep(own: map<Id, nat>, own': map<Id, nat>, h: History, n: Id)
    requires h.Keys == own.Keys && Moves(own, own', h) && LeftToGreater(own, h, n)
    ensures LeftToGreater(own', Extend(h, own'), n)
  {
    var h' := Extend(h, own');
    forall e | e in h'[n] && e != own'[n] ensures Held(h', n, e) {
      assert e in h[n] && Held(h, n, e);
      var y :| y in h && y > n && e in h[y];
      assert e in h'[y];
    }
  }

  lemma PacketStep(own: map<Id, nat>, own': map<Id, nat>, h: History, p: Packet)
    requires h.Keys == own.Keys && Moves(own, own', h) && TruePacket(own, h, p)
    ensures TruePacket(own', Extend(h, own'), p)
  {}

  // What the actor sends is true of the state it acted in.
  lemma HonestIsTrue(own: map<Id, nat>, h: History, v: View, p: Packet, q: Packet)
    requires v.me in v.nodes && v.me in h && v.me in own && Own(v) == own[v.me] && p.hdr.sender != v.me
    requires TrueTable(own, v.nodes) && TruePacket(own, h, p) && forall n :: n in h ==> LeftToGreater(own, h, n)
    requires var v1 := if p.hdr.sender in v.nodes then SeeEpochs(v, p.hdr) else v;
             v1.me in v1.nodes && Honest(v1, q) && q.hdr.slaveof == None
    ensures TruePacket(own, h, q)
  {
    assert LeftToGreater(own, h, v.me);
    SaysTrue(own, h, p);
  }

  lemma DeliveryTrue(b: Bus, h: History, a: Action)
    requires Truth(b, h) && Enabled(b, a) && a.Deliver? && Masters(Next(b, a))
    ensures forall i :: 0 <= i < |Added(b, a)| ==> TruePacket(Owns(b), h, Added(b, a)[i].packet)
  {
    hide Process, OwnersKnown, BoundedPacket, Bounded, LeftToGreater, TrueTable, TruePacket;
    var n, p := b.net[a.i].to, b.net[a.i].packet;
    var v := b.views[n];
    ProcessHonest(v, p, a.env);
    assert Next(b, a).views[n] == NewView(b, a);
    var out := Process(v, p, a.env).1;
    forall i | 0 <= i < |out| ensures TruePacket(Owns(b), h, out[i]) {
      HonestIsTrue(Owns(b), h, v, p, out[i]);
    }
  }

  lemma AddedTrue(b: Bus, h: History, a: Action)
    requires Truth(b, h) && Enabled(b, a) && Gossip(a) && Masters(Next(b, a))
    ensures forall i :: 0 <= i < |Added(b, a)| ==> TruePacket(Owns(b), h, Added(b, a)[i].packet)
  {
    hide Process, OwnersKnown, BoundedPacket, Held;
    if a.Deliver? {
      DeliveryTrue(b, h, a);
    } else if a.Announce? {
      assert LeftToGreater(Owns(b), h, a.n);
    }
  }

  lemma NetSource(b: Bus, a: Action, i: nat)
    requires Enabled(b, a) && i < |NewNet(b, a)|
    ensures NewNet(b, a)[i] in b.net || NewNet(b, a)[i] in Added(b, a)
  {
    hide Added;
  }

  lemma TruthStep(b: Bus, h: History, a: Action)
    requires Truth(b, h) && Enabled(b, a) && Gossip(a) && Masters(Next(b, a))
    ensures Next(b, a).views.Keys == b.views.Keys
    ensures Truth(Next(b, a), Extend(h, Owns(Next(b, a))))
  {
    hide NewView, Ok, BoundedPacket, Bounded, Added, LeftToGreater, TrueTable, TruePacket, Moves, Enabled, NewNet;
    var b' := Next(b, a);
    var own, own' := Owns(b), Owns(b');
    EpochsStep(b, a);
    OwnsMove(b, h, a);
    AddedTrue(b, h, a);
    forall m | m in b'.views ensures TrueTable(own', b'.views[m].nodes) {
      TableStep(b, h, a, m);
    }
    forall i | 0 <= i < |b'.net| ensures TruePacket(own', Extend(h, own'), b'.net[i].packet) {
      NetSource(b, a, i);
      PacketStep(own, own', h, b'.net[i].packet);
    }
    forall n | n in h ensures LeftToGreater(own', Extend(h, own'), n) {
      LeftStep(own, own', h, n);
    }
  }

  // -------------------------------------------------- histories, without the bus

  // The nodes' own epochs, state by state.
  type Lines = seq<map<Id, nat>>

  ghost predicate SameKeys(ls: Lines) {
    |ls| > 0 && forall k :: 0 <= k < |ls| ==> ls[k].Keys == ls[0].Keys
  }

  // The config epochs each node has had in the first k + 1 states.
  ghost function Hist(ls: Lines, k: nat): (h: History)
    requires SameKeys(ls) && k < |ls|
    ensures h.Keys == ls[0].Keys
  {
    if k == 0 then map n | n in ls[0] :: {ls[0][n]} else Extend(Hist(ls, k - 1), ls[k])
  }

  // How often n has changed its config epoch.
  ghost function Changes(ls: Lines, k: nat, n: Id): nat
    requires SameKeys(ls) && k < |ls| && n in ls[0]
  {
    if k == 0 then 0
    else Changes(ls, k - 1, n) + (if ls[k][n] != ls[k - 1][n] then 1 else 0)
  }

  // What gossip guarantees of every step and every state.
  ghost predicate Lawful(ls: Lines) {
    && SameKeys(ls)
    && (forall k :: 0 <= k < |ls| - 1 ==> Moves(ls[k], ls[k + 1], Hist(ls, k)))
    && (forall k, n :: 0 <= k < |ls| && n in ls[0] ==> LeftToGreater(ls[k], Hist(ls, k), n))
  }

  lemma HistoryGrows(own: map<Id, nat>, own': map<Id, nat>, h: History, n: Id)
    requires h.Keys == own.Keys && Moves(own, own', h) && LeftToGreater(own, h, n)
    ensures |Extend(h, own')[n]| == |h[n]| + (if own'[n] != own[n] then 1 else 0)
  {
    hide Held;
    if own'[n] == own[n] {
      assert Extend(h, own')[n] == h[n];
    } else {
      assert own'[n] !in h[n];
    }
  }

  lemma {:induction false} ChangesAreHistory(ls: Lines, k: nat, n: Id)
    requires Lawful(ls) && k < |ls| && n in ls[0]
    ensures |Hist(ls, k)[n]| == 1 + Changes(ls, k, n)
  {
    hide Moves, LeftToGreater, Extend;
    if k > 0 {
      ChangesAreHistory(ls, k - 1, n);
      HistoryGrows(ls[k - 1], ls[k], Hist(ls, k - 1), n);
    } else {
      assert Hist(ls, 0)[n] == {ls[0][n]};
    }
  }

  ghost function AllEpochs(h: History, s: set<Id>): set<nat> {
    set n, e | n in s && n in h && e in h[n] :: e
  }

  // In a set of nodes closed under greater names, there are no more epochs than nodes.
  lemma {:induction false} FewEpochs(own: map<Id, nat>, h: History, s: set<Id>)
    requires forall n :: n in h ==> LeftToGreater(own, h, n)
    requires s <= h.Keys && forall n, y :: n in s && y in h && y > n ==> y in s
    ensures |AllEpochs(h, s)| <= |s|
  {
    if s != {} {
      var x := Least(s);
      var rest := s - {x};
      FewEpochs(own, h, rest);
      assert LeftToGreater(own, h, x);
      forall e | e in AllEpochs(h, s) ensures e in AllEpochs(h, rest) + {own[x]} {
        if e in h[x] && e != own[x] {
          assert Held(h, x, e);
        }
      }
      Smaller(AllEpochs(h, s), AllEpochs(h, rest) + {own[x]});
    } else {
      assert AllEpochs(h, s) == {};
    }
  }

  lemma Smaller(a: set<nat>, b: set<nat>)
    requires a <= b
    ensures |a| <= |b|
  {
    assert b == a + (b - a);
  }

  lemma {:induction false} Least(s: set<Id>) returns (x: Id)
    requires s != {}
    ensures x in s && forall n :: n in s ==> x <= n
  {
    x :| x in s;
    if s != {x} {
      var rest := s - {x};
      var y := Least(rest);
      assert forall n :: n in s ==> n == x || n in rest;
      x := if y < x then y else x;
    }
  }

  ghost function Greater(own: map<Id, nat>, n: Id): set<Id> {
    set y | y in own && y > n
  }

  lemma ChangesBounded(ls: Lines, k: nat, n: Id)
    requires Lawful(ls) && k < |ls| && n in ls[0]
    ensures Changes(ls, k, n) <= |Greater(ls[0], n)|
  {
    hide Moves, LeftToGreater;
    var h := Hist(ls, k);
    ChangesAreHistory(ls, k, n);
    var s := {n} + Greater(ls[0], n);
    FewEpochs(ls[k], h, s);
    assert h[n] <= AllEpochs(h, s);
    Smaller(h[n], AllEpochs(h, s));
  }

  // ---------------------------------------------------------------------------- whole runs

  // A run of gossip among masters, none of whose tables runs ahead of the node it is about.
  ghost predicate GossipRun(bs: seq<Bus>, acts: seq<Action>) {
    && Run(bs, acts)
    && (forall i :: 0 <= i < |bs| ==> Masters(bs[i]))
    && (forall i :: 0 <= i < |acts| ==> Gossip(acts[i]))
    && (forall m :: m in bs[0].views ==> TrueTable(Owns(bs[0]), bs[0].views[m].nodes))
  }

  ghost function LinesOf(bs: seq<Bus>): Lines
    requires forall i :: 0 <= i < |bs| ==> Masters(bs[i])
  {
    seq(|bs|, i requires 0 <= i < |bs| => Owns(bs[i]))
  }

  lemma LinesShape(bs: seq<Bus>, acts: seq<Action>)
    requires GossipRun(bs, acts)
    ensures SameKeys(LinesOf(bs))
  {
    hide Next, Enabled, Wellformed, Epochs;
    forall k | 0 <= k < |bs| ensures Owns(bs[k]).Keys == Owns(bs[0]).Keys {
      NoViewsAppear(bs, acts, k);
    }
  }

  lemma {:induction false} RunTruth(bs: seq<Bus>, acts: seq<Action>, k: nat)
    requires GossipRun(bs, acts) && k < |bs| && SameKeys(LinesOf(bs))
    ensures Truth(bs[k], Hist(LinesOf(bs), k))
  {
    hide Next, Enabled, Wellformed, Epochs, TrueTable, TruePacket, SameKeys;
    if k > 0 {
      RunTruth(bs, acts, k - 1);
      assert Enabled(bs[k - 1], acts[k - 1]) && bs[k] == Next(bs[k - 1], acts[k - 1]) && Masters(bs[k]);
      TruthStep(bs[k - 1], Hist(LinesOf(bs), k - 1), acts[k - 1]);
    }
  }

  lemma RunLawful(bs: seq<Bus>, acts: seq<Action>)
    requires GossipRun(bs, acts)
    ensures Lawful(LinesOf(bs))
  {
    hide Next, Enabled, Wellformed, Epochs, TrueTable, TruePacket, Moves, LeftToGreater, Hist, Gossip;
    LinesShape(bs, acts);
    var ls := LinesOf(bs);
    forall k | 0 <= k < |bs| ensures Truth(bs[k], Hist(ls, k)) {
      RunTruth(bs, acts, k);
    }
    forall k | 0 <= k < |bs| - 1 ensures Moves(ls[k], ls[k + 1], Hist(ls, k)) {
      assert Enabled(bs[k], acts[k]) && bs[k + 1] == Next(bs[k], acts[k]) && Masters(bs[k + 1]);
      OwnsMove(bs[k], Hist(ls, k), acts[k]);
    }
  }

  // However long the run, a node changes its config epoch at most as often as there are
  // nodes with greater names.
  lemma CollisionRepairTerminates(bs: seq<Bus>, acts: seq<Action>, n: Id)
    requires GossipRun(bs, acts) && n in bs[0].views
    ensures SameKeys(LinesOf(bs))
    ensures Changes(LinesOf(bs), |acts|, n) <= |Greater(Owns(bs[0]), n)|
  {
    hide Lawful, TrueTable, Next, Enabled, Wellformed, Epochs, SameKeys;
    LinesShape(bs, acts);
    RunLawful(bs, acts);
    ChangesBounded(LinesOf(bs), |acts|, n);
  }

  // ----------------------------------------------------------------- resolved for good

  // x's epoch is not e, and anything it moves to will be greater.
  ghost predicate Clear(b: Bus, x: Id, e: nat)
    requires Masters(b) && x in b.views
  {
    Own(b.views[x]) != e && b.views[x].currentEpoch >= e
  }

  lemma ClearDelivery(b: Bus, h: History, a: Action, x: Id, e: nat)
    requires Truth(b, h) && Enabled(b, a) && a.Deliver? && b.net[a.i].to == x && Clear(b, x, e)
    ensures var v' := NewView(b, a); v'.me in v'.nodes && Own(v') != e && v'.currentEpoch >= e
  {
    hide Process, OwnersKnown, LeftToGreater, Held, Says, BoundedPacket, Receivable;
    var p := b.net[a.i].packet;
    assert TruePacket(Owns(b), h, p);
    SaysTrue(Owns(b), h, p);
    ProcessTame(b.views[x], p, a.env);
  }

  lemma ClearStep(b: Bus, h: History, a: Action, x: Id, e: nat)
    requires Truth(b, h) && Enabled(b, a) && Gossip(a) && Masters(Next(b, a)) && x in b.views && Clear(b, x, e)
    ensures x in Next(b, a).views && Clear(Next(b, a), x, e)
  {
    hide Process, NewNet, OwnersKnown, SlotServers, LeftToGreater, Held, TruePacket, TrueTable;
    if Actor(b, a) == Some(x) && a.Deliver? {
      ClearDelivery(b, h, a, x, e);
    }
  }

  // x hears from y, whose name is greater, while y's epoch is e.
  ghost predicate Hears(b: Bus, a: Action, x: Id, y: Id, e: nat)
    requires Masters(b)
  {
    && a.Deliver? && a.i < |b.net| && b.net[a.i].to == x && x in b.views && y in b.views && y > x
    && y in b.views[x].nodes
    && var p := b.net[a.i].packet;
       (p.body.Ping? || p.body.Pong?) && p.hdr.sender == y && p.hdr.configEpoch == e == Own(b.views[y])
  }

  lemma HearsClears(b: Bus, h: History, a: Action, x: Id, y: Id, e: nat)
    requires Truth(b, h) && Enabled(b, a) && Masters(Next(b, a)) && Hears(b, a, x, y, e)
    ensures x in Next(b, a).views && Clear(Next(b, a), x, e)
  {
    hide HandlePing, NewNet, OwnersKnown, LeftToGreater, Held, BuildHeader;
    var p := b.net[a.i].packet;
    var v := b.views[x];
    assert TrueTable(Owns(b), v.nodes) && TruePacket(Owns(b), h, p) && BoundedPacket(p);
    var v1 := SeeEpochs(v, p.hdr);
    SeeEpochsOk(v, p.hdr);
    assert v1.nodes[y].configEpoch == e;
    PingEpochs(v1, p.hdr, a.env.allowMigration);
    assert Next(b, a).views[x] == HandlePing(v1, p.hdr, a.env.allowMigration).0;
  }

  // Once x has processed a PING of y carrying y's final epoch, the two differ forever.
  lemma {:induction false} DifferForever(bs: seq<Bus>, acts: seq<Action>, i: nat, k: nat, x: Id, y: Id, e: nat)
    requires GossipRun(bs, acts) && i < k < |bs| && Hears(bs[i], acts[i], x, y, e)
    ensures x in bs[k].views && Clear(bs[k], x, e)
  {
    hide Next, Enabled, Truth, Clear, Hears, Wellformed, Epochs, Gossip, TrueTable, Hist;
    LinesShape(bs, acts);
    RunTruth(bs, acts, k - 1);
    assert Enabled(bs[k - 1], acts[k - 1]) && bs[k] == Next(bs[k - 1], acts[k - 1]) && Masters(bs[k]);
    if k == i + 1 {
      HearsClears(bs[i], Hist(LinesOf(bs), i), acts[i], x, y, e);
    } else {
      DifferForever(bs, acts, i, k - 1, x, y, e);
      ClearStep(bs[k - 1], Hist(LinesOf(bs), k - 1), acts[k - 1], x, e);
    }
  }
}
