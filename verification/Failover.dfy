/**
What an election is for: who may be voted for, what a majority knew, and that the winner's
claim prevails.

The laws here are about several operations at once: the request, the vote and the count; the
takeover and the claim that tells the others; a whole run of the bus up to a win.
*/
module Failover {
  import opened Options
  import opened ClusterView
  import opened ClusterBus
  import E = Election

  // -------------------------------------------------------------------------- one vote

  // No slot that h claims has, in this view, an owner with a greater config epoch.
  ghost predicate UpToDate(v: View, h: Header)
    requires Ok(v) && |h.claimed| == |v.slots|
  {
    forall j :: 0 <= j < |v.slots| && h.claimed[j] && v.slots[j].Some? ==>
      v.nodes[v.slots[j].value].configEpoch <= h.configEpoch
  }

  // The sender is known as a replica of m.
  ghost predicate ReplicaOf(v: View, s: Id, m: Id) {
    s in v.nodes && !v.nodes[s].master && v.nodes[s].slaveof == Some(m) && m in v.nodes
  }

  ghost predicate Acknowledges(out: seq<Packet>) {
    exists i :: 0 <= i < |out| && out[i].body == AuthAck
  }

  // Does this packet make the node cast a vote?
  ghost predicate Votes(v: View, p: Packet, env: Env)
    requires Ok(v) && Receivable(v, p)
  {
    Process(v, p, env).0.lastVoteEpoch != v.lastVoteEpoch
  }

  // Nothing but a request of a node whose master is known makes a node vote.
  lemma VoteOnlyOnRequest(v: View, p: Packet, env: Env)
    requires Ok(v) && Receivable(v, p)
    ensures Votes(v, p, env) ==> p.body.AuthRequest? && p.hdr.sender in v.nodes && v.nodes[p.hdr.sender].slaveof.Some?
    ensures Acknowledges(Process(v, p, env).1) <==> Votes(v, p, env) && env.linked
  {
    hide CountsVote, Correction, Dirty, BuildHeader, Superseded, Serving, HandlePing, HandleUpdate;
    if p.hdr.sender in v.nodes {
      SeeEpochsOk(v, p.hdr);
      var v1 := SeeEpochs(v, p.hdr);
      match p.body
      case Update(about, epoch, served) => UpdateKeepsVote(v1, about, epoch, served, env.allowMigration);
      case Ping => PingKeepsVote(v1, p.hdr, env.allowMigration);
      case Pong => PingKeepsVote(v1, p.hdr, env.allowMigration);
      case AuthRequest(force) =>
        if GrantsVote(v1, p.hdr, force, env.now, env.timeout) && env.linked {
          assert Process(v, p, env).1[0].body == AuthAck;
        }
      case _ =>
    }
  }

  lemma UpdateKeepsVote(v: View, about: Id, epoch: nat, served: seq<bool>, allow: bool)
    requires Ok(v) && |served| == |v.slots|
    ensures HandleUpdate(v, about, epoch, served, allow).lastVoteEpoch == v.lastVoteEpoch
  {
    hide Follows, Rebound;
  }

  lemma PingKeepsVote(v: View, h: Header, allow: bool)
    requires Ok(v) && h.sender in v.nodes && h.sender != v.me && h.slaveof != Some(h.sender)
    requires |h.claimed| == |v.slots|
    ensures HandlePing(v, h, allow).0.lastVoteEpoch == v.lastVoteEpoch
    ensures !Acknowledges(HandlePing(v, h, allow).1)
  {
    hide Reconfigure, Correction, Dirty;
    ReconfigureOk(v, h, allow);
    ReconfigureEpochs(v, h, allow);
    CorrectionQuiet(Reconfigure(v, h, allow), h, 0);
  }

  lemma SeenServing(v: View, h: Header, n: Id)
    requires h.sender in v.nodes
    ensures Serving(SeeEpochs(v, h), n) == Serving(v, n)
  {}

  /** A vote is cast exactly for a known replica of a failed master (or one whose failover is
      forced) that claims no slot under an epoch that this node knows to be outdated, by a master
      that serves slots, in an epoch in which it has not voted, and not twice for one master
      within two timeouts. */
  lemma VoteExactly(v: View, p: Packet, env: Env, m: Id)
    requires Ok(v) && Receivable(v, p) && p.hdr.sender in v.nodes && p.body.AuthRequest?
    requires v.lastVoteEpoch <= v.currentEpoch && v.nodes[p.hdr.sender].slaveof == Some(m)
    ensures Votes(v, p, env) <==>
            && v.nodes[v.me].master && Serving(v, v.me)
            && v.lastVoteEpoch < p.hdr.currentEpoch && v.currentEpoch <= p.hdr.currentEpoch
            && ReplicaOf(v, p.hdr.sender, m) && (v.nodes[m].failed || p.body.force)
            && env.now - v.nodes[m].votedTime >= 2 * env.timeout
            && UpToDate(v, p.hdr)
  {
    var v1 := SeeEpochs(v, p.hdr);
    SeeEpochsOk(v, p.hdr);
    SeenServing(v, p.hdr, v.me);
    UpToDateSeen(v, p.hdr);
    hide Serving, UpToDate, Superseded, OwnersKnown, BuildHeader;
  }

  // The sender owns no slot of its own, so seeing its epoch changes nothing here.
  lemma UpToDateSeen(v: View, h: Header)
    requires Ok(v) && h.sender in v.nodes && |h.claimed| == |v.slots|
    ensures Ok(SeeEpochs(v, h)) && (!Superseded(SeeEpochs(v, h), h) <==> UpToDate(v, h))
  {
    SeeEpochsOk(v, h);
    var v1 := SeeEpochs(v, h);
    if UpToDate(v, h) {
      forall j | 0 <= j < |v.slots| && h.claimed[j] && v.slots[j].Some?
        ensures v1.nodes[v1.slots[j].value].configEpoch <= h.configEpoch
      {
        assert v.nodes[v.slots[j].value].configEpoch <= h.configEpoch;
      }
    }
    if !Superseded(v1, h) {
      forall j | 0 <= j < |v.slots| && h.claimed[j] && v.slots[j].Some?
        ensures v.nodes[v.slots[j].value].configEpoch <= h.configEpoch
      {
        assert v1.nodes[v1.slots[j].value].configEpoch <= h.configEpoch;
      }
    }
  }

  /** A vote uses the epoch of the request up, is noted for the replica's master, and changes
      nothing else but the epochs the header teaches. */
  lemma VoteEffect(v: View, p: Packet, env: Env)
    requires Ok(v) && Receivable(v, p) && Votes(v, p, env)
    ensures p.hdr.sender in v.nodes && v.nodes[p.hdr.sender].slaveof.Some?
    ensures var v' := Process(v, p, env).0;
            var m := v.nodes[p.hdr.sender].slaveof.value;
            && m in v'.nodes && v'.lastVoteEpoch == v'.currentEpoch == p.hdr.currentEpoch
            && v'.nodes[m].votedTime == env.now
            && v'.slots == v.slots && v'.importing == v.importing && v'.migrating == v.migrating
            && v'.authEpoch == v.authEpoch && v'.authCount == v.authCount && v'.authSent == v.authSent
            && v'.nodes.Keys == v.nodes.Keys
            && (forall n :: n in v.nodes ==> v'.nodes[n].master == v.nodes[n].master && v'.nodes[n].slaveof == v.nodes[n].slaveof)
            && (forall n :: n in v.nodes && n != p.hdr.sender ==> v'.nodes[n].configEpoch == v.nodes[n].configEpoch)
  {
    VoteOnlyOnRequest(v, p, env);
    SeeEpochsOk(v, p.hdr);
    CastVoteOk(SeeEpochs(v, p.hdr), p.hdr.sender, env.now);
    hide Serving, Superseded, OwnersKnown, Bitmap;
  }

  /** So a master's replicas get no second vote from this node within two timeouts. */
  lemma VotesApart(v: View, p: Packet, env: Env, q: Packet, env2: Env)
    requires Ok(v) && Receivable(v, p) && Votes(v, p, env) && v.lastVoteEpoch <= v.currentEpoch
    requires var v1 := Process(v, p, env).0;
             && Ok(v1) && Receivable(v1, q) && q.hdr.sender in v1.nodes && q.body.AuthRequest?
             && (VoteEffect(v, p, env); v1.nodes[q.hdr.sender].slaveof == v.nodes[p.hdr.sender].slaveof)
    requires env2.now - env.now < 2 * env2.timeout
    ensures !Votes(Process(v, p, env).0, q, env2)
  {
    VoteEffect(v, p, env);
    var v1 := Process(v, p, env).0;
    hide Process, Votes;
    VoteExactly(v1, q, env2, v.nodes[p.hdr.sender].slaveof.value);
  }

  // ---------------------------------------------------------------------- a whole round

  lemma RequestHeader(v: View, m: Id)
    requires Ok(v) && ReplicaOf(v, v.me, m)
    ensures Ok(RequestVotes(v))
    ensures var h := BuildHeader(RequestVotes(v));
            && h.sender == v.me && h.slaveof == Some(m) && h.currentEpoch == v.currentEpoch + 1
            && h.configEpoch == v.nodes[m].configEpoch && h.claimed == Bitmap(v.slots, m)
  {}

  /** A node stands for election exactly as a replica of a master that serves slots and has failed,
      if it is not told to keep out, or as one that is told to stand; its request then claims at
      least one slot. */
  lemma StandsExactly(v: View, env: Env)
    requires Ok(v)
    ensures MayFailover(v, env) <==>
            exists m :: ReplicaOf(v, v.me, m) && Serving(v, m) && (env.manual || (v.nodes[m].failed && !env.noFailover))
    ensures MayFailover(v, env) ==>
            Ok(RequestVotes(v)) && exists j :: 0 <= j < |v.slots| && BuildHeader(RequestVotes(v)).claimed[j]
  {
    if MayFailover(v, env) {
      var m := v.nodes[v.me].slaveof.value;
      assert ReplicaOf(v, v.me, m);
      RequestHeader(v, m);
      var j :| 0 <= j < |v.slots| && v.slots[j] == Some(m);
      assert BuildHeader(RequestVotes(v)).claimed[j];
    }
  }

  /** It has won when more than half of the electorate has answered. */
  lemma MajorityExactly(v: View)
    ensures Elected(v) <==> v.authSent && 2 * v.authCount > v.size
  {
  }

  // w sees the failover as the candidate v does, and is free to vote.
  ghost predicate Agrees(w: View, v: View, m: Id, now: int, timeout: nat)
    requires Ok(w) && Ok(v) && ReplicaOf(v, v.me, m)
  {
    && w.me != v.me && |w.slots| == |v.slots| && ReplicaOf(w, v.me, m) && w.nodes[m].failed == v.nodes[m].failed
    && w.nodes[w.me].master && Serving(w, w.me)
    && w.lastVoteEpoch <= w.currentEpoch <= v.currentEpoch
    && now - w.nodes[m].votedTime >= 2 * timeout
    && forall j :: 0 <= j < |v.slots| && v.slots[j] == Some(m) && w.slots[j].Some? ==>
         w.nodes[w.slots[j].value].configEpoch <= v.nodes[m].configEpoch
  }

  /** Request, vote and count: a master that sees things as the candidate does grants its request,
      and its answer is counted. */
  lemma RoundTrip(v: View, w: View, env: Env, wenv: Env, venv: Env, m: Id)
    requires Ok(v) && Ok(w) && MayFailover(v, env) && ReplicaOf(v, v.me, m) && Agrees(w, v, m, wenv.now, wenv.timeout)
    requires wenv.linked && w.me in v.nodes && v.nodes[w.me].master && Serving(v, w.me)
    ensures Ok(RequestVotes(v))
    ensures var request := Packet(BuildHeader(RequestVotes(v)), AuthRequest(env.manual));
            && Receivable(w, request)
            && var out := Process(w, request, wenv).1;
            && |out| == 1 && Receivable(RequestVotes(v), out[0])
            && Process(RequestVotes(v), out[0], venv).0.authCount == v.authCount + 1
  {
    RequestHeader(v, m);
    var request := Packet(BuildHeader(RequestVotes(v)), AuthRequest(env.manual));
    assert UpToDate(w, request.hdr);
    hide BuildHeader;
    VoteExactly(w, request, wenv, m);
    VoteEffect(w, request, wenv);
    AckShape(w, request, wenv);
    var ack := Process(w, request, wenv).1[0];
    AckCounts(RequestVotes(v), ack, venv);
  }

  lemma AckShape(w: View, p: Packet, env: Env)
    requires Ok(w) && Receivable(w, p) && Votes(w, p, env) && env.linked && w.nodes[w.me].master
    ensures |Process(w, p, env).1| == 1
    ensures var ack := Process(w, p, env).1[0];
            && ack.body == AuthAck && ack.hdr.sender == w.me && ack.hdr.slaveof == None
            && ack.hdr.currentEpoch == p.hdr.currentEpoch && |ack.hdr.claimed| == |w.slots|
  {
    VoteOnlyOnRequest(w, p, env);
    SeeEpochsOk(w, p.hdr);
    CastVoteOk(SeeEpochs(w, p.hdr), p.hdr.sender, env.now);
    hide Serving, Superseded, OwnersKnown;
  }

  lemma AckCounts(v: View, ack: Packet, env: Env)
    requires Ok(v) && Receivable(v, ack) && ack.body == AuthAck && ack.hdr.sender in v.nodes
    requires v.nodes[ack.hdr.sender].master && Serving(v, ack.hdr.sender) && ack.hdr.currentEpoch >= v.authEpoch
    ensures Process(v, ack, env).0.authCount == v.authCount + 1
  {
    SeeEpochsOk(v, ack.hdr);
    SeenServing(v, ack.hdr, ack.hdr.sender);
    hide Serving;
  }

  /** The electorate by which a majority is sized is exactly the set of nodes whose answers count. */
  lemma ElectorateExactly(v: View, p: Packet, env: Env)
    requires Ok(v) && Receivable(v, p) && p.body == AuthAck && p.hdr.currentEpoch >= v.authEpoch
    ensures UpdateState(v).size == |SlotServers(v)|
    ensures Process(v, p, env).0.authCount == v.authCount + (if p.hdr.sender in SlotServers(v) then 1 else 0)
  {
    if p.hdr.sender in v.nodes {
      SeeEpochsOk(v, p.hdr);
      SeenServing(v, p.hdr, p.hdr.sender);
    }
    hide Serving;
  }

  // ------------------------------------------------------------- the winner's claim prevails

  // What a node says of itself as a master: h claims slot j.
  ghost predicate Announces(h: Header, n: Id, j: nat) {
    h.sender == n && h.slaveof == None && j < |h.claimed| && h.claimed[j]
  }

  // w would give slot j to whoever claims it under `epoch`.
  ghost predicate Yields(w: View, j: nat, epoch: nat)
    requires Ok(w) && j < |w.slots|
  {
    w.importing[j] == None && (w.slots[j].Some? ==> w.nodes[w.slots[j].value].configEpoch < epoch)
  }

  // Epochs are seen first; that does not change what the owner's claim is worth.
  lemma ClaimRebinds(w: View, h: Header, n: Id, j: nat, allowMigration: bool)
    requires Ok(w) && |h.claimed| == |w.slots| && Announces(h, n, j) && n in w.nodes && n != w.me
    requires w.slots[j] != Some(n) && Yields(w, j, h.configEpoch)
    ensures var w' := Reconfigure(w, h, allowMigration); |w'.slots| == |w.slots| && w'.slots[j] == Some(n)
  {
    SwitchRoleOk(w, n, None);
    var w2 := SwitchRole(w, n, None);
    assert w2.slots == w.slots && w2.importing == w.importing && w2.nodes[n].master;
    assert w.slots[j].Some? ==> w2.nodes[w.slots[j].value].configEpoch == w.nodes[w.slots[j].value].configEpoch;
    hide Follows, Correction, BuildHeader, OwnersKnown, Linked, SwitchRole;
    assert !Bitmap(w2.slots, n)[j];
    assert Reconfigure(w, h, allowMigration).slots == Rebound(w2, n, h.configEpoch, h.claimed);
  }

  lemma StillYields(w: View, h: Header, n: Id, j: nat)
    requires Ok(w) && h.sender == n && n in w.nodes && j < |w.slots| && w.slots[j] != Some(n) && Yields(w, j, h.configEpoch)
    ensures var w1 := SeeEpochs(w, h);
      Ok(w1) && w1.slots == w.slots && n in w1.nodes && w1.me == w.me && Yields(w1, j, h.configEpoch)
  {
    SeeEpochsOk(w, h);
    hide OwnersKnown, Linked;
  }

  /** A node that hears a master claim a slot under a greater epoch than the owner it knows gives
      the slot to the claimant. */
  lemma ClaimPrevails(w: View, h: Header, body: Body, env: Env, n: Id, j: nat)
    requires Ok(w) && Receivable(w, Packet(h, body)) && (body.Ping? || body.Pong?)
    requires Announces(h, n, j) && n in w.nodes && w.slots[j] != Some(n) && Yields(w, j, h.configEpoch)
    ensures var w' := Process(w, Packet(h, body), env).0; |w'.slots| == |w.slots| && w'.slots[j] == Some(n)
  {
    StillYields(w, h, n, j);
    ClaimRebinds(SeeEpochs(w, h), h, n, j, env.allowMigration);
    hide Correction, BuildHeader, SeeEpochs, Reconfigure, Rebound, SwitchRole, Ok;
  }

  lemma TakeOverHeader(v: View, m: Id, j: nat)
    requires Ok(v) && ReplicaOf(v, v.me, m) && j < |v.slots| && v.slots[j] == Some(m)
    ensures Ok(TakeOver(v)) && Announces(BuildHeader(TakeOver(v)), v.me, j)
    ensures BuildHeader(TakeOver(v)).configEpoch >= v.authEpoch
    ensures BuildHeader(TakeOver(v)).configEpoch >= v.nodes[v.me].configEpoch
  {
    TakeOverOk(v);
    hide OwnersKnown, Linked;
  }

  /** Taking over moves every slot of the old master and no other to the new one, which has no
      master any more; of the other nodes nothing changes.  A master takes nothing over. */
  lemma TakeOverExactly(v: View, j: nat, n: Id)
    requires Ok(v) && j < |v.slots| && n in v.nodes
    ensures var v', me := TakeOver(v), v.nodes[v.me];
            && |v'.slots| == |v.slots| && v.me in v'.nodes && n in v'.nodes && v'.nodes[v.me].master == (me.master || me.slaveof.Some?)
            && v'.slots[j] == (if me.slaveof.Some? && v.slots[j] == me.slaveof then Some(v.me) else v.slots[j])
            && (me.master || me.slaveof.Some? ==> v'.nodes[v.me].slaveof == None)
            && (n != v.me ==> v'.nodes[n] == v.nodes[n])
            && v'.importing == v.importing && v'.migrating == v.migrating
            && v'.currentEpoch == v.currentEpoch && v'.lastVoteEpoch == v.lastVoteEpoch
  {
    hide OwnersKnown;
  }

  /** After a won election: whoever still takes the old master for the owner of a slot, under an
      epoch before that of the election, gives the slot to the winner when it hears from it. */
  lemma WinnerPrevails(v: View, w: View, m: Id, j: nat, body: Body, env: Env)
    requires Ok(v) && Ok(w) && ReplicaOf(v, v.me, m) && j < |v.slots| == |w.slots| && v.slots[j] == Some(m)
    requires w.me != v.me && v.me in w.nodes && w.slots[j] == Some(m) && Yields(w, j, v.authEpoch)
    requires body.Ping? || body.Pong?
    ensures Ok(TakeOver(v))
    ensures var p := Packet(BuildHeader(TakeOver(v)), body);
            Receivable(w, p) && |Process(w, p, env).0.slots| == |w.slots| && Process(w, p, env).0.slots[j] == Some(v.me)
  {
    TakeOverHeader(v, m, j);
    hide Process, TakeOver;
    ClaimPrevails(w, BuildHeader(TakeOver(v)), body, env, v.me, j);
  }

  // A new epoch of its own, unless it has the greatest one already.
  lemma BumpReaches(v: View)
    requires Ok(v) && Bounded(v)
    ensures Ok(Bump(v)) && Bump(v).nodes[v.me].configEpoch >= v.currentEpoch && Bump(v).nodes[v.me].configEpoch > 0
  {
    BumpOk(v);
    MaxEpochIsCurrent(v);
    hide MaxEpoch;
  }

  // No epoch that this node knows is greater than its own.
  ghost predicate OnTop(v: View)
    requires v.me in v.nodes
  {
    var mine := v.nodes[v.me].configEpoch;
    v.currentEpoch <= mine && forall n :: n in v.nodes ==> v.nodes[n].configEpoch <= mine
  }

  /** A node takes a new epoch without an election exactly if its own is zero or not the greatest it
      knows; the new one is the next of the cluster. */
  lemma BumpExactly(v: View)
    requires v.me in v.nodes
    ensures if v.nodes[v.me].configEpoch > 0 && OnTop(v) then Bump(v) == v
            else Bump(v).currentEpoch == v.currentEpoch + 1 && v.me in Bump(v).nodes
                 && Bump(v).nodes[v.me].configEpoch == v.currentEpoch + 1
  {
    TopExactly(v);
    hide MaxEpoch, OnTop;
  }

  lemma TopExactly(v: View)
    requires v.me in v.nodes
    ensures OnTop(v) <==> v.nodes[v.me].configEpoch == MaxEpoch(v)
  {
  }

  /** The same for a takeover by order. */
  lemma OrderedTakeoverPrevails(v: View, w: View, m: Id, j: nat, body: Body, env: Env)
    requires Ok(v) && Bounded(v) && Ok(w) && ReplicaOf(v, v.me, m) && j < |v.slots| == |w.slots| && v.slots[j] == Some(m)
    requires w.me != v.me && v.me in w.nodes && w.slots[j] == Some(m) && Yields(w, j, v.currentEpoch)
    requires body.Ping? || body.Pong?
    ensures Ok(ReplaceYourMaster(Bump(v)))
    ensures var p := Packet(BuildHeader(ReplaceYourMaster(Bump(v))), body);
            Receivable(w, p) && |Process(w, p, env).0.slots| == |w.slots| && Process(w, p, env).0.slots[j] == Some(v.me)
  {
    BumpReaches(v);
    ReplaceYourMasterOk(Bump(v));
    ReplacedHeader(v, m, j);
    hide Process, ReplaceYourMaster, Bump;
    ClaimPrevails(w, BuildHeader(ReplaceYourMaster(Bump(v))), body, env, v.me, j);
  }

  lemma ReplacedHeader(v: View, m: Id, j: nat)
    requires Ok(v) && Bounded(v) && ReplicaOf(v, v.me, m) && j < |v.slots| && v.slots[j] == Some(m)
    ensures Ok(ReplaceYourMaster(Bump(v))) && Announces(BuildHeader(ReplaceYourMaster(Bump(v))), v.me, j)
    ensures BuildHeader(ReplaceYourMaster(Bump(v))).configEpoch >= v.currentEpoch
    ensures |BuildHeader(ReplaceYourMaster(Bump(v))).claimed| == |v.slots|
  {
    BumpReaches(v);
    ReplaceYourMasterOk(Bump(v));
    hide OwnersKnown, Linked, MaxEpoch;
  }

  /** And for a slot whose import is closed: the old owner is told under a newer epoch. */
  lemma ImportPrevails(v: View, w: View, j: nat, hasKeys: bool, body: Body, env: Env)
    requires Ok(v) && Bounded(v) && Ok(w) && j < |v.slots| == |w.slots| && v.nodes[v.me].master && v.importing[j].Some?
    requires w.me != v.me && v.me in w.nodes && w.slots[j] != Some(v.me) && Yields(w, j, v.currentEpoch)
    requires body.Ping? || body.Pong?
    ensures Ok(SetSlot(v, j, Assign(v.me), hasKeys))
    ensures var p := Packet(BuildHeader(SetSlot(v, j, Assign(v.me), hasKeys)), body);
            Receivable(w, p) && |Process(w, p, env).0.slots| == |w.slots| && Process(w, p, env).0.slots[j] == Some(v.me)
  {
    SetSlotOk(v, j, Assign(v.me), hasKeys);
    ImportHeader(v, j, hasKeys);
    hide Process, SetSlot;
    ClaimPrevails(w, BuildHeader(SetSlot(v, j, Assign(v.me), hasKeys)), body, env, v.me, j);
  }

  lemma ImportHeader(v: View, j: nat, hasKeys: bool)
    requires Ok(v) && Bounded(v) && j < |v.slots| && v.nodes[v.me].master && v.importing[j].Some?
    ensures Ok(SetSlot(v, j, Assign(v.me), hasKeys))
    ensures var h := BuildHeader(SetSlot(v, j, Assign(v.me), hasKeys));
            Announces(h, v.me, j) && h.configEpoch >= v.currentEpoch && |h.claimed| == |v.slots|
  {
    SetSlotOk(v, j, Assign(v.me), hasKeys);
    var v1 := v.(slots := v.slots[j := Some(v.me)],
                 migrating := if hasKeys then v.migrating else v.migrating[j := None]);
    BumpReaches(v1);
    BumpKeeps(v1);
    hide OwnersKnown, MaxEpoch, Bump;
  }

  lemma BumpKeeps(v: View)
    requires Ok(v)
    ensures Bump(v).slots == v.slots && Bump(v).me == v.me && v.me in Bump(v).nodes
    ensures Bump(v).nodes[v.me].slaveof == v.nodes[v.me].slaveof && Bump(v).nodes[v.me].master == v.nodes[v.me].master
  {
    hide MaxEpoch;
  }

  // --------------------------------------------------------------- what a majority knew

  // Before step i, q voted for n in this epoch, knowing of no newer owner of a slot n claimed.
  ghost predicate Backed(bs: seq<Bus>, acts: seq<Action>, i: nat, q: Id, n: Id, epoch: nat)
    requires Run(bs, acts) && i <= |acts|
  {
    exists k :: 0 <= k < i && BacksAt(bs[k], acts[k], q, n, epoch)
  }

  ghost predicate BacksAt(b: Bus, a: Action, q: Id, n: Id, epoch: nat) {
    && Enabled(b, a) && CastsVote(b, a) && VoteEpoch(b, a) == epoch
    && b.net[a.i].to == q && b.net[a.i].packet.hdr.sender == n
    && UpToDate(b.views[q], b.net[a.i].packet.hdr)
  }

  lemma VoteWasInformed(b: Bus, a: Action)
    requires Wellformed(b) && Enabled(b, a) && CastsVote(b, a)
    ensures BacksAt(b, a, b.net[a.i].to, b.net[a.i].packet.hdr.sender, VoteEpoch(b, a))
  {
    hide Serving, OwnersKnown;
    UpToDateSeen(b.views[b.net[a.i].to], b.net[a.i].packet.hdr);
  }

  lemma SupporterBacked(bs: seq<Bus>, acts: seq<Action>, ss: seq<E.State>, es: seq<E.Action>, i: nat, q: Id, n: Id, e: nat)
    requires Run(bs, acts) && i <= |acts| && bs[0].views != map[] && Shadows(bs, acts, ss, es, |acts|)
    requires E.Voted(ss[i], q, e, n)
    ensures Backed(bs, acts, i, q, n, e)
  {
    hide Enabled, Rep, Wellformed, Epochs, Next, CastsVote, BacksAt, E.Do, E.Enabled, E.Init, E.Shape, Mimic;
    var k := E.VoteSource(ss, es, i, q, e, n);
    EpochsInvariant(bs, acts, k);
    VoteIsReal(bs[k], acts[k], ss[k]);
    VoteWasInformed(bs[k], acts[k]);
  }

  // A vote of the protocol is a vote on the bus.
  lemma VoteIsReal(b: Bus, a: Action, s: E.State)
    requires Enabled(b, a) && Rep(b, s) && b.views != map[] && Mimic(b, a).Vote? && Mimic(b, a).req.to in s.nodes
    ensures CastsVote(b, a) && Mimic(b, a).req.to == b.net[a.i].to
    ensures Mimic(b, a).req.from == b.net[a.i].packet.hdr.sender && E.Seen(s, Mimic(b, a).req) == VoteEpoch(b, a)
  {
    hide GrantsVote, NewView, Added, Removed, AbsNet, Ok, Process, Receivable;
  }

  /** Whoever wins an election on the bus was voted for, in that epoch, by a majority of nodes none
      of which knew a newer owner of a slot that the winner claimed. */
  lemma BackedByMajority(bs: seq<Bus>, acts: seq<Action>, i: nat, epoch: nat)
    requires Run(bs, acts) && i < |acts| && Wins(bs[i], acts[i], epoch)
    requires forall k :: 0 <= k < |acts| ==> Timely(bs[k], acts[k])
    ensures exists quorum: set<Id> :: |quorum| >= bs[i].views[acts[i].n].size / 2 + 1
              && forall q :: q in quorum ==> Backed(bs, acts, i, q, acts[i].n, epoch)
  {
    hide Rep, Mimic, Next, E.Do, E.Enabled, Timely, Backed, CastsVote, NewView;
    SomeoneActs(bs, acts, i);
    var ss, es := Simulate(bs, acts, |acts|);
    forall k | 0 <= k < |acts| ensures E.Timely(ss[k], es[k]) {
      TimelyShadow(bs[k], acts[k], ss[k]);
    }
    E.RunInv(ss, es, i);
    E.TimelyRunHasNoStale(ss, es, i);
    CounterFacts(bs[i], acts[i], ss[i]);
    var n, s := acts[i].n, ss[i];
    assert E.NodeInv(s, n);
    var quorum := s.counted[n];
    forall q | q in quorum ensures Backed(bs, acts, i, q, n, epoch) {
      assert E.CountInv(s, n, q);
      SupporterBacked(bs, acts, ss, es, i, q, n, epoch);
    }
  }

  lemma TimelyShadow(b: Bus, a: Action, s: E.State)
    requires Enabled(b, a) && Rep(b, s) && b.views != map[] && Timely(b, a)
    ensures E.Timely(s, Mimic(b, a))
  {
    hide NewView, Added, Removed, GrantsVote, CountsVote, AbsNet;
  }

  lemma CounterFacts(b: Bus, a: Action, s: E.State)
    requires Enabled(b, a) && Rep(b, s) && a.WinTimer?
    ensures a.n in s.nodes && s.nodes[a.n].authEpoch == b.views[a.n].authEpoch
    ensures s.nodes[a.n].count >= b.views[a.n].size / 2 + 1
  {
    hide MayFailover;
  }
}
