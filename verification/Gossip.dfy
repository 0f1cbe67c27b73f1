/**
What nodes learn from each other's packets: roles, failures, owners of slots, and when to
follow a new master.

Each law is about a packet as a whole, from its header to the new view and the answers.
*/
module Gossip {
  import opened Options
  import opened ClusterView

  ghost predicate AnswersPong(out: seq<Packet>) {
    exists i :: 0 <= i < |out| && out[i].body == Pong
  }

  ghost predicate SendsUpdate(out: seq<Packet>) {
    exists i :: 0 <= i < |out| && out[i].body.Update?
  }

  lemma {:induction false} CorrectionIsUpdate(v: View, h: Header, j: nat)
    requires Ok(v) && j <= |v.slots| == |h.claimed|
    ensures |Correction(v, h, j)| <= 1 && forall i :: 0 <= i < |Correction(v, h, j)| ==> Correction(v, h, j)[i].body.Update?
    decreases |v.slots| - j
  {
    if j < |v.slots| {
      CorrectionIsUpdate(v, h, j + 1);
    }
  }

  // The answers to a packet, apart from the PONG.
  lemma BodyAnswers(v: View, p: Packet, env: Env)
    requires Ok(v) && Receivable(v, p) && p.hdr.sender in v.nodes
    ensures !AnswersPong(ProcessBody(v, p, env).1)
    ensures SendsUpdate(ProcessBody(v, p, env).1) ==> p.body.Ping? || p.body.Pong?
  {
    hide Reconfigure, HandleUpdate, Superseded, Serving, CountsVote, Dirty, Correction, BuildHeader;
    if p.body.Ping? || p.body.Pong? {
      ReconfigureOk(v, p.hdr, env.allowMigration);
      CorrectionIsUpdate(Reconfigure(v, p.hdr, env.allowMigration), p.hdr, 0);
    } else if p.body.AuthRequest? && GrantsVote(v, p.hdr, p.body.force, env.now, env.timeout) {
      CastVoteOk(v, p.hdr.sender, env.now);
    }
  }

  /** A PING is answered by a PONG, from a stranger too, and nothing else is. */
  lemma PingIsAnswered(v: View, p: Packet, env: Env)
    requires Ok(v) && Receivable(v, p)
    ensures AnswersPong(Process(v, p, env).1) <==> p.body.Ping?
    ensures p.hdr.sender !in v.nodes ==> Process(v, p, env).0 == v
    ensures p.body.Ping? ==> Process(v, p, env).1[0].hdr.sender == v.me
  {
    hide ProcessBody, Bitmap;
    if p.hdr.sender in v.nodes {
      SeeEpochsOk(v, p.hdr);
      BodyAnswers(SeeEpochs(v, p.hdr), p, env);
    }
    if p.body.Ping? {
      assert Process(v, p, env).1[0].body == Pong;
    }
  }

  // ---------------------------------------------------------------------------- roles

  lemma ClaimKeepsOthers(v: View, s: Id, epoch: nat, claimed: seq<bool>, allow: bool, n: Id)
    requires Ok(v) && s in v.nodes && |claimed| == |v.slots| && n in v.nodes && n != v.me
    ensures n in UpdateSlots(v, s, epoch, claimed, allow).nodes
    ensures UpdateSlots(v, s, epoch, claimed, allow).nodes[n] == v.nodes[n]
    ensures s != n ==> forall j :: 0 <= j < |v.slots| && v.slots[j] != Some(n) ==>
              |UpdateSlots(v, s, epoch, claimed, allow).slots| == |v.slots|
              && UpdateSlots(v, s, epoch, claimed, allow).slots[j] != Some(n)
  {
    hide Follows;
  }

  // A replica keeps what it owns; a master that turned replica loses all of it.
  ghost predicate SlotsReleased(v: View, v': View, s: Id)
    requires s in v.nodes
  {
    && |v'.slots| == |v.slots|
    && forall j :: 0 <= j < |v.slots| ==>
         v'.slots[j] == if v.nodes[s].master && v.slots[j] == Some(s) then None else v.slots[j]
  }

  lemma SwitchRoleExactly(v: View, s: Id, slaveof: Option<Id>)
    requires Ok(v) && s in v.nodes && s != v.me && slaveof != Some(s)
    ensures var v' := SwitchRole(v, s, slaveof);
            && Keeps(v, v') && v'.nodes[s].master == (slaveof == None)
            && (slaveof == None ==> v'.nodes[s].slaveof == None && v'.slots == v.slots)
            && (slaveof.Some? && slaveof.value in v.nodes ==> v'.nodes[s].slaveof == slaveof)
            && (slaveof.Some? ==> SlotsReleased(v, v', s))
            && (forall n :: n in v.nodes && n != s ==> v'.nodes[n] == v.nodes[n])
            && v'.importing == v.importing && v'.migrating == v.migrating
  {
    SwitchRoleOk(v, s, slaveof);
  }

  // What v' says of the role of s, which says of itself that it replicates `slaveof`.
  ghost predicate Learnt(v: View, v': View, s: Id, slaveof: Option<Id>) {
    && s in v.nodes && s in v'.nodes && |v'.slots| == |v.slots| && v'.nodes[s].master == (slaveof == None)
    && (slaveof == None ==> v'.nodes[s].slaveof == None)
    && (slaveof.Some? && slaveof.value in v.nodes ==> v'.nodes[s].slaveof == slaveof)
    && (slaveof.Some? ==> SlotsReleased(v, v', s))
  }

  lemma RoleReconfigured(v: View, h: Header, allow: bool)
    requires Ok(v) && h.sender in v.nodes && h.sender != v.me && h.slaveof != Some(h.sender)
    requires |h.claimed| == |v.slots|
    ensures Ok(Reconfigure(v, h, allow)) && Learnt(v, Reconfigure(v, h, allow), h.sender, h.slaveof)
  {
    hide SwitchRole, UpdateSlots, Dirty, Ok;
    ReconfigureOk(v, h, allow);
    SwitchRoleExactly(v, h.sender, h.slaveof);
    ClaimKeepsOthers(SwitchRole(v, h.sender, h.slaveof), h.sender, h.configEpoch, h.claimed, allow, h.sender);
  }

  /** A PING or PONG teaches the role of its sender: a master has no master; a replica has the one it
      names, if that is known.  One that was a master before has lost all its slots, and apart from
      that a replica's packet moves no slot. */
  lemma RoleIsLearnt(v: View, p: Packet, env: Env)
    requires Ok(v) && Receivable(v, p) && p.hdr.sender in v.nodes && (p.body.Ping? || p.body.Pong?)
    ensures Learnt(v, Process(v, p, env).0, p.hdr.sender, p.hdr.slaveof)
  {
    SeeEpochsOk(v, p.hdr);
    RoleReconfigured(SeeEpochs(v, p.hdr), p.hdr, env.allowMigration);
    hide Reconfigure, Correction, Dirty, BuildHeader, OwnersKnown, Linked;
  }

  /** A FAIL packet flags the node it names, unless it is this one, and nobody else. */
  lemma FailureIsLearnt(v: View, p: Packet, env: Env, n: Id)
    requires Ok(v) && Receivable(v, p) && p.hdr.sender in v.nodes && p.body.Fail? && n in v.nodes
    ensures var v' := Process(v, p, env).0;
            && n in v'.nodes && v'.nodes[n].failed == (v.nodes[n].failed || (n == p.body.failing && n != v.me))
            && v'.slots == v.slots && v'.nodes[n].master == v.nodes[n].master && v'.nodes[n].slaveof == v.nodes[n].slaveof
  {
    hide BuildHeader;
  }

  // ----------------------------------------------------------------- outdated claims

  // Slot j, claimed in h, has another owner under a greater epoch here.
  ghost predicate Newer(v: View, h: Header, j: nat)
    requires Ok(v) && |h.claimed| == |v.slots| && j < |v.slots|
  {
    && h.claimed[j] && v.slots[j].Some? && v.slots[j] != Some(h.sender)
    && v.nodes[v.slots[j].value].configEpoch > h.configEpoch
  }

  ghost predicate AnyNewer(v: View, h: Header)
    requires Ok(v) && |h.claimed| == |v.slots|
  {
    exists j :: 0 <= j < |v.slots| && Newer(v, h, j)
  }

  // The UPDATE is about the owner of such a slot, with its epoch and its slots.
  ghost predicate Corrects(v: View, h: Header, p: Packet)
    requires Ok(v) && |h.claimed| == |v.slots|
  {
    && p.body.Update? && p.hdr.sender == v.me
    && exists j :: 0 <= j < |v.slots| && Newer(v, h, j) && v.slots[j] == Some(p.body.about)
         && p.body.epoch == v.nodes[p.body.about].configEpoch && p.body.served == Bitmap(v.slots, p.body.about)
  }

  lemma {:induction false} CorrectionExactly(v: View, h: Header, i: nat)
    requires Ok(v) && i <= |v.slots| == |h.claimed|
    ensures Correction(v, h, i) == [] <==> forall j :: i <= j < |v.slots| ==> !Newer(v, h, j)
    ensures Correction(v, h, i) != [] ==> |Correction(v, h, i)| == 1 && Corrects(v, h, Correction(v, h, i)[0])
    decreases |v.slots| - i
  {
    if i < |v.slots| {
      CorrectionExactly(v, h, i + 1);
      assert Outdated(v, h, i) <==> Newer(v, h, i);
    }
  }

  // Rebinding the slots a master claims leaves the newer claims of others alone.
  lemma NewerStays(v: View, h: Header, allow: bool, j: nat)
    requires Ok(v) && h.sender in v.nodes && h.sender != v.me && h.slaveof == None && |h.claimed| == |v.slots| && j < |v.slots|
    ensures var v1 := Reconfigure(v, h, allow); Ok(v1) && |v1.slots| == |v.slots| && (Newer(v1, h, j) <==> Newer(v, h, j))
  {
    SwitchRoleExactly(v, h.sender, None);
    ReconfigureOk(v, h, allow);
    ReconfigureEpochs(v, h, allow);
    SwitchRoleEpochs(v, h.sender, None);
    var v1 := SwitchRole(v, h.sender, None);
    RebindsOlder(v1, h.sender, h.configEpoch, h.claimed, allow, j);
    hide SwitchRole, UpdateSlots, Dirty, Linked, OwnersKnown;
  }

  // A claim changes the owner of a slot only to the claimant, and only from one with a smaller epoch.
  lemma RebindsOlder(v: View, s: Id, epoch: nat, claimed: seq<bool>, allow: bool, j: nat)
    requires Ok(v) && s in v.nodes && s != v.me && |claimed| == |v.slots| && j < |v.slots|
    ensures var v' := UpdateSlots(v, s, epoch, claimed, allow);
            && |v'.slots| == |v.slots| && (v'.slots[j] == v.slots[j] || v'.slots[j] == Some(s))
            && (v.slots[j].Some? && v'.slots[j] != v.slots[j] ==> v.nodes[v.slots[j].value].configEpoch < epoch)
  {
    hide Follows;
  }

  lemma NewerIsDirty(v: View, h: Header)
    requires Ok(v) && h.sender in v.nodes && h.sender != v.me && h.slaveof == None && |h.claimed| == |v.slots| && AnyNewer(v, h)
    ensures h.sender in SwitchRole(v, h.sender, None).nodes && Dirty(SwitchRole(v, h.sender, None), h)
  {
    SwitchRoleExactly(v, h.sender, None);
    var j :| 0 <= j < |v.slots| && Newer(v, h, j);
    var v1 := SwitchRole(v, h.sender, None);
    assert !Bitmap(v1.slots, h.sender)[j];
  }

  lemma PingTells(v: View, h: Header, allow: bool)
    requires Ok(v) && h.sender in v.nodes && h.sender != v.me && h.slaveof == None && |h.claimed| == |v.slots|
    ensures HandlePing(v, h, allow).1 != [] <==> AnyNewer(v, h)
    ensures forall i :: 0 <= i < |HandlePing(v, h, allow).1| ==> HandlePing(v, h, allow).1[i].body.Update?
  {
    hide Newer, Reconfigure, Correction, Dirty, SwitchRole, BuildHeader, Collide, Ok;
    ReconfigureOk(v, h, allow);
    var v1 := Reconfigure(v, h, allow);
    forall j | 0 <= j < |v.slots| ensures Newer(v1, h, j) <==> Newer(v, h, j) {
      NewerStays(v, h, allow, j);
    }
    CorrectionExactly(v1, h, 0);
    CorrectionIsUpdate(v1, h, 0);
    if AnyNewer(v, h) {
      NewerIsDirty(v, h);
    }
  }

  lemma NewerSeen(v: View, h: Header)
    requires Ok(v) && h.sender in v.nodes && |h.claimed| == |v.slots|
    ensures Ok(SeeEpochs(v, h)) && (AnyNewer(SeeEpochs(v, h), h) <==> AnyNewer(v, h))
  {
    SeeEpochsOk(v, h);
    var v1 := SeeEpochs(v, h);
    assert forall j :: 0 <= j < |v.slots| ==> (Newer(v1, h, j) <==> Newer(v, h, j));
  }

  /** A master that claims slots under an outdated epoch is told so, exactly then, by an UPDATE about
      one newer owner. */
  lemma OutdatedIsTold(v: View, p: Packet, env: Env)
    requires Ok(v) && Receivable(v, p) && p.hdr.sender in v.nodes && (p.body.Ping? || p.body.Pong?)
    requires p.hdr.slaveof == None && env.linked
    ensures SendsUpdate(Process(v, p, env).1) <==> AnyNewer(v, p.hdr)
  {
    hide HandlePing, BuildHeader, AnyNewer, OwnersKnown, Linked;
    SeeEpochsOk(v, p.hdr);
    NewerSeen(v, p.hdr);
    PingTells(SeeEpochs(v, p.hdr), p.hdr, env.allowMigration);
    var out, all := HandlePing(SeeEpochs(v, p.hdr), p.hdr, env.allowMigration).1, Process(v, p, env).1;
    if out != [] {
      assert all[|all| - 1] == out[|out| - 1];
    }
  }

  lemma ReplicaTells(v: View, h: Header, allow: bool, m: Id)
    requires Ok(v) && h.sender in v.nodes && h.sender != v.me && h.slaveof == Some(m) && m != h.sender && m in v.nodes
    requires |h.claimed| == |v.slots|
    ensures HandlePing(v, h, allow).1 != [] <==>
            AnyNewer(v, h) && exists j :: 0 <= j < |v.slots| && h.claimed[j] != (v.slots[j] == Some(m))
    ensures forall i :: 0 <= i < |HandlePing(v, h, allow).1| ==> HandlePing(v, h, allow).1[i].body.Update?
  {
    ReconfigureOk(v, h, allow);
    SwitchRoleExactly(v, h.sender, h.slaveof);
    var v1 := SwitchRole(v, h.sender, h.slaveof);
    hide SwitchRole, Correction, Collide, OwnersKnown, Linked;
    CorrectionExactly(v1, h, 0);
    CorrectionIsUpdate(v1, h, 0);
    assert forall j :: 0 <= j < |v.slots| ==> (Newer(v1, h, j) <==> Newer(v, h, j));
    assert Dirty(v1, h) <==> exists j :: 0 <= j < |v.slots| && h.claimed[j] != (v.slots[j] == Some(m)) by {
      assert forall j :: 0 <= j < |v.slots| ==> Bitmap(v1.slots, m)[j] == (v.slots[j] == Some(m));
    }
  }

  /** A replica is told so too, but only if what it says of its shard differs from what is known here. */
  lemma ReplicaIsTold(v: View, p: Packet, env: Env, m: Id)
    requires Ok(v) && Receivable(v, p) && p.hdr.sender in v.nodes && (p.body.Ping? || p.body.Pong?)
    requires p.hdr.slaveof == Some(m) && m in v.nodes && env.linked
    ensures SendsUpdate(Process(v, p, env).1) <==>
            AnyNewer(v, p.hdr) && exists j :: 0 <= j < |v.slots| && p.hdr.claimed[j] != (v.slots[j] == Some(m))
  {
    hide HandlePing, BuildHeader, AnyNewer, OwnersKnown, Linked;
    SeeEpochsOk(v, p.hdr);
    NewerSeen(v, p.hdr);
    ReplicaTells(SeeEpochs(v, p.hdr), p.hdr, env.allowMigration, m);
    var out, all := HandlePing(SeeEpochs(v, p.hdr), p.hdr, env.allowMigration).1, Process(v, p, env).1;
    if out != [] {
      assert all[|all| - 1] == out[|out| - 1];
    }
  }

  // A claimed slot goes to the claimant exactly if it is not being imported and is free or owned
  // under a smaller epoch.
  lemma ClaimExactly(v: View, s: Id, epoch: nat, claimed: seq<bool>, allow: bool, j: nat)
    requires Ok(v) && s in v.nodes && s != v.me && |claimed| == |v.slots| && j < |v.slots|
    ensures var v' := UpdateSlots(v, s, epoch, claimed, allow);
            && |v'.slots| == |v.slots|
            && v'.slots[j] == if claimed[j] && v.importing[j] == None
                                 && (v.slots[j].Some? ==> v.nodes[v.slots[j].value].configEpoch < epoch)
                              then Some(s) else v.slots[j]
  {
    hide Follows;
  }

  lemma OwnerKnown(v: View, j: nat)
    requires Ok(v) && j < |v.slots|
    ensures v.slots[j].Some? ==> v.slots[j].value in v.nodes
    ensures |v.importing| == |v.slots|
  {}

  // The node a report is about, as a master with the reported epoch.
  lemma ReportedOk(v: View, about: Id, epoch: nat)
    requires Ok(v) && about in v.nodes && about != v.me
    ensures var v1 := WithEpoch(if v.nodes[about].master then v else SetNodeAsMaster(v, about), about, epoch);
            && Keeps(v, v1) && v1.slots == v.slots && v1.importing == v.importing
            && v1.nodes[about].master && v1.nodes[about].configEpoch == epoch
            && forall n :: n in v.nodes && n != about ==> v1.nodes[n].configEpoch == v.nodes[n].configEpoch
  {}

  lemma UpdateEffect(v: View, about: Id, epoch: nat, served: seq<bool>, allow: bool, j: nat)
    requires Ok(v) && about in v.nodes && about != v.me && v.nodes[about].configEpoch < epoch && j < |v.slots| == |served|
    ensures var v' := HandleUpdate(v, about, epoch, served, allow);
            && Keeps(v, v') && v'.nodes[about].master && v'.nodes[about].configEpoch == epoch
            && v'.slots[j] == if served[j] && v.importing[j] == None
                                 && (v.slots[j].Some? ==> v.nodes[v.slots[j].value].configEpoch < epoch)
                              then Some(about) else v.slots[j]
  {
    hide UpdateSlots, Ok, WithEpoch;
    HandleUpdateOk(v, about, epoch, served, allow);
    assert about in v.nodes;
    ReportedOk(v, about, epoch);
    var v1 := WithEpoch(if v.nodes[about].master then v else SetNodeAsMaster(v, about), about, epoch);
    OwnerKnown(v, j);
    ClaimKeepsOthers(v1, about, epoch, served, allow, about);
    ClaimExactly(v1, about, epoch, served, allow, j);
  }

  /** And an UPDATE takes effect at its receiver: the node it is about becomes a known master with
      that epoch, and exactly the slots it serves that were free or owned under a smaller one, and
      are not being imported, go to it. */
  lemma UpdateTakesEffect(v: View, p: Packet, env: Env, j: nat)
    requires Ok(v) && Receivable(v, p) && p.hdr.sender in v.nodes && p.body.Update? && j < |v.slots|
    requires p.body.about in v.nodes && p.body.about != v.me && Seen(v, p.hdr, p.body.about) < p.body.epoch
    ensures var v', about := Process(v, p, env).0, p.body.about;
            && Keeps(v, v') && v'.nodes[about].master && v'.nodes[about].configEpoch == p.body.epoch
            && v'.slots[j] == if p.body.served[j] && v.importing[j] == None
                                 && (v.slots[j].Some? ==> Seen(v, p.hdr, v.slots[j].value) < p.body.epoch)
                              then Some(about) else v.slots[j]
  {
    hide HandleUpdate, BuildHeader;
    SeeEpochsOk(v, p.hdr);
    UpdateEffect(SeeEpochs(v, p.hdr), p.body.about, p.body.epoch, p.body.served, env.allowMigration, j);
  }

  /** An UPDATE that is not news changes nothing but the epochs of the header. */
  lemma OldUpdateIsIgnored(v: View, p: Packet, env: Env)
    requires Ok(v) && Receivable(v, p) && p.hdr.sender in v.nodes && p.body.Update?
    requires p.body.about !in v.nodes || Seen(v, p.hdr, p.body.about) >= p.body.epoch
    ensures Process(v, p, env).0 == SeeEpochs(v, p.hdr)
  {}

  // ----------------------------------------------------------- following a new master

  lemma {:induction false} CountSubset(a: seq<bool>, b: seq<bool>)
    requires |a| == |b| && forall j :: 0 <= j < |a| ==> (a[j] ==> b[j])
    ensures Count(a) <= Count(b) && (Count(a) == Count(b) <==> a == b)
  {
    if a != [] {
      var k := |a| - 1;
      CountSubset(a[..k], b[..k]);
      assert a == a[..k] + [a[k]] && b == b[..k] + [b[k]];
    }
  }

  // The claim takes slot j from the node whose slots this node serves or replicates.
  ghost predicate Loses(v: View, slots: seq<Option<Id>>, s: Id, j: nat)
    requires v.me in v.nodes && j < |v.slots| == |slots|
  {
    v.slots[j] == CurMaster(v) && slots[j] == Some(s)
  }

  // The shard of this node has lost slots to s and has none left; without replica migration, s must
  // also claim nothing else.
  ghost predicate Stripped(v: View, slots: seq<Option<Id>>, s: Id, claimed: seq<bool>, allow: bool)
    requires v.me in v.nodes && |v.slots| == |slots| == |claimed|
  {
    && (exists j :: 0 <= j < |v.slots| && Loses(v, slots, s, j))
    && (forall j :: 0 <= j < |v.slots| ==> slots[j] != CurMaster(v))
    && (allow || forall j :: 0 <= j < |v.slots| && claimed[j] ==> Loses(v, slots, s, j))
  }

  lemma TakenMeans(v: View, s: Id, epoch: nat, claimed: seq<bool>)
    requires Ok(v) && s in v.nodes && s != v.me && |claimed| == |v.slots| && CurMaster(v) != Some(s)
    ensures var v1 := v.(slots := Rebound(v, s, epoch, claimed));
            var taken := Taken(v, s, epoch, claimed, CurMaster(v));
            && |taken| == |v.slots| && (forall j :: 0 <= j < |v.slots| ==> taken[j] == Loses(v, v1.slots, s, j))
            && (forall j :: 0 <= j < |v.slots| && taken[j] ==> claimed[j])
  {}

  lemma FollowsMeans(v: View, s: Id, epoch: nat, claimed: seq<bool>, allow: bool)
    requires Ok(v) && s in v.nodes && s != v.me && |claimed| == |v.slots| && CurMaster(v) != Some(s)
    ensures Follows(v, s, epoch, claimed, allow)
       <==> Stripped(v, Rebound(v, s, epoch, claimed), s, claimed, allow)
  {
    var v1 := v.(slots := Rebound(v, s, epoch, claimed));
    var taken := Taken(v, s, epoch, claimed, CurMaster(v));
    TakenMeans(v, s, epoch, claimed);
    CountZero(taken);
    CountSubset(taken, claimed);
    CountZero(Bitmap(v1.slots, CurMaster(v).value));
    var left := Bitmap(v1.slots, CurMaster(v).value);
    assert forall j :: 0 <= j < |v.slots| ==> left[j] == (v1.slots[j] == CurMaster(v));
    hide Rebound, Taken, Count, Bitmap, OwnersKnown;
    if forall j :: 0 <= j < |v.slots| && claimed[j] ==> Loses(v, v1.slots, s, j) {
      assert taken == claimed;
    }
  }

  /** A node follows the claimant of slots exactly when the claim strips its shard: at least one slot
      of its master (or of itself) goes to the claimant and none is left; unless replicas may migrate
      freely, the claimant must claim no slot besides.  Then it replicates the claimant and, if it was
      a master, has no slot open. */
  lemma FollowsExactly(v: View, s: Id, epoch: nat, claimed: seq<bool>, allow: bool)
    requires Ok(v) && s in v.nodes && s != v.me && |claimed| == |v.slots| && CurMaster(v) != Some(s)
    ensures var v' := UpdateSlots(v, s, epoch, claimed, allow);
            && Keeps(v, v')
            && (if Stripped(v, v'.slots, s, claimed, allow)
                then !v'.nodes[v.me].master && v'.nodes[v.me].slaveof == Some(s)
                     && (v.nodes[v.me].master ==>
                           forall j :: 0 <= j < |v.slots| ==> v'.importing[j] == None && v'.migrating[j] == None)
                else v'.nodes == v.nodes && v'.importing == v.importing && v'.migrating == v.migrating)
  {
    UpdateSlotsOk(v, s, epoch, claimed, allow);
    FollowsMeans(v, s, epoch, claimed, allow);
    hide Follows, Rebound, OwnersKnown, Linked;
  }
}
