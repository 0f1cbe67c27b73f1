/**
The assertion in front of every change of master: a node that becomes a replica, or turns
from one master to another, serves no slot.

A replica normally serves none, but CLUSTER ADDSLOTS does not ask for the role of the node,
so a replica can be given slots.  The assertion then fails at the next change of master.
`AssertionFailsExactly` says when, over every run of the bus.
*/
module MasterChange {
  import opened Options
  import opened ClusterView
  import opened ClusterBus

  // The view in which this step reaches the assertion, if it does.
  ghost function Reaches(b: Bus, a: Action): Option<View>
    requires Enabled(b, a)
  {
    match a
    case Deliver(i, env) => PacketReaches(b.views[b.net[i].to], b.net[i].packet, env)
    case ReplicateOrder(n, m, hasKeys) => ReplicateReaches(b.views[n], m, hasKeys)
    case MoveReplica(n, _) => Some(b.views[n])
    case _ => None
  }

  lemma Reached(b: Bus, a: Action)
    requires Wellformed(b) && Enabled(b, a) && Reaches(b, a).Some?
    ensures Actor(b, a).Some? && ReachedFrom(b.views[Actor(b, a).value], Reaches(b, a))
  {
    hide PacketReaches, ReplicateReaches;
    match a
    case Deliver(i, env) => PacketReached(b.views[b.net[i].to], b.net[i].packet, env);
    case ReplicateOrder(n, m, hasKeys) => ReplicateReached(b.views[n], m, hasKeys);
    case _ =>
  }

  // Node n is a replica, in its own view, and serves slot j.
  ghost predicate ReplicaServes(b: Bus, n: Id, j: nat) {
    n in b.views && b.views[n].me == n && n in b.views[n].nodes && j < |b.views[n].slots| && Holds(b.views[n], j)
  }

  // This step is an ADDSLOTS, accepted by the replica n, whose list holds j.
  ghost predicate Gives(b: Bus, a: Action, n: Id, j: nat) {
    && a.AddSlotsOrder? && a.n == n && n in b.views && n in b.views[n].nodes && !b.views[n].nodes[n].master
    && j in a.js && !ChangeRefused(b.views[n], a.js, false)
  }

  lemma NewViewNoGain(b: Bus, a: Action)
    requires Wellformed(b) && Enabled(b, a) && Actor(b, a).Some? && !a.AddSlotsOrder?
    ensures NoGain(b.views[Actor(b, a).value], NewView(b, a))
  {
    hide Process, SetSlot, MaxEpoch, Serving, SlotServers, OwnersKnown, Forget, Replicate;
    var v := b.views[Actor(b, a).value];
    match a
    case Deliver(i, env) => ProcessNoGain(v, b.net[i].packet, env);
    case SlotOrder(_, slot, cmd, hasKeys) => SetSlotNoGain(v, slot, cmd, hasKeys);
    case ForgetNode(_, gone) => ForgetNoGain(v, gone);
    case ReplicateOrder(_, m, hasKeys) => ReplicateNoGain(v, m, hasKeys);
    case _ =>
  }

  // A step gives a replica a slot exactly when it is an accepted ADDSLOTS.
  lemma GainedByAddSlots(b: Bus, a: Action, n: Id, j: nat)
    requires Wellformed(b) && Enabled(b, a) && n in b.views && j < b.slotCount
    ensures ReplicaServes(Next(b, a), n, j) && !ReplicaServes(b, n, j) <==> Gives(b, a, n, j)
  {
    hide NewView, NewNet, ChangeRefused, Allowed;
    if Actor(b, a) == Some(n) {
      NewViewOk(b, a);
      if a.AddSlotsOrder? {
        assert NewView(b, a) == ChangeSlots(b.views[n], a.js, false) by { AddedView(b, a); }
        ChangeSlotsGain(b.views[n], a.js, false, j);
      } else {
        NewViewNoGain(b, a);
      }
    }
  }

  lemma AddedView(b: Bus, a: Action)
    requires Enabled(b, a) && a.AddSlotsOrder?
    ensures NewView(b, a) == ChangeSlots(b.views[a.n], a.js, false)
  {}

  // This step takes slot j from the replica n, or makes n a master: a packet that does, an
  // accepted DELSLOTS, or a failover won or forced.
  ghost predicate Takes(b: Bus, a: Action, n: Id, j: nat)
    requires Enabled(b, a) && Actor(b, a) == Some(n) ==> j < |b.views[n].slots|
  {
    Enabled(b, a) && Actor(b, a) == Some(n) &&
    match a
    case Deliver(i, _) => PacketTakes(b.views[n], b.net[i].packet, j)
    case DelSlotsOrder(_, js) => j in js && !ChangeRefused(b.views[n], js, true)
    case WinTimer(_, _) => true
    case Manual(_) => true
    case _ => false
  }

  lemma NewViewLoses(b: Bus, a: Action, j: nat)
    requires Wellformed(b) && Enabled(b, a) && Actor(b, a).Some?
    requires j < b.slotCount && Holds(b.views[Actor(b, a).value], j)
    ensures var v' := NewView(b, a);
            v'.me in v'.nodes && j < |v'.slots| && (Holds(v', j) <==> !Takes(b, a, Actor(b, a).value, j))
  {
    hide Process, SetSlot, MaxEpoch, Serving, SlotServers, OwnersKnown, Closed, Replicate, ChangeSlots, PacketTakes, TakeOver;
    NewViewOk(b, a);
    var v := b.views[Actor(b, a).value];
    match a
    case Deliver(i, env) => PacketLoses(v, b.net[i].packet, env, j);
    case SlotOrder(_, slot, cmd, hasKeys) => SetSlotRefusedAtReplica(v, slot, cmd, hasKeys);
    case ForgetNode(_, gone) => ForgetKeepsOwn(v, gone, j);
    case ReplicateOrder(_, m, hasKeys) => ReplicateKeepsSlots(v, m, hasKeys);
    case AddSlotsOrder(_, js) => ChangeSlotsLoses(v, js, false, j);
    case DelSlotsOrder(_, js) => ChangeSlotsLoses(v, js, true, j);
    case WinTimer(_, _) => TakenOver(v);
    case _ =>
  }

  lemma SetSlotRefusedAtReplica(v: View, j: nat, cmd: SlotCommand, hasKeys: bool)
    requires Ok(v) && j < |v.slots| && !v.nodes[v.me].master
    ensures SetSlot(v, j, cmd, hasKeys) == v
  {}

  lemma ForgetKeepsOwn(v: View, gone: Id, j: nat)
    requires Ok(v) && gone != v.me && j < |v.slots| && Holds(v, j)
    ensures var v' := Forget(v, gone); v'.me in v'.nodes && |v'.slots| == |v.slots| && Holds(v', j)
  {}

  lemma ReplicateKeepsSlots(v: View, m: Id, hasKeys: bool)
    requires Ok(v) && !v.nodes[v.me].master
    ensures var v' := Replicate(v, m, hasKeys);
            v'.me == v.me && v'.slots == v.slots && v.me in v'.nodes && !v'.nodes[v.me].master
  {
    hide NumSlots;
  }

  lemma ChangeSlotsLoses(v: View, js: seq<nat>, del: bool, j: nat)
    requires Ok(v) && j < |v.slots| && Holds(v, j)
    ensures var v' := ChangeSlots(v, js, del);
            v'.me in v'.nodes && |v'.slots| == |v.slots|
            && (Holds(v', j) <==> !(del && j in js && !ChangeRefused(v, js, true)))
  {
    hide ChangeRefused;
  }

  lemma TakenOver(v: View)
    requires Ok(v) && !v.nodes[v.me].master
    ensures var v' := TakeOver(v); v'.me in v'.nodes && v'.nodes[v'.me].master
  {}

  /** A step ends a replica's service of a slot exactly when it takes the slot or the role. */
  lemma LostExactly(b: Bus, a: Action, n: Id, j: nat)
    requires Wellformed(b) && Enabled(b, a) && ReplicaServes(b, n, j)
    ensures ReplicaServes(Next(b, a), n, j) <==> !Takes(b, a, n, j)
  {
    hide NewView, NewNet, Allowed, PacketTakes, ChangeRefused;
    if Actor(b, a) == Some(n) {
      NewViewOk(b, a);
      NewViewLoses(b, a, j);
    }
  }

  // Slot j was given to the replica n at step i, and no step before k has taken it, or the role,
  // away.
  ghost predicate GivenAndKept(bs: seq<Bus>, acts: seq<Action>, i: nat, k: nat, n: Id, j: nat) {
    && i < k <= |acts| < |bs| && Gives(bs[i], acts[i], n, j)
    && forall m :: i < m < k ==> !Took(bs[m], acts[m], n, j)
  }

  ghost predicate Took(b: Bus, a: Action, n: Id, j: nat) {
    n in b.views && j < |b.views[n].slots| && Takes(b, a, n, j)
  }

  ghost predicate Given(bs: seq<Bus>, acts: seq<Action>, k: nat, n: Id, j: nat) {
    exists i :: GivenAndKept(bs, acts, i, k, n, j)
  }

  ghost predicate Empties(b: Bus) {
    forall n, j :: !ReplicaServes(b, n, j)
  }

  // One step of a run: served afterwards means served before and not taken, or given now.
  lemma OneStep(bs: seq<Bus>, acts: seq<Action>, k: nat, n: Id, j: nat)
    requires Run(bs, acts) && k < |acts|
    ensures ReplicaServes(bs[k + 1], n, j)
       <==> (ReplicaServes(bs[k], n, j) && !Took(bs[k], acts[k], n, j)) || Gives(bs[k], acts[k], n, j)
  {
    hide Enabled, NewView, NewNet, Epochs, Holds, Ok, Sendable, ChangeRefused;
    EpochsInvariant(bs, acts, k + 1);
    EpochsInvariant(bs, acts, k);
    NoViewsAppear(bs, acts, k + 1);
    NoViewsAppear(bs, acts, k);
    assert Enabled(bs[k], acts[k]) && bs[k + 1] == Next(bs[k], acts[k]);
    if n in bs[k].views && j < bs[k].slotCount {
      GainedByAddSlots(bs[k], acts[k], n, j);
      if ReplicaServes(bs[k], n, j) {
        LostExactly(bs[k], acts[k], n, j);
      }
    } else if Gives(bs[k], acts[k], n, j) {
      GivenInRange(bs[k], acts[k], n, j);
    }
  }

  lemma GivenInRange(b: Bus, a: Action, n: Id, j: nat)
    requires Gives(b, a, n, j)
    ensures n in b.views && j < |b.views[n].slots|
  {
    var i :| 0 <= i < |a.js| && a.js[i] == j;
    assert !(a.js[i] >= |b.views[n].slots| || b.views[n].slots[a.js[i]].Some? != false || a.js[i] in a.js[..i]);
  }

  lemma GivenNone(bs: seq<Bus>, acts: seq<Action>, n: Id, j: nat)
    ensures !Given(bs, acts, 0, n, j)
  {}

  lemma GivenStep(bs: seq<Bus>, acts: seq<Action>, k: nat, n: Id, j: nat)
    requires k < |acts| < |bs|
    ensures Given(bs, acts, k + 1, n, j)
       <==> (Given(bs, acts, k, n, j) && !Took(bs[k], acts[k], n, j)) || Gives(bs[k], acts[k], n, j)
  {
    hide Gives, Took;
    if Given(bs, acts, k + 1, n, j) {
      var i: nat :| GivenAndKept(bs, acts, i, k + 1, n, j);
      if i < k {
        assert GivenAndKept(bs, acts, i, k, n, j);
      }
    }
    if Gives(bs[k], acts[k], n, j) {
      assert GivenAndKept(bs, acts, k, k + 1, n, j);
    } else if Given(bs, acts, k, n, j) && !Took(bs[k], acts[k], n, j) {
      var i: nat :| GivenAndKept(bs, acts, i, k, n, j);
      assert GivenAndKept(bs, acts, i, k + 1, n, j);
    }
  }

  /** A replica serves exactly the slots that ADDSLOTS gave it as a replica and that no step, since
      then, has taken from it or ended by making it a master. */
  lemma {:induction false} ReplicaServesExactly(bs: seq<Bus>, acts: seq<Action>, k: nat, n: Id, j: nat)
    requires Run(bs, acts) && Empties(bs[0]) && k < |bs|
    ensures ReplicaServes(bs[k], n, j) <==> Given(bs, acts, k, n, j)
  {
    hide Run, ReplicaServes, Gives, Took, Given;
    RunLength(bs, acts);
    if k == 0 {
      GivenNone(bs, acts, n, j);
    } else {
      ReplicaServesExactly(bs, acts, k - 1, n, j);
      OneStep(bs, acts, k - 1, n, j);
      GivenStep(bs, acts, k - 1, n, j);
    }
  }

  lemma RunLength(bs: seq<Bus>, acts: seq<Action>)
    requires Run(bs, acts)
    ensures |bs| == |acts| + 1
  {}

  // The assertion fails at a step exactly when the step changes the node's master while the
  // node still serves a slot that ADDSLOTS gave it as a replica.
  lemma AssertionFailsExactly(bs: seq<Bus>, acts: seq<Action>, k: nat)
    requires Run(bs, acts) && Empties(bs[0]) && k < |acts|
    ensures Fails(Reaches(bs[k], acts[k])) <==>
            && Reaches(bs[k], acts[k]).Some?
            && var w := Reaches(bs[k], acts[k]).value;
               exists j :: 0 <= j < |w.slots| && w.slots[j] == Some(w.me) && Given(bs, acts, k, w.me, j)
  {
    hide Reaches, Epochs, Given, Next, NumSlots, Sendable;
    EpochsInvariant(bs, acts, k);
    if Reaches(bs[k], acts[k]).Some? {
      var w := Reaches(bs[k], acts[k]).value;
      Reached(bs[k], acts[k]);
      ServingIsPositive(w, w.me);
      if Fails(Reaches(bs[k], acts[k])) {
        var j :| 0 <= j < |w.slots| && w.slots[j] == Some(w.me);
        assert ReplicaServes(bs[k], w.me, j);
        ReplicaServesExactly(bs, acts, k, w.me, j);
      }
    }
  }

  // Without an ADDSLOTS accepted by a replica, the assertion holds throughout the run.
  lemma AssertionHolds(bs: seq<Bus>, acts: seq<Action>, k: nat)
    requires Run(bs, acts) && Empties(bs[0]) && k < |acts|
    requires forall i, n, j :: 0 <= i < k ==> !Gives(bs[i], acts[i], n, j)
    ensures Empties(bs[k]) && !Fails(Reaches(bs[k], acts[k]))
  {
    hide Reaches, Run, Gives, Fails, ReplicaServes;
    RunLength(bs, acts);
    AssertionFailsExactly(bs, acts, k);
    forall n, j: nat ensures !Given(bs, acts, k, n, j) {}
    forall n, j: nat ensures !ReplicaServes(bs[k], n, j) {
      ReplicaServesExactly(bs, acts, k, n, j);
    }
  }

  // And as soon as a replica serves a slot, a REPLICATE to any master it knows fails the
  // assertion; to a replica serving none it does not.
  lemma ReplicateFailsExactly(b: Bus, n: Id, m: Id, hasKeys: bool)
    requires Wellformed(b) && n in b.views && !b.views[n].nodes[n].master
    requires m in b.views[n].nodes && b.views[n].nodes[m].master
    ensures Enabled(b, ReplicateOrder(n, m, hasKeys))
    ensures Fails(Reaches(b, ReplicateOrder(n, m, hasKeys))) <==> exists j :: ReplicaServes(b, n, j)
  {
    hide NumSlots, Sendable;
    ServingIsPositive(b.views[n], n);
    if Serving(b.views[n], n) {
      var j :| 0 <= j < |b.views[n].slots| && b.views[n].slots[j] == Some(n);
      assert ReplicaServes(b, n, j);
    }
  }

  // ------------------------------------------------------------------- a run that fails it

  // Two slots.  Node 1 serves slot 0, node 2 is its replica, and node 3 has taken slot 0 over
  // under a greater epoch.  Node 1 stays silent.
  function Members(): map<Id, Info> {
    map[1 := Info(true, None, 1, false, 0), 2 := Info(false, Some(1), 0, false, 0), 3 := Info(true, None, 2, false, 0)]
  }

  function Member(n: Id, slots: seq<Option<Id>>): View {
    View(n, Members(), slots, [None, None], [None, None], 2, 0, 0, 0, false, 1)
  }

  // Before and after ADDSLOTS 1 is sent to the replica, and with node 3's PING under way.
  function Before(): Bus {
    Bus(2, map[2 := Member(2, [Some(1), None]), 3 := Member(3, [Some(3), None])], [])
  }

  function After(): Bus {
    Bus(2, map[2 := Member(2, [Some(1), Some(2)]), 3 := Member(3, [Some(3), None])], [])
  }

  function Claim(): Packet {
    Packet(Header(3, None, 2, 2, [true, false]), Ping)
  }

  function UnderWay(): Bus {
    After().(net := [Envelope(2, Claim())])
  }

  lemma Added()
    ensures Enabled(Before(), AddSlotsOrder(2, [1])) && Next(Before(), AddSlotsOrder(2, [1])) == After()
    ensures Gives(Before(), AddSlotsOrder(2, [1]), 2, 1)
  {
    var v := Before().views[2];
    assert !ChangeRefused(v, [1], false);
    assert ChangeSlots(v, [1], false) == Member(2, [Some(1), Some(2)]);
    assert Before().views[2 := Member(2, [Some(1), Some(2)])] == After().views;
  }

  lemma Announced()
    ensures Enabled(After(), Announce(3, 2, Ping)) && Next(After(), Announce(3, 2, Ping)) == UnderWay()
  {
    var v := After().views[3];
    assert Bitmap(v.slots, 3) == [true, false];
    assert BuildHeader(v) == Claim().hdr;
  }

  // On its receipt the replica must follow node 3, and still serves slot 1.
  lemma ClaimFails(env: Env)
    requires env.allowMigration
    ensures Enabled(UnderWay(), Deliver(0, env)) && Fails(Reaches(UnderWay(), Deliver(0, env)))
  {
    var v, h := UnderWay().views[2], Claim().hdr;
    assert SeeEpochs(v, h) == v;
    assert SwitchRole(v, 3, None) == v;
    var w := v.(slots := Rebound(v, 3, 2, h.claimed));
    assert w.slots == [Some(3), Some(2)];
    var taken := Taken(v, 3, 2, h.claimed, Some(1));
    ServingIsPositive(w, 1);
    ServingIsPositive(w, 2);
    CountZero(taken);
    assert w.slots[1] == Some(2) && taken[0];
    assert !Bitmap(v.slots, 3)[0];
    assert Follows(v, 3, 2, h.claimed, env.allowMigration);
  }

  // A run whose last step fails the assertion.
  ghost predicate Crashes(bs: seq<Bus>, acts: seq<Action>) {
    && Run(bs, acts) && Empties(bs[0]) && |acts| > 0 && Fails(Reaches(bs[|acts| - 1], acts[|acts| - 1]))
  }

  lemma MemberOk(n: Id, slots: seq<Option<Id>>)
    requires n in Members() && |slots| == 2 && OwnersKnown(slots, Members())
    ensures Ok(Member(n, slots)) && Bounded(Member(n, slots))
  {
    hide OwnersKnown;
  }

  lemma BeforeIsStart()
    ensures Wellformed(Before()) && Epochs(Before()) && Empties(Before())
  {
    hide Ok, Bounded;
    MemberOk(2, [Some(1), None]);
    MemberOk(3, [Some(3), None]);
  }

  lemma CrashingRun(env: Env)
    requires env.allowMigration
    ensures exists bs, acts :: Crashes(bs, acts) && acts == [AddSlotsOrder(2, [1]), Announce(3, 2, Ping), Deliver(0, env)]
  {
    hide Wellformed, Epochs, Empties, Enabled, Next, Reaches, Fails;
    BeforeIsStart();
    Added();
    Announced();
    ClaimFails(env);
    var bs := [Before(), After(), UnderWay(), Next(UnderWay(), Deliver(0, env))];
    var acts := [AddSlotsOrder(2, [1]), Announce(3, 2, Ping), Deliver(0, env)];
    assert Crashes(bs, acts);
  }
}
