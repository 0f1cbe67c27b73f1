/**
Slot claims are confluent: a node that hears what every master claims ends with the same
slot table, whatever the order and repetition of the packets.

Every claimant has one fixed claim, and no two claims have the same epoch.  A claim is
heard when its claimant's PING or PONG arrives, or an UPDATE about it that is not ignored.
*/
module SlotClaims {
  import opened Options
  import opened ClusterView

  datatype Claim = Claim(epoch: nat, bits: seq<bool>)

  type Claims = map<Id, Claim>

  // A packet from `sender`: an UPDATE about another claimant, or else a PING or PONG.
  datatype Delivery = Delivery(sender: Id, about: Option<Id>, currentEpoch: nat, pong: bool, env: Env)

  function ToPacket(c: Claims, d: Delivery): Packet
    requires d.sender in c && (d.about.Some? ==> d.about.value in c)
  {
    var mine := c[d.sender];
    Packet(Header(d.sender, None, d.currentEpoch, mine.epoch, mine.bits),
           match d.about
           case Some(n) => Update(n, c[n].epoch, c[n].bits)
           case None => if d.pong then Pong else Ping)
  }

  predicate Possible(v: View, c: Claims, d: Delivery) {
    && d.sender in c && d.sender != v.me
    && (d.about.Some? ==> d.about.value in c)
    && |c[d.sender].bits| == |v.slots|
    && (d.about.Some? ==> |c[d.about.value].bits| == |v.slots|)
  }

  ghost function Hear(v: View, c: Claims, d: Delivery): View
    requires Ok(v) && Possible(v, c, d)
  {
    Process(v, ToPacket(c, d), d.env).0
  }

  // The claim this delivery makes the node act on, if any.  An UPDATE is ignored once the
  // node knows the reported epoch, which the header of any packet can teach it.
  function Heard(v: View, c: Claims, d: Delivery): set<Id>
    requires Ok(v) && Possible(v, c, d) && c.Keys <= v.nodes.Keys
  {
    match d.about
    case None => {d.sender}
    case Some(n) => if SeeEpochs(v, ToPacket(c, d).hdr).nodes[n].configEpoch < c[n].epoch then {n} else {}
  }

  // ------------------------------------------------------------------------ the invariant

  ghost predicate Setting(v: View, c: Claims) {
    && Ok(v) && c.Keys <= v.nodes.Keys
    && (forall n :: n in c ==> |c[n].bits| == |v.slots| && v.nodes[n].configEpoch <= c[n].epoch)
    && (forall m, n :: m in c && n in c && m != n ==> c[m].epoch != c[n].epoch)
    && (forall j :: 0 <= j < |v.importing| ==> v.importing[j] == None)
    // this node's own epoch is settled, and nobody else's
    && (v.me in c ==> v.nodes[v.me].configEpoch == c[v.me].epoch)
    && (forall n :: n in c && n != v.me ==> c[n].epoch != v.nodes[v.me].configEpoch)
  }

  // The owner claims its slot, under an epoch no lower than any claim heard.
  ghost predicate Settled(v: View, c: Claims, heard: set<Id>, j: nat)
    requires j < |v.slots| && Setting(v, c) && heard <= c.Keys
  {
    match v.slots[j]
    case None => forall n :: n in heard ==> !c[n].bits[j]
    case Some(o) => o in c && c[o].bits[j]
                    && forall n :: n in heard && c[n].bits[j] ==> c[n].epoch <= v.nodes[o].configEpoch
  }

  ghost predicate Inv(v: View, c: Claims, heard: set<Id>) {
    && Setting(v, c) && heard <= c.Keys
    && forall j :: 0 <= j < |v.slots| ==> Settled(v, c, heard, j)
  }

  // ---------------------------------------------------------------------- what a packet does

  // Seeing an epoch never unsettles a slot.
  lemma SeeKeeps(v: View, c: Claims, heard: set<Id>, s: Id, cur: nat)
    requires Inv(v, c, heard) && s in c && s != v.me
    ensures Inv(SeeEpochs(v, Header(s, None, cur, c[s].epoch, c[s].bits)), c, heard)
    ensures SeeEpochs(v, Header(s, None, cur, c[s].epoch, c[s].bits)).nodes[s].configEpoch == c[s].epoch
  {
    var v' := SeeEpochs(v, Header(s, None, cur, c[s].epoch, c[s].bits));
    SeeEpochsOk(v, Header(s, None, cur, c[s].epoch, c[s].bits));
    hide Ok;
    forall j | 0 <= j < |v'.slots| ensures Settled(v', c, heard, j) {
      assert Settled(v, c, heard, j);
    }
  }

  // Roles do not matter.
  lemma RolesKeep(v: View, v': View, c: Claims, heard: set<Id>)
    requires Inv(v, c, heard) && Ok(v') && SameEpochs(v, v') && v'.me == v.me
    requires v'.slots == v.slots && |v'.importing| == |v.importing|
    requires forall j :: 0 <= j < |v'.importing| ==> v'.importing[j] == None
    ensures Inv(v', c, heard)
  {
    hide OwnersKnown;
    forall j | 0 <= j < |v'.slots| ensures Settled(v', c, heard, j) {
      assert Settled(v, c, heard, j);
    }
  }

  // A claim made under an epoch the node has recorded settles its slots.
  lemma ReboundKeeps(v: View, c: Claims, heard: set<Id>, s: Id)
    requires Inv(v, c, heard) && s in c && v.nodes[s].configEpoch == c[s].epoch
    ensures Inv(v.(slots := Rebound(v, s, c[s].epoch, c[s].bits)), c, heard + {s})
  {
    var v' := v.(slots := Rebound(v, s, c[s].epoch, c[s].bits));
    assert Ok(v');
    forall j | 0 <= j < |v'.slots| ensures Settled(v', c, heard + {s}, j) {
      assert Settled(v, c, heard, j);
    }
  }

  lemma UpdateKeeps(v: View, c: Claims, heard: set<Id>, s: Id, allow: bool)
    requires Inv(v, c, heard) && s in c && s != v.me && v.nodes[s].configEpoch == c[s].epoch
    ensures Inv(UpdateSlots(v, s, c[s].epoch, c[s].bits, allow), c, heard + {s})
  {
    hide Rebound, Taken, NumSlots, Inv;
    assert Setting(v, c) by { InvSetting(v, c, heard); }
    ReboundKeeps(v, c, heard, s);
    var v1 := v.(slots := Rebound(v, s, c[s].epoch, c[s].bits));
    var v2 := UpdateSlots(v, s, c[s].epoch, c[s].bits, allow);
    UpdateSlotsOk(v, s, c[s].epoch, c[s].bits, allow);
    UpdateSlotsEpochs(v, s, c[s].epoch, c[s].bits, allow);
    RolesKeep(v1, v2, c, heard + {s});
  }

  lemma InvSetting(v: View, c: Claims, heard: set<Id>)
    requires Inv(v, c, heard)
    ensures Setting(v, c) && heard <= c.Keys
  {}

  // A bitmap that matches the node's view already settles its slots.
  lemma CleanKeeps(v: View, c: Claims, heard: set<Id>, s: Id)
    requires Inv(v, c, heard) && s in c && v.nodes[s].configEpoch == c[s].epoch
    requires Bitmap(v.slots, s) == c[s].bits
    ensures Inv(v, c, heard + {s})
  {
    forall j | 0 <= j < |v.slots| ensures Settled(v, c, heard + {s}, j) {
      assert Settled(v, c, heard, j);
      assert Bitmap(v.slots, s)[j] == c[s].bits[j];
    }
  }

  lemma PingKeeps(v: View, c: Claims, heard: set<Id>, h: Header, allow: bool)
    requires Inv(v, c, heard) && h.sender in c && h.sender != v.me && h.slaveof == None
    requires h.configEpoch == c[h.sender].epoch == v.nodes[h.sender].configEpoch && h.claimed == c[h.sender].bits
    ensures Inv(HandlePing(v, h, allow).0, c, heard + {h.sender})
  {
    hide Inv, UpdateSlots, Bitmap, Correction;
    var s := h.sender;
    InvSetting(v, c, heard);
    var v1 := SwitchRole(v, s, None);
    SwitchRoleOk(v, s, None);
    SwitchRoleEpochs(v, s, None);
    RolesKeep(v, v1, c, heard);
    if Dirty(v1, h) {
      UpdateKeeps(v1, c, heard, s, allow);
    } else {
      CleanKeeps(v1, c, heard, s);
    }
    var v2 := Reconfigure(v, h, allow);
    InvSetting(v2, c, heard + {s});
    ReconfigureOk(v, h, allow);
    ReconfigureEpochs(v, h, allow);
    assert Collide(v2, h) == v2;
  }

  lemma ReportKeeps(v: View, c: Claims, heard: set<Id>, n: Id, allow: bool)
    requires Inv(v, c, heard) && n in c
    ensures Inv(HandleUpdate(v, n, c[n].epoch, c[n].bits, allow), c,
                if v.nodes[n].configEpoch < c[n].epoch then heard + {n} else heard)
  {
    hide UpdateSlots;
    if v.nodes[n].configEpoch < c[n].epoch {
      var v1 := WithEpoch(if v.nodes[n].master then v else SetNodeAsMaster(v, n), n, c[n].epoch);
      assert Ok(v1);
      forall j | 0 <= j < |v1.slots| ensures Settled(v1, c, heard, j) {
        assert Settled(v, c, heard, j);
      }
      UpdateKeeps(v1, c, heard, n, allow);
    }
  }

  lemma HearKeeps(v: View, c: Claims, heard: set<Id>, d: Delivery)
    requires Inv(v, c, heard) && Possible(v, c, d)
    ensures Inv(Hear(v, c, d), c, heard + Heard(v, c, d))
  {
    hide Inv, HandlePing, HandleUpdate, SeeEpochs;
    var p := ToPacket(c, d);
    InvSetting(v, c, heard);
    SeeKeeps(v, c, heard, d.sender, d.currentEpoch);
    SeeEpochsOk(v, p.hdr);
    var v1 := SeeEpochs(v, p.hdr);
    InvSetting(v1, c, heard);
    match d.about
    case None =>
      PingKeeps(v1, c, heard, p.hdr, d.env.allowMigration);
    case Some(n) =>
      ReportKeeps(v1, c, heard, n, d.env.allowMigration);
      assert heard + {} == heard;
  }

  // --------------------------------------------------------------------------- whole runs

  ghost predicate Run(c: Claims, vs: seq<View>, ds: seq<Delivery>) {
    && |vs| == |ds| + 1
    && forall i :: 0 <= i < |ds| ==> Ok(vs[i]) && Possible(vs[i], c, ds[i]) && c.Keys <= vs[i].nodes.Keys
                                     && vs[i + 1] == Hear(vs[i], c, ds[i])
  }

  // The claims acted on in the first k steps.
  ghost function AllHeard(c: Claims, vs: seq<View>, ds: seq<Delivery>, k: nat): set<Id>
    requires Run(c, vs, ds) && k <= |ds|
  {
    if k == 0 then {} else AllHeard(c, vs, ds, k - 1) + Heard(vs[k - 1], c, ds[k - 1])
  }

  lemma {:induction false} RunInv(c: Claims, vs: seq<View>, ds: seq<Delivery>, k: nat, before: set<Id>)
    requires Run(c, vs, ds) && k <= |ds| && Inv(vs[0], c, before)
    ensures Inv(vs[k], c, before + AllHeard(c, vs, ds, k))
  {
    hide Inv, Hear, Heard, Possible;
    if k == 0 {
      assert before + {} == before;
    } else {
      RunInv(c, vs, ds, k - 1, before);
      HearKeeps(vs[k - 1], c, before + AllHeard(c, vs, ds, k - 1), ds[k - 1]);
      assert before + AllHeard(c, vs, ds, k)
          == before + AllHeard(c, vs, ds, k - 1) + Heard(vs[k - 1], c, ds[k - 1]);
    }
  }

  // n claims slot j under the greatest epoch.
  ghost predicate Greatest(c: Claims, j: nat, n: Id) {
    n in c && j < |c[n].bits| && c[n].bits[j]
    && forall m :: m in c && j < |c[m].bits| && c[m].bits[j] ==> c[m].epoch <= c[n].epoch
  }

  // Once the greatest claim to a slot has been heard, its claimant owns the slot, for good.
  lemma GreatestClaimWins(c: Claims, vs: seq<View>, ds: seq<Delivery>, k: nat, j: nat, n: Id)
    requires Run(c, vs, ds) && k <= |ds| && Inv(vs[0], c, {})
    requires j < |vs[k].slots| && Greatest(c, j, n) && n in AllHeard(c, vs, ds, k)
    ensures vs[k].slots[j] == Some(n)
  {
    RunInv(c, vs, ds, k, {});
    assert Settled(vs[k], c, {} + AllHeard(c, vs, ds, k), j);
  }

  // A run in which every claim is heard.
  lemma AllClaimsHeard(c: Claims, vs: seq<View>, ds: seq<Delivery>)
    requires Run(c, vs, ds) && Inv(vs[0], c, {}) && AllHeard(c, vs, ds, |ds|) == c.Keys
    ensures Inv(vs[|ds|], c, c.Keys) && |vs[|ds|].slots| == |vs[0].slots|
  {
    hide Inv, AllHeard, Hear, Possible;
    assert {} + c.Keys == c.Keys;
    RunInv(c, vs, ds, |ds|, {});
    SameLength(c, vs, ds, |ds|);
  }

  // Confluence: any two runs in which every claim is heard end with the same slot table.
  lemma Confluence(c: Claims, vs: seq<View>, ds: seq<Delivery>, ws: seq<View>, es: seq<Delivery>)
    requires Run(c, vs, ds) && Run(c, ws, es) && vs[0] == ws[0] && Inv(vs[0], c, {})
    requires AllHeard(c, vs, ds, |ds|) == c.Keys == AllHeard(c, ws, es, |es|)
    ensures vs[|ds|].slots == ws[|es|].slots
  {
    hide Inv, AllHeard, Hear, Possible;
    AllClaimsHeard(c, vs, ds);
    AllClaimsHeard(c, ws, es);
    SlotsAgree(c, vs[|ds|], ws[|es|]);
  }

  lemma SlotsAgree(c: Claims, v: View, w: View)
    requires Inv(v, c, c.Keys) && Inv(w, c, c.Keys) && |v.slots| == |w.slots|
    ensures v.slots == w.slots
  {
    forall j | 0 <= j < |v.slots| ensures v.slots[j] == w.slots[j] {
      assert Settled(v, c, c.Keys, j) && Settled(w, c, c.Keys, j);
      if v.slots[j].Some? && w.slots[j].Some? {
        var m, n := v.slots[j].value, w.slots[j].value;
        assert c[m].epoch <= c[n].epoch <= c[m].epoch;
      }
    }
  }

  lemma {:induction false} SameLength(c: Claims, vs: seq<View>, ds: seq<Delivery>, k: nat)
    requires Run(c, vs, ds) && k <= |ds|
    ensures |vs[k].slots| == |vs[0].slots|
  {
    hide Process;
    if k > 0 {
      SameLength(c, vs, ds, k - 1);
      ProcessOk(vs[k - 1], ToPacket(c, ds[k - 1]), ds[k - 1].env);
    }
  }

  // ---------------------------------------------------------------------------- exactly when

  lemma ClaimSource(v: View, s: Id, epoch: nat, claimed: seq<bool>, allow: bool, j: nat)
    requires Ok(v) && s in v.nodes && |claimed| == |v.slots| && j < |v.slots|
    ensures var v' := UpdateSlots(v, s, epoch, claimed, allow);
            |v'.slots| == |v.slots| && (v'.slots[j] == v.slots[j] || v'.slots[j] == Some(s))
  {
    hide Taken, NumSlots, Bitmap;
  }

  lemma PingSource(v: View, h: Header, allow: bool, j: nat)
    requires Ok(v) && h.sender in v.nodes && h.sender != v.me && h.slaveof == None
    requires |h.claimed| == |v.slots| && j < |v.slots|
    ensures var v' := HandlePing(v, h, allow).0;
            |v'.slots| == |v.slots| && (v'.slots[j] == v.slots[j] || v'.slots[j] == Some(h.sender))
    ensures var v' := HandlePing(v, h, allow).0;
            forall n :: n in v.nodes && n != v.me ==> n in v'.nodes && v'.nodes[n].configEpoch == v.nodes[n].configEpoch
  {
    hide UpdateSlots, Correction, Dirty;
    SwitchRoleOk(v, h.sender, None);
    ReconfigureOk(v, h, allow);
    ReconfigureEpochs(v, h, allow);
    ClaimSource(SwitchRole(v, h.sender, None), h.sender, h.configEpoch, h.claimed, allow, j);
  }

  lemma ReportSource(v: View, n: Id, epoch: nat, served: seq<bool>, allow: bool, j: nat)
    requires Ok(v) && |served| == |v.slots| && j < |v.slots| && n in v.nodes
    ensures var v' := HandleUpdate(v, n, epoch, served, allow);
            && |v'.slots| == |v.slots|
            && (v'.slots[j] == v.slots[j] || (v.nodes[n].configEpoch < epoch && v'.slots[j] == Some(n)))
            && forall k :: k in v.nodes ==> k in v'.nodes && v'.nodes[k].configEpoch >= v.nodes[k].configEpoch
  {
    hide UpdateSlots;
    if v.nodes[n].configEpoch < epoch {
      var v1 := WithEpoch(if v.nodes[n].master then v else SetNodeAsMaster(v, n), n, epoch);
      ClaimSource(v1, n, epoch, served, allow, j);
      UpdateSlotsEpochs(v1, n, epoch, served, allow);
    }
  }

  // A slot changes hands only to a claimant that is being heard.
  lemma HearSource(v: View, c: Claims, d: Delivery, j: nat)
    requires Setting(v, c) && Possible(v, c, d) && j < |v.slots|
    ensures |Hear(v, c, d).slots| == |v.slots|
    ensures Hear(v, c, d).slots[j] == v.slots[j] || exists n :: n in Heard(v, c, d) && Hear(v, c, d).slots[j] == Some(n)
  {
    hide HandlePing, HandleUpdate, BuildHeader;
    var p := ToPacket(c, d);
    var v1 := SeeEpochs(v, p.hdr);
    SeeEpochsOk(v, p.hdr);
    match d.about
    case None =>
      PingSource(v1, p.hdr, d.env.allowMigration, j);
      assert d.sender in Heard(v, c, d);
    case Some(n) =>
      ReportSource(v1, n, c[n].epoch, c[n].bits, d.env.allowMigration, j);
      if v1.nodes[n].configEpoch < c[n].epoch {
        assert n in Heard(v, c, d);
      }
  }

  lemma {:induction false} OwnersWereHeard(c: Claims, vs: seq<View>, ds: seq<Delivery>, k: nat, j: nat)
    requires Run(c, vs, ds) && k <= |ds| && Inv(vs[0], c, {}) && j < |vs[0].slots|
    requires vs[0].slots[j] == None
    ensures |vs[k].slots| == |vs[0].slots|
    ensures vs[k].slots[j].Some? ==> vs[k].slots[j].value in AllHeard(c, vs, ds, k)
  {
    hide Inv, Hear, Heard, Possible;
    if k > 0 {
      OwnersWereHeard(c, vs, ds, k - 1, j);
      RunInv(c, vs, ds, k - 1, {});
      InvSetting(vs[k - 1], c, {} + AllHeard(c, vs, ds, k - 1));
      HearSource(vs[k - 1], c, ds[k - 1], j);
    }
  }

  // From an unassigned slot: the greatest claimant owns it if and only if its claim was heard.
  lemma OwnedIffHeard(c: Claims, vs: seq<View>, ds: seq<Delivery>, j: nat, n: Id)
    requires Run(c, vs, ds) && Inv(vs[0], c, {}) && j < |vs[0].slots| && vs[0].slots[j] == None && Greatest(c, j, n)
    ensures |vs[|ds|].slots| == |vs[0].slots|
    ensures vs[|ds|].slots[j] == Some(n) <==> n in AllHeard(c, vs, ds, |ds|)
  {
    OwnersWereHeard(c, vs, ds, |ds|, j);
    if n in AllHeard(c, vs, ds, |ds|) {
      GreatestClaimWins(c, vs, ds, |ds|, j, n);
    }
  }

  // Any packet from s teaches the node s's epoch; an UPDATE about s is ignored from then on.
  lemma HeaderSilencesReports(v: View, c: Claims, d: Delivery, e: Delivery)
    requires Setting(v, c) && Possible(v, c, d) && e.about == Some(d.sender)
    requires Ok(Hear(v, c, d)) && Possible(Hear(v, c, d), c, e) && c.Keys <= Hear(v, c, d).nodes.Keys
    requires |v.slots| > 0
    ensures Heard(Hear(v, c, d), c, e) == {}
  {
    hide HandlePing, HandleUpdate, BuildHeader, Ok;
    var p := ToPacket(c, d);
    var v1 := SeeEpochs(v, p.hdr);
    SeeEpochsOk(v, p.hdr);
    match d.about
    case None => PingSource(v1, p.hdr, d.env.allowMigration, 0);
    case Some(n) => ReportSource(v1, n, c[n].epoch, c[n].bits, d.env.allowMigration, 0);
  }

  // So hearing a report about every claimant is not enough.  Node 1 claims slot 0; it reports
  // the claim of node 2, node 2 reports the claim of node 1, and slot 0 stays unassigned.
  const FIRST := Info(true, None, 0, false, 0)
  const UNHEARD: View := View(0, map[0 := FIRST, 1 := FIRST, 2 := FIRST], [None], [None], [None], 0, 0, 0, 0, false, 1)
  const TWO: Claims := map[1 := Claim(1, [true]), 2 := Claim(2, [false])]
  const CALM := Env(0, 0, true, false, false, true)

  lemma UnheardFacts()
    ensures Inv(UNHEARD, TWO, {}) && Ok(UNHEARD) && TWO.Keys <= UNHEARD.nodes.Keys && Greatest(TWO, 0, 1)
    ensures Possible(UNHEARD, TWO, Delivery(1, Some(2), 2, false, CALM))
  {
    assert Settled(UNHEARD, TWO, {}, 0);
  }

  // Two deliveries that hear nothing of node 1 leave it without its slot.
  lemma TwoDeliveries(v: View, c: Claims, d: Delivery, e: Delivery, n: Id)
    requires Inv(v, c, {}) && |v.slots| > 0 && v.slots[0] == None && Greatest(c, 0, n)
    requires Ok(v) && Possible(v, c, d) && c.Keys <= v.nodes.Keys && n !in Heard(v, c, d)
    requires var v1 := Hear(v, c, d); Ok(v1) && Possible(v1, c, e) && c.Keys <= v1.nodes.Keys && n !in Heard(v1, c, e)
    ensures var v2 := Hear(Hear(v, c, d), c, e); |v2.slots| == |v.slots| && v2.slots[0] != Some(n)
  {
    hide Hear, Heard, Inv, Ok, Possible, Greatest;
    var v1 := Hear(v, c, d);
    var vs, ds := [v, v1, Hear(v1, c, e)], [d, e];
    assert Run(c, vs, ds);
    assert AllHeard(c, vs, ds, 2) == AllHeard(c, vs, ds, 1) + Heard(v1, c, e);
    assert AllHeard(c, vs, ds, 1) == AllHeard(c, vs, ds, 0) + Heard(v, c, d);
    OwnedIffHeard(c, vs, ds, 0, n);
  }

  lemma ReportsDoNotSuffice()
    ensures var d, e := Delivery(1, Some(2), 2, false, CALM), Delivery(2, Some(1), 2, false, CALM);
            Inv(UNHEARD, TWO, {}) && Possible(UNHEARD, TWO, d) &&
            var v1 := Hear(UNHEARD, TWO, d);
            Ok(v1) && Possible(v1, TWO, e) && TWO.Keys <= v1.nodes.Keys &&
            var v2 := Hear(v1, TWO, e);
            |v2.slots| == 1 && v2.slots[0] != Some(1) && Greatest(TWO, 0, 1)
  {
    hide Hear, Heard, Inv, Ok, Greatest;
    var d, e := Delivery(1, Some(2), 2, false, CALM), Delivery(2, Some(1), 2, false, CALM);
    UnheardFacts();
    HearIsOk(UNHEARD, TWO, d);
    InvSetting(UNHEARD, TWO, {});
    HeaderSilencesReports(UNHEARD, TWO, d, e);
    ReportOfOther(UNHEARD, TWO, d);
    TwoDeliveries(UNHEARD, TWO, d, e, 1);
  }

  lemma ReportOfOther(v: View, c: Claims, d: Delivery)
    requires Ok(v) && Possible(v, c, d) && c.Keys <= v.nodes.Keys && d.about.Some?
    ensures Heard(v, c, d) <= {d.about.value}
  {}

  lemma HearIsOk(v: View, c: Claims, d: Delivery)
    requires Ok(v) && Possible(v, c, d)
    ensures Keeps(v, Hear(v, c, d))
  {
    ProcessOk(v, ToPacket(c, d), d.env);
  }
}
