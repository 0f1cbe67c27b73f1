/**
One cluster node's view of the cluster, and what each packet, timer and command does to it.

The view holds no redundancy: a node's slot bitmap, its slot count and its replica list
are computed from the slot table and from the `slaveof` links.  `ClusterState` keeps the
redundant tables of the program and refines the functions of this module.
*/
module ClusterView {
  import opened Options

  type Id = nat  // a node name; names are compared byte by byte, which is a total order

  datatype Info = Info(
    master: bool,          // flagged as a master, not as a replica
    slaveof: Option<Id>,
    configEpoch: nat,
    failed: bool,          // flagged FAIL
    votedTime: int         // when this node last voted for one of its replicas
  )

  datatype View = View(
    me: Id,
    nodes: map<Id, Info>,
    slots: seq<Option<Id>>,
    importing: seq<Option<Id>>,
    migrating: seq<Option<Id>>,
    currentEpoch: nat,
    lastVoteEpoch: nat,
    authEpoch: nat,
    authCount: nat,
    authSent: bool,
    size: nat
  )

  predicate Linked(nodes: map<Id, Info>, me: Id) {
    && me in nodes
    && (nodes[me].master || nodes[me].slaveof.Some?)
    && forall n :: n in nodes ==>
         && (nodes[n].master ==> nodes[n].slaveof == None)
         && (nodes[n].slaveof.Some? ==> nodes[n].slaveof.value in nodes && nodes[n].slaveof.value != n)
  }

  predicate OwnersKnown(slots: seq<Option<Id>>, nodes: map<Id, Info>) {
    forall j :: 0 <= j < |slots| && slots[j].Some? ==> slots[j].value in nodes
  }

  // What every view satisfies.
  predicate Ok(v: View) {
    && Linked(v.nodes, v.me)
    && OwnersKnown(v.slots, v.nodes)
    && |v.importing| == |v.slots| == |v.migrating|
  }

  // A step that keeps the view well formed, over the same nodes and slots.
  predicate Keeps(v: View, v': View) {
    Ok(v') && v'.nodes.Keys == v.nodes.Keys && v'.me == v.me && |v'.slots| == |v.slots|
  }

  // ------------------------------------------------------------------------- slots

  function Bitmap(slots: seq<Option<Id>>, n: Id): seq<bool> {
    seq(|slots|, j requires 0 <= j < |slots| => slots[j] == Some(n))
  }

  function Count(bits: seq<bool>): nat {
    if bits == [] then 0 else Count(bits[..|bits| - 1]) + (if bits[|bits| - 1] then 1 else 0)
  }

  function NumSlots(v: View, n: Id): nat {
    Count(Bitmap(v.slots, n))
  }

  // Serves at least one slot.
  predicate Serving(v: View, n: Id) {
    exists j :: 0 <= j < |v.slots| && v.slots[j] == Some(n)
  }

  lemma {:induction false} CountZero(bits: seq<bool>)
    ensures (Count(bits) == 0) == (forall j :: 0 <= j < |bits| ==> !bits[j])
  {
    if bits != [] {
      var t := bits[..|bits| - 1];
      CountZero(t);
      assert forall j :: 0 <= j < |t| ==> t[j] == bits[j];
      assert bits == t + [bits[|bits| - 1]];
    }
  }

  lemma ServingIsPositive(v: View, n: Id)
    ensures Serving(v, n) == (NumSlots(v, n) > 0)
  {
    var bits := Bitmap(v.slots, n);
    CountZero(bits);
    if Serving(v, n) {
      var j :| 0 <= j < |v.slots| && v.slots[j] == Some(n);
      assert bits[j];
    }
  }

  function ReleaseSlots(v: View, n: Id): View {
    v.(slots := Closed(v.slots, n))
  }

  // The table without n.
  function Closed(slots: seq<Option<Id>>, n: Id): seq<Option<Id>> {
    seq(|slots|, j requires 0 <= j < |slots| => if slots[j] == Some(n) then None else slots[j])
  }

  // Would slot j be rebound to a node claiming it under `epoch`?
  predicate Rebinds(v: View, s: Id, epoch: nat, j: nat)
    requires j < |v.slots| == |v.importing| && OwnersKnown(v.slots, v.nodes)
  {
    && v.slots[j] != Some(s)
    && v.importing[j] == None
    && (v.slots[j] == None || v.nodes[v.slots[j].value].configEpoch < epoch)
  }

  function Rebound(v: View, s: Id, epoch: nat, claimed: seq<bool>): (r: seq<Option<Id>>)
    requires |claimed| == |v.slots| == |v.importing| && OwnersKnown(v.slots, v.nodes)
    ensures |r| == |v.slots|
  {
    seq(|v.slots|, j requires 0 <= j < |v.slots| =>
      if claimed[j] && Rebinds(v, s, epoch, j) then Some(s) else v.slots[j])
  }

  // The slots a claim takes away from `loser`.
  function Taken(v: View, s: Id, epoch: nat, claimed: seq<bool>, loser: Option<Id>): seq<bool>
    requires |claimed| == |v.slots| == |v.importing| && OwnersKnown(v.slots, v.nodes)
  {
    seq(|v.slots|, j requires 0 <= j < |v.slots| =>
      claimed[j] && Rebinds(v, s, epoch, j) && v.slots[j] == loser)
  }

  // The node whose slots this node serves or replicates.
  function CurMaster(v: View): Option<Id>
    requires v.me in v.nodes
  {
    if v.nodes[v.me].master then Some(v.me) else v.nodes[v.me].slaveof
  }

  // Does a claim strip this node's shard of its last slot, so that the node must follow the
  // claimant?
  predicate Follows(v: View, s: Id, epoch: nat, claimed: seq<bool>, allowMigration: bool)
    requires Ok(v) && |claimed| == |v.slots|
  {
    var cur := CurMaster(v);
    var taken := Taken(v, s, epoch, claimed, cur);
    var v1 := v.(slots := Rebound(v, s, epoch, claimed));
    s != v.me && Count(taken) > 0 && NumSlots(v1, cur.value) == 0
    && (allowMigration || Count(claimed) == Count(taken))
  }

  // A configuration received through a PING, PONG or UPDATE.
  function UpdateSlots(v: View, s: Id, epoch: nat, claimed: seq<bool>, allowMigration: bool): View
    requires Ok(v) && s in v.nodes && |claimed| == |v.slots|
  {
    if s == v.me then v
    else
      var v1 := v.(slots := Rebound(v, s, epoch, claimed));
      if Follows(v, s, epoch, claimed, allowMigration) then SetMaster(v1, s) else v1
  }

  // ------------------------------------------------------------------------- roles

  function SetNodeAsMaster(v: View, n: Id): View
    requires n in v.nodes
  {
    v.(nodes := v.nodes[n := v.nodes[n].(master := true, slaveof := None)])
  }

  function AllClosed(n: nat): (s: seq<Option<Id>>)
    ensures |s| == n && forall j :: 0 <= j < n ==> s[j] == None
  {
    seq(n, j => None)
  }

  // Become a replica of n.  A master closes its open slots.
  function SetMaster(v: View, n: Id): View
    requires v.me in v.nodes
  {
    var v1 := v.(nodes := v.nodes[v.me := v.nodes[v.me].(master := false, slaveof := Some(n))]);
    if v.nodes[v.me].master
    then v1.(importing := AllClosed(|v.importing|), migrating := AllClosed(|v.migrating|))
    else v1
  }

  function ReplaceYourMaster(v: View): View
    requires v.me in v.nodes
  {
    var me := v.nodes[v.me];
    if me.master || me.slaveof == None then v
    else
      SetNodeAsMaster(v, v.me).(slots := Inherited(v.slots, me.slaveof.value, v.me))
  }

  // Every slot of `from` passes to `heir`.
  function Inherited(slots: seq<Option<Id>>, from: Id, heir: Id): (r: seq<Option<Id>>)
    ensures |r| == |slots|
  {
    seq(|slots|, j requires 0 <= j < |slots| => if slots[j] == Some(from) then Some(heir) else slots[j])
  }

  function Without(nodes: map<Id, Info>, n: Id): map<Id, Info> {
    map k | k in nodes && k != n ::
      if nodes[k].slaveof == Some(n) then nodes[k].(slaveof := None) else nodes[k]
  }

  // Remove a node: its slots become unassigned and its replicas masterless.
  function Forget(v: View, n: Id): View {
    v.(
      nodes := Without(v.nodes, n),
      slots := Closed(v.slots, n),
      importing := Closed(v.importing, n),
      migrating := Closed(v.migrating, n))
  }

  // ------------------------------------------------------------------------ packets

  datatype Header = Header(sender: Id, slaveof: Option<Id>, currentEpoch: nat, configEpoch: nat, claimed: seq<bool>)

  datatype Body =
    | Ping
    | Pong
    | Update(about: Id, epoch: nat, served: seq<bool>)
    | Fail(failing: Id)
    | AuthRequest(force: bool)
    | AuthAck

  datatype Packet = Packet(hdr: Header, body: Body)

  // A packet this node could receive: no node sends to itself or replicates itself.
  predicate Receivable(v: View, p: Packet) {
    && p.hdr.sender != v.me
    && p.hdr.slaveof != Some(p.hdr.sender)
    && |p.hdr.claimed| == |v.slots|
    && (p.body.Update? ==> |p.body.served| == |v.slots|)
  }

  // A replica speaks for its master.
  function Speaker(v: View): Id
    requires Ok(v)
  {
    if v.nodes[v.me].slaveof.Some? then v.nodes[v.me].slaveof.value else v.me
  }

  function BuildHeader(v: View): Header
    requires Ok(v)
  {
    Header(v.me, v.nodes[v.me].slaveof, v.currentEpoch, v.nodes[Speaker(v)].configEpoch, Bitmap(v.slots, Speaker(v)))
  }

  function Max(a: nat, b: nat): nat {
    if a < b then b else a
  }

  function WithEpoch(v: View, n: Id, epoch: nat): View
    requires n in v.nodes
  {
    v.(nodes := v.nodes[n := v.nodes[n].(configEpoch := epoch)])
  }

  // Every packet from a known node carries epochs.
  function SeeEpochs(v: View, h: Header): View
    requires h.sender in v.nodes
  {
    WithEpoch(v, h.sender, Max(v.nodes[h.sender].configEpoch, h.configEpoch))
      .(currentEpoch := Max(v.currentEpoch, h.currentEpoch))
  }

  // A master that turned replica loses its slots.
  function Unmastered(v: View, s: Id): View
    requires s in v.nodes
  {
    if v.nodes[s].master
    then ReleaseSlots(v, s).(nodes := v.nodes[s := v.nodes[s].(master := false)])
    else v
  }

  function SwitchRole(v: View, s: Id, slaveof: Option<Id>): View
    requires s in v.nodes
  {
    if slaveof == None then
      (if v.nodes[s].master then v else SetNodeAsMaster(v, s))
    else
      var v1 := Unmastered(v, s);
      if slaveof.value in v1.nodes && v1.nodes[s].slaveof != slaveof
      then v1.(nodes := v1.nodes[s := v1.nodes[s].(slaveof := slaveof)])
      else v1
  }

  function HandleCollision(v: View, s: Id): View
    requires v.me in v.nodes && s in v.nodes
  {
    var me, other := v.nodes[v.me], v.nodes[s];
    if other.configEpoch != me.configEpoch || !other.master || !me.master || s <= v.me then v
    else WithEpoch(v, v.me, v.currentEpoch + 1).(currentEpoch := v.currentEpoch + 1)
  }

  // Does slot j show that the sender's configuration is out of date?
  predicate Outdated(v: View, h: Header, j: nat)
    requires Ok(v) && j < |v.slots| == |h.claimed|
  {
    h.claimed[j] && v.slots[j].Some? && v.slots[j].value != h.sender
    && v.nodes[v.slots[j].value].configEpoch > h.configEpoch
  }

  // The UPDATE about the owner of the first such slot from j on.
  function Correction(v: View, h: Header, j: nat): seq<Packet>
    requires Ok(v) && j <= |v.slots| == |h.claimed|
    decreases |v.slots| - j
  {
    if j == |v.slots| then []
    else if Outdated(v, h, j) then
      var owner := v.slots[j].value;
      [Packet(BuildHeader(v), Update(owner, v.nodes[owner].configEpoch, Bitmap(v.slots, owner)))]
    else Correction(v, h, j + 1)
  }

  // Whose slots the sender's bitmap describes.
  function Claimant(v: View, s: Id): Option<Id>
    requires s in v.nodes
  {
    if v.nodes[s].master then Some(s) else v.nodes[s].slaveof
  }

  predicate Dirty(v: View, h: Header)
    requires h.sender in v.nodes
  {
    var c := Claimant(v, h.sender);
    c.Some? && Bitmap(v.slots, c.value) != h.claimed
  }

  // PING and PONG from a known node, after the epochs: role and slots, then collision.
  function Reconfigure(v: View, h: Header, allowMigration: bool): View
    requires Ok(v) && h.sender in v.nodes && h.sender != v.me && h.slaveof != Some(h.sender)
    requires |h.claimed| == |v.slots|
  {
    var v1 := SwitchRole(v, h.sender, h.slaveof);
    SwitchRoleOk(v, h.sender, h.slaveof);
    if v1.nodes[h.sender].master && Dirty(v1, h)
    then UpdateSlots(v1, h.sender, h.configEpoch, h.claimed, allowMigration)
    else v1
  }

  function Collide(v: View, h: Header): View
    requires Ok(v) && h.sender in v.nodes
  {
    if v.nodes[v.me].master && v.nodes[h.sender].master && h.configEpoch == v.nodes[v.me].configEpoch
    then HandleCollision(v, h.sender)
    else v
  }

  function HandlePing(v: View, h: Header, allowMigration: bool): (r: (View, seq<Packet>))
    requires Ok(v) && h.sender in v.nodes && h.sender != v.me && h.slaveof != Some(h.sender)
    requires |h.claimed| == |v.slots|
  {
    ReconfigureOk(v, h, allowMigration);
    var v1 := Reconfigure(v, h, allowMigration);
    // judged on the claim as it stood before the slots were rebound
    var dirty := Dirty(SwitchRole(v, h.sender, h.slaveof), h);
    (Collide(v1, h), if dirty then Correction(v1, h, 0) else [])
  }

  function HandleUpdate(v: View, about: Id, epoch: nat, served: seq<bool>, allowMigration: bool): View
    requires Ok(v) && |served| == |v.slots|
  {
    if about !in v.nodes || v.nodes[about].configEpoch >= epoch then v
    else
      var v1 := WithEpoch(if v.nodes[about].master then v else SetNodeAsMaster(v, about), about, epoch);
      UpdateSlots(v1, about, epoch, served, allowMigration)
  }

  // ----------------------------------------------------------------------- failover

  // Is some claimed slot served, in this view, under a greater epoch?
  predicate Superseded(v: View, h: Header)
    requires Ok(v) && |h.claimed| == |v.slots|
  {
    exists j :: 0 <= j < |v.slots| && h.claimed[j] && v.slots[j].Some?
             && v.nodes[v.slots[j].value].configEpoch > h.configEpoch
  }

  predicate GrantsVote(v: View, h: Header, force: bool, now: int, timeout: nat)
    requires Ok(v) && h.sender in v.nodes && |h.claimed| == |v.slots|
  {
    var me, node := v.nodes[v.me], v.nodes[h.sender];
    && me.master && Serving(v, v.me)
    && h.currentEpoch >= v.currentEpoch
    && v.lastVoteEpoch != v.currentEpoch
    && !node.master && node.slaveof.Some?
    && (v.nodes[node.slaveof.value].failed || force)
    && now - v.nodes[node.slaveof.value].votedTime >= timeout * 2
    && !Superseded(v, h)
  }

  function CastVote(v: View, s: Id, now: int): View
    requires Ok(v) && s in v.nodes && v.nodes[s].slaveof.Some?
  {
    var m := v.nodes[s].slaveof.value;
    v.(lastVoteEpoch := v.currentEpoch, nodes := v.nodes[m := v.nodes[m].(votedTime := now)])
  }

  predicate CountsVote(v: View, h: Header)
    requires h.sender in v.nodes
  {
    v.nodes[h.sender].master && Serving(v, h.sender) && h.currentEpoch >= v.authEpoch
  }

  // The outside world as one handler invocation sees it.  `noFailover` is set when failovers are
  // switched off, and when the replica's data is too old for one.
  datatype Env = Env(now: int, timeout: nat, allowMigration: bool, noFailover: bool, manual: bool, linked: bool)

  // Everything a received packet does: the new view and the packets for its sender.
  function Process(v: View, p: Packet, env: Env): (r: (View, seq<Packet>))
    requires Ok(v) && Receivable(v, p)
  {
    if p.hdr.sender in v.nodes then
      SeeEpochsOk(v, p.hdr);
      var v1 := SeeEpochs(v, p.hdr);
      var (v2, out) := ProcessBody(v1, p, env);
      (v2, (if p.body.Ping? then [Packet(BuildHeader(v1), Pong)] else []) + (if env.linked then out else []))
    else
      (v, if p.body.Ping? then [Packet(BuildHeader(v), Pong)] else [])
  }

  // After the epochs have been seen.  The packets go out if there is a link to the sender.
  function ProcessBody(v: View, p: Packet, env: Env): (r: (View, seq<Packet>))
    requires Ok(v) && Receivable(v, p) && p.hdr.sender in v.nodes
  {
    match p.body
    case Ping => HandlePing(v, p.hdr, env.allowMigration)
    case Pong => HandlePing(v, p.hdr, env.allowMigration)
    case Update(about, epoch, served) => (HandleUpdate(v, about, epoch, served, env.allowMigration), [])
    case Fail(failing) => (MarkFailed(v, failing), [])
    case AuthRequest(force) =>
      if GrantsVote(v, p.hdr, force, env.now, env.timeout)
      then (CastVote(v, p.hdr.sender, env.now), [Packet(BuildHeader(CastVote(v, p.hdr.sender, env.now)), AuthAck)])
      else (v, [])
    case AuthAck => (if CountsVote(v, p.hdr) then v.(authCount := v.authCount + 1) else v, [])
  }

  function MarkFailed(v: View, n: Id): View {
    if n in v.nodes && n != v.me then v.(nodes := v.nodes[n := v.nodes[n].(failed := true)]) else v
  }

  // May this node try to replace its master?
  predicate MayFailover(v: View, env: Env)
    requires Ok(v)
  {
    var me := v.nodes[v.me];
    && !me.master && me.slaveof.Some?
    && (v.nodes[me.slaveof.value].failed || env.manual)
    && (!env.noFailover || env.manual)
    && Serving(v, me.slaveof.value)
  }

  // The three things the failover timer does, when its clock conditions allow them.
  function Rearm(v: View): View {
    v.(authCount := 0, authSent := false)
  }

  function RequestVotes(v: View): View {
    v.(currentEpoch := v.currentEpoch + 1, authEpoch := v.currentEpoch + 1, authSent := true)
  }

  predicate Elected(v: View) {
    v.authSent && v.authCount >= v.size / 2 + 1
  }

  function TakeOver(v: View): View
    requires Ok(v)
  {
    ReplaceYourMaster(WithEpoch(v, v.me, Max(v.nodes[v.me].configEpoch, v.authEpoch)))
  }

  // ----------------------------------------------------------------------- commands

  function MaxEpoch(v: View): nat {
    MaxOver(v, v.nodes.Keys)
  }

  // The greatest config epoch among `ns`, or the current epoch if that is greater.
  function MaxOver(v: View, ns: set<Id>): (m: nat)
    requires ns <= v.nodes.Keys
    ensures m >= v.currentEpoch && forall n :: n in ns ==> v.nodes[n].configEpoch <= m
    ensures m == v.currentEpoch || exists n :: n in ns && v.nodes[n].configEpoch == m
  {
    var epochs := set n | n in ns :: v.nodes[n].configEpoch;
    var all := {v.currentEpoch} + epochs;
    MaxExists(all);
    var m :| m in all && forall e :: e in all ==> e <= m;
    assert forall n :: n in ns ==> v.nodes[n].configEpoch in epochs;
    m
  }

  lemma {:induction false} MaxExists(s: set<nat>)
    requires s != {}
    ensures exists m :: m in s && forall e :: e in s ==> e <= m
  {
    var x :| x in s;
    if s != {x} {
      var rest := s - {x};
      MaxExists(rest);
      var m :| m in rest && forall e :: e in rest ==> e <= m;
      var top := if m < x then x else m;
      assert top in s && forall e :: e in s ==> e == x || e in rest;
    }
  }

  function Bump(v: View): View
    requires v.me in v.nodes
  {
    var mine := v.nodes[v.me].configEpoch;
    if mine == 0 || mine != MaxEpoch(v)
    then WithEpoch(v, v.me, v.currentEpoch + 1).(currentEpoch := v.currentEpoch + 1)
    else v
  }

  function SlotServers(v: View): set<Id> {
    set n | n in v.nodes && v.nodes[n].master && Serving(v, n)
  }

  function UpdateState(v: View): View {
    v.(size := |SlotServers(v)|)
  }

  // CLUSTER SETSLOT; `hasKeys` says whether this node holds keys of the slot.
  datatype SlotCommand = Migrating(to: Id) | Importing(from: Id) | Stable | Assign(owner: Id)

  predicate SetSlotRefused(v: View, j: nat, cmd: SlotCommand, hasKeys: bool)
    requires Ok(v) && j < |v.slots|
  {
    || !v.nodes[v.me].master
    || (match cmd
        case Migrating(to) => v.slots[j] != Some(v.me) || to !in v.nodes
        case Importing(from) => v.slots[j] == Some(v.me) || from !in v.nodes
        case Stable => false
        case Assign(owner) => owner !in v.nodes || (v.slots[j] == Some(v.me) && owner != v.me && hasKeys))
  }

  function SetSlot(v: View, j: nat, cmd: SlotCommand, hasKeys: bool): View
    requires Ok(v) && j < |v.slots|
  {
    if SetSlotRefused(v, j, cmd, hasKeys) then v
    else
      match cmd
      case Migrating(to) => v.(migrating := v.migrating[j := Some(to)])
      case Importing(from) => v.(importing := v.importing[j := Some(from)])
      case Stable => v.(importing := v.importing[j := None], migrating := v.migrating[j := None])
      case Assign(owner) =>
        var v1 := v.(slots := v.slots[j := Some(owner)],
                     migrating := if hasKeys then v.migrating else v.migrating[j := None]);
        // closing an import: take a fresh epoch so that the news spreads
        if owner == v.me && v.importing[j].Some?
        then Bump(v1).(importing := v.importing[j := None])
        else v1
  }

  // CLUSTER ADDSLOTS and DELSLOTS: the whole list, or nothing.  No role is asked for.
  predicate ChangeRefused(v: View, js: seq<nat>, del: bool) {
    exists i :: 0 <= i < |js| && (js[i] >= |v.slots| || v.slots[js[i]].Some? != del || js[i] in js[..i])
  }

  function ChangeSlots(v: View, js: seq<nat>, del: bool): View
    requires |v.importing| == |v.slots|
  {
    if ChangeRefused(v, js, del) then v
    else v.(slots := Put(v.slots, js, if del then None else Some(v.me)), importing := Put(v.importing, js, None))
  }

  function Put(table: seq<Option<Id>>, js: seq<nat>, entry: Option<Id>): (r: seq<Option<Id>>)
    ensures |r| == |table|
  {
    seq(|table|, j requires 0 <= j < |table| => if j in js then entry else table[j])
  }

  // CLUSTER REPLICATE; `hasKeys` says whether this node holds any key.
  predicate ReplicateRefused(v: View, m: Id, hasKeys: bool)
    requires v.me in v.nodes
  {
    || m !in v.nodes || m == v.me || !v.nodes[m].master
    || (v.nodes[v.me].master && (NumSlots(v, v.me) != 0 || hasKeys))
  }

  function Replicate(v: View, m: Id, hasKeys: bool): View
    requires v.me in v.nodes
  {
    if ReplicateRefused(v, m, hasKeys) then v else SetMaster(v, m)
  }

  // A master serving slots whose replicas have all failed: a replica may move over to it.
  predicate Orphan(v: View, m: Id) {
    && m in v.nodes && v.nodes[m].master && !v.nodes[m].failed && Serving(v, m)
    && forall r :: r in v.nodes && v.nodes[r].slaveof == Some(m) ==> v.nodes[r].failed
  }

  // ------------------------------------------- the assertion in front of a change of master

  // Becoming a replica asserts that the node serves no slot.  For each handler, the view in
  // which it reaches the assertion, if it does.
  function ClaimReaches(v: View, s: Id, epoch: nat, claimed: seq<bool>, allowMigration: bool): Option<View>
    requires Ok(v) && |claimed| == |v.slots|
  {
    if Follows(v, s, epoch, claimed, allowMigration) then Some(v.(slots := Rebound(v, s, epoch, claimed))) else None
  }

  function PingReaches(v: View, h: Header, allowMigration: bool): Option<View>
    requires Ok(v) && h.sender in v.nodes && h.sender != v.me && h.slaveof != Some(h.sender)
    requires |h.claimed| == |v.slots|
  {
    var v1 := SwitchRole(v, h.sender, h.slaveof);
    SwitchRoleOk(v, h.sender, h.slaveof);
    if v1.nodes[h.sender].master && Dirty(v1, h)
    then ClaimReaches(v1, h.sender, h.configEpoch, h.claimed, allowMigration)
    else None
  }

  function UpdateReaches(v: View, about: Id, epoch: nat, served: seq<bool>, allowMigration: bool): Option<View>
    requires Ok(v) && |served| == |v.slots|
  {
    if about !in v.nodes || v.nodes[about].configEpoch >= epoch then None
    else
      var v1 := WithEpoch(if v.nodes[about].master then v else SetNodeAsMaster(v, about), about, epoch);
      ClaimReaches(v1, about, epoch, served, allowMigration)
  }

  function BodyReaches(v: View, p: Packet, env: Env): Option<View>
    requires Ok(v) && Receivable(v, p) && p.hdr.sender in v.nodes
  {
    match p.body
    case Ping => PingReaches(v, p.hdr, env.allowMigration)
    case Pong => PingReaches(v, p.hdr, env.allowMigration)
    case Update(about, epoch, served) => UpdateReaches(v, about, epoch, served, env.allowMigration)
    case _ => None
  }

  function PacketReaches(v: View, p: Packet, env: Env): Option<View>
    requires Ok(v) && Receivable(v, p)
  {
    if p.hdr.sender in v.nodes then
      SeeEpochsOk(v, p.hdr);
      BodyReaches(SeeEpochs(v, p.hdr), p, env)
    else None
  }

  function ReplicateReaches(v: View, m: Id, hasKeys: bool): Option<View>
    requires v.me in v.nodes
  {
    if ReplicateRefused(v, m, hasKeys) then None else Some(v)
  }

  // The assertion fails: this node still serves a slot.
  predicate Fails(reached: Option<View>) {
    reached.Some? && NumSlots(reached.value, reached.value.me) > 0
  }

  // At the assertion this node serves no slot it did not serve before, and none if it was a
  // master.
  predicate ReachedFrom(v: View, reached: Option<View>)
    requires v.me in v.nodes
  {
    reached.Some? ==>
      var w := reached.value;
      && w.me == v.me && |w.slots| == |v.slots|
      && (forall j :: 0 <= j < |v.slots| && w.slots[j] == Some(v.me) ==> v.slots[j] == Some(v.me))
      && (v.nodes[v.me].master ==> NumSlots(w, v.me) == 0)
  }

  lemma ClaimReached(v: View, s: Id, epoch: nat, claimed: seq<bool>, allowMigration: bool)
    requires Ok(v) && |claimed| == |v.slots|
    ensures ReachedFrom(v, ClaimReaches(v, s, epoch, claimed, allowMigration))
  {
    hide Taken, NumSlots, Count;
  }

  lemma PingReached(v: View, h: Header, allowMigration: bool)
    requires Ok(v) && h.sender in v.nodes && h.sender != v.me && h.slaveof != Some(h.sender)
    requires |h.claimed| == |v.slots|
    ensures ReachedFrom(v, PingReaches(v, h, allowMigration))
  {
    hide ClaimReaches, NumSlots, Dirty;
    SwitchRoleOk(v, h.sender, h.slaveof);
    ClaimReached(SwitchRole(v, h.sender, h.slaveof), h.sender, h.configEpoch, h.claimed, allowMigration);
  }

  lemma UpdateReached(v: View, about: Id, epoch: nat, served: seq<bool>, allowMigration: bool)
    requires Ok(v) && |served| == |v.slots|
    ensures ReachedFrom(v, UpdateReaches(v, about, epoch, served, allowMigration))
  {
    hide ClaimReaches, NumSlots;
    if about in v.nodes && v.nodes[about].configEpoch < epoch {
      var v1 := WithEpoch(if v.nodes[about].master then v else SetNodeAsMaster(v, about), about, epoch);
      ClaimReached(v1, about, epoch, served, allowMigration);
    }
  }

  lemma PacketReached(v: View, p: Packet, env: Env)
    requires Ok(v) && Receivable(v, p)
    ensures ReachedFrom(v, PacketReaches(v, p, env))
  {
    hide PingReaches, UpdateReaches, NumSlots;
    if p.hdr.sender in v.nodes {
      SeeEpochsOk(v, p.hdr);
      var v1 := SeeEpochs(v, p.hdr);
      match p.body
      case Ping => PingReached(v1, p.hdr, env.allowMigration);
      case Pong => PingReached(v1, p.hdr, env.allowMigration);
      case Update(about, epoch, served) => UpdateReached(v1, about, epoch, served, env.allowMigration);
      case _ =>
    }
  }

  lemma ReplicateReached(v: View, m: Id, hasKeys: bool)
    requires v.me in v.nodes
    ensures ReachedFrom(v, ReplicateReaches(v, m, hasKeys))
  {
    hide NumSlots;
  }

  // ------------------------------------------------------------- views stay well formed

  lemma ChangeSlotsOk(v: View, js: seq<nat>, del: bool)
    requires Ok(v)
    ensures Keeps(v, ChangeSlots(v, js, del))
  {}

  lemma ReplicateOk(v: View, m: Id, hasKeys: bool)
    requires Ok(v)
    ensures Keeps(v, Replicate(v, m, hasKeys))
  {
    hide NumSlots, SetMaster;
    if !ReplicateRefused(v, m, hasKeys) {
      SetMasterOk(v, m);
    }
  }

  lemma UnmasteredOk(v: View, s: Id)
    requires Ok(v) && s in v.nodes && s != v.me
    ensures Keeps(v, Unmastered(v, s)) && !Unmastered(v, s).nodes[s].master
  {}

  lemma RelinkOk(v: View, s: Id, m: Id)
    requires Ok(v) && s in v.nodes && m in v.nodes && m != s && !v.nodes[s].master
    ensures Keeps(v, v.(nodes := v.nodes[s := v.nodes[s].(slaveof := Some(m))]))
  {}

  lemma SwitchRoleOk(v: View, s: Id, slaveof: Option<Id>)
    requires Ok(v) && s in v.nodes && s != v.me && slaveof != Some(s)
    ensures Keeps(v, SwitchRole(v, s, slaveof))
  {
    hide Unmastered;
    UnmasteredOk(v, s);
    var v1 := Unmastered(v, s);
    if slaveof.Some? && slaveof.value in v1.nodes {
      RelinkOk(v1, s, slaveof.value);
    }
  }

  lemma SetNodeAsMasterOk(v: View, n: Id)
    requires Ok(v) && n in v.nodes
    ensures Keeps(v, SetNodeAsMaster(v, n))
  {}

  lemma SetMasterOk(v: View, n: Id)
    requires Ok(v) && n in v.nodes && n != v.me
    ensures Keeps(v, SetMaster(v, n))
  {}

  lemma UpdateSlotsOk(v: View, s: Id, epoch: nat, claimed: seq<bool>, allowMigration: bool)
    requires Ok(v) && s in v.nodes && |claimed| == |v.slots|
    ensures Keeps(v, UpdateSlots(v, s, epoch, claimed, allowMigration))
  {
    if s != v.me {
      SetMasterOk(v.(slots := Rebound(v, s, epoch, claimed)), s);
    }
  }

  lemma ReconfigureOk(v: View, h: Header, allowMigration: bool)
    requires Ok(v) && h.sender in v.nodes && h.sender != v.me && h.slaveof != Some(h.sender)
    requires |h.claimed| == |v.slots|
    ensures Keeps(v, Reconfigure(v, h, allowMigration))
  {
    hide Ok;
    hide SwitchRole;
    hide UpdateSlots;
    var v1 := SwitchRole(v, h.sender, h.slaveof);
    SwitchRoleOk(v, h.sender, h.slaveof);
    UpdateSlotsOk(v1, h.sender, h.configEpoch, h.claimed, allowMigration);
  }

  lemma SeeEpochsOk(v: View, h: Header)
    requires Ok(v) && h.sender in v.nodes
    ensures Keeps(v, SeeEpochs(v, h))
  {}

  lemma HandleUpdateOk(v: View, about: Id, epoch: nat, served: seq<bool>, allowMigration: bool)
    requires Ok(v) && |served| == |v.slots|
    ensures Keeps(v, HandleUpdate(v, about, epoch, served, allowMigration))
  {
    if about in v.nodes && v.nodes[about].configEpoch < epoch {
      var v1 := WithEpoch(if v.nodes[about].master then v else SetNodeAsMaster(v, about), about, epoch);
      UpdateSlotsOk(v1, about, epoch, served, allowMigration);
    }
  }

  lemma BumpOk(v: View)
    requires Ok(v)
    ensures Keeps(v, Bump(v))
  {
    hide MaxEpoch;
  }

  lemma ReplaceYourMasterOk(v: View)
    requires Ok(v)
    ensures Keeps(v, ReplaceYourMaster(v))
  {}

  lemma TakeOverOk(v: View)
    requires Ok(v)
    ensures Keeps(v, TakeOver(v))
  {
    hide ReplaceYourMaster;
    ReplaceYourMasterOk(WithEpoch(v, v.me, Max(v.nodes[v.me].configEpoch, v.authEpoch)));
  }

  lemma ForgetOk(v: View, n: Id)
    requires Ok(v) && n != v.me && v.nodes[v.me].slaveof != Some(n)
    ensures Ok(Forget(v, n)) && Forget(v, n).nodes.Keys == v.nodes.Keys - {n}
  {}

  lemma CollideOk(v: View, h: Header)
    requires Ok(v) && h.sender in v.nodes
    ensures Keeps(v, Collide(v, h))
  {}

  lemma MarkFailedOk(v: View, n: Id)
    requires Ok(v)
    ensures Keeps(v, MarkFailed(v, n))
  {}

  lemma CastVoteOk(v: View, s: Id, now: int)
    requires Ok(v) && s in v.nodes && v.nodes[s].slaveof.Some?
    ensures Keeps(v, CastVote(v, s, now))
  {}

  lemma ProcessBodyOk(v: View, p: Packet, env: Env)
    requires Ok(v) && Receivable(v, p) && p.hdr.sender in v.nodes
    ensures Keeps(v, ProcessBody(v, p, env).0)
  {
    hide Reconfigure;
    hide Collide;
    hide HandleUpdate;
    hide MarkFailed;
    hide CastVote;
    hide Correction;
    if p.body.Ping? || p.body.Pong? {
      ReconfigureOk(v, p.hdr, env.allowMigration);
      CollideOk(Reconfigure(v, p.hdr, env.allowMigration), p.hdr);
    } else if p.body.Update? {
      HandleUpdateOk(v, p.body.about, p.body.epoch, p.body.served, env.allowMigration);
    } else if p.body.Fail? {
      MarkFailedOk(v, p.body.failing);
    } else if p.body.AuthRequest? && GrantsVote(v, p.hdr, p.body.force, env.now, env.timeout) {
      CastVoteOk(v, p.hdr.sender, env.now);
    }
  }

  lemma ProcessOk(v: View, p: Packet, env: Env)
    requires Ok(v) && Receivable(v, p)
    ensures Keeps(v, Process(v, p, env).0)
  {
    hide ProcessBody;
    hide SeeEpochs;
    if p.hdr.sender in v.nodes {
      SeeEpochsOk(v, p.hdr);
      ProcessBodyOk(SeeEpochs(v, p.hdr), p, env);
    }
  }

  lemma SetSlotOk(v: View, j: nat, cmd: SlotCommand, hasKeys: bool)
    requires Ok(v) && j < |v.slots|
    ensures Keeps(v, SetSlot(v, j, cmd, hasKeys))
  {}

  // ------------------------------------------- what roles and slots leave untouched

  // Every epoch, and the state of the election, is as before.
  predicate SameEpochs(v: View, v': View) {
    && v'.nodes.Keys == v.nodes.Keys
    && (forall n :: n in v.nodes ==> v'.nodes[n].configEpoch == v.nodes[n].configEpoch)
    && v'.currentEpoch == v.currentEpoch && v'.lastVoteEpoch == v.lastVoteEpoch
    && v'.authEpoch == v.authEpoch && v'.authCount == v.authCount && v'.authSent == v.authSent
  }

  lemma SwitchRoleEpochs(v: View, s: Id, slaveof: Option<Id>)
    requires s in v.nodes
    ensures SameEpochs(v, SwitchRole(v, s, slaveof))
  {}

  lemma UpdateSlotsEpochs(v: View, s: Id, epoch: nat, claimed: seq<bool>, allowMigration: bool)
    requires Ok(v) && s in v.nodes && |claimed| == |v.slots|
    ensures SameEpochs(v, UpdateSlots(v, s, epoch, claimed, allowMigration))
  {
    hide Rebound;
    hide Taken;
    hide NumSlots;
  }

  lemma ReconfigureEpochs(v: View, h: Header, allowMigration: bool)
    requires Ok(v) && h.sender in v.nodes && h.sender != v.me && h.slaveof != Some(h.sender)
    requires |h.claimed| == |v.slots|
    ensures SameEpochs(v, Reconfigure(v, h, allowMigration))
  {
    hide SwitchRole;
    hide UpdateSlots;
    SwitchRoleOk(v, h.sender, h.slaveof);
    SwitchRoleEpochs(v, h.sender, h.slaveof);
    UpdateSlotsEpochs(SwitchRole(v, h.sender, h.slaveof), h.sender, h.configEpoch, h.claimed, allowMigration);
  }

  // --------------------------------------------------------- a replica serving a slot

  predicate Holds(v: View, j: nat)
    requires v.me in v.nodes && j < |v.slots|
  {
    !v.nodes[v.me].master && v.slots[j] == Some(v.me)
  }

  // No slot comes to be served by this node as a replica.
  ghost predicate NoGain(v: View, v': View) {
    && v.me == v'.me && v.me in v.nodes && v.me in v'.nodes && |v'.slots| == |v.slots|
    && forall j :: 0 <= j < |v.slots| && Holds(v', j) ==> Holds(v, j)
  }

  lemma UpdateSlotsNoGain(v: View, s: Id, epoch: nat, claimed: seq<bool>, allowMigration: bool)
    requires Ok(v) && s in v.nodes && |claimed| == |v.slots|
    ensures NoGain(v, UpdateSlots(v, s, epoch, claimed, allowMigration))
  {
    hide Follows;
    if Follows(v, s, epoch, claimed, allowMigration) {
      var w := v.(slots := Rebound(v, s, epoch, claimed));
      assert v.nodes[v.me].master ==> NumSlots(w, v.me) == 0 by {
        ClaimReached(v, s, epoch, claimed, allowMigration);
      }
      ServingIsPositive(w, v.me);
    }
  }

  lemma SwitchRoleNoGain(v: View, s: Id, slaveof: Option<Id>)
    requires Ok(v) && s in v.nodes && s != v.me
    ensures NoGain(v, SwitchRole(v, s, slaveof))
  {}

  lemma ReconfigureNoGain(v: View, h: Header, allowMigration: bool)
    requires Ok(v) && h.sender in v.nodes && h.sender != v.me && h.slaveof != Some(h.sender)
    requires |h.claimed| == |v.slots|
    ensures NoGain(v, Reconfigure(v, h, allowMigration))
  {
    hide SwitchRole, UpdateSlots;
    SwitchRoleOk(v, h.sender, h.slaveof);
    SwitchRoleNoGain(v, h.sender, h.slaveof);
    UpdateSlotsNoGain(SwitchRole(v, h.sender, h.slaveof), h.sender, h.configEpoch, h.claimed, allowMigration);
  }

  lemma HandleUpdateNoGain(v: View, about: Id, epoch: nat, served: seq<bool>, allowMigration: bool)
    requires Ok(v) && |served| == |v.slots|
    ensures NoGain(v, HandleUpdate(v, about, epoch, served, allowMigration))
  {
    hide UpdateSlots;
    if about in v.nodes && v.nodes[about].configEpoch < epoch {
      var v1 := WithEpoch(if v.nodes[about].master then v else SetNodeAsMaster(v, about), about, epoch);
      UpdateSlotsNoGain(v1, about, epoch, served, allowMigration);
    }
  }

  lemma ProcessBodyNoGain(v: View, p: Packet, env: Env)
    requires Ok(v) && Receivable(v, p) && p.hdr.sender in v.nodes
    ensures NoGain(v, ProcessBody(v, p, env).0)
  {
    hide Reconfigure, HandleUpdate, Correction, GrantsVote, CountsVote, Dirty;
    if p.body.Ping? || p.body.Pong? {
      ReconfigureOk(v, p.hdr, env.allowMigration);
      ReconfigureNoGain(v, p.hdr, env.allowMigration);
    } else if p.body.Update? {
      HandleUpdateNoGain(v, p.body.about, p.body.epoch, p.body.served, env.allowMigration);
    }
  }

  // No packet makes a replica serve a slot.
  lemma ProcessNoGain(v: View, p: Packet, env: Env)
    requires Ok(v) && Receivable(v, p)
    ensures NoGain(v, Process(v, p, env).0)
  {
    hide ProcessBody;
    if p.hdr.sender in v.nodes {
      SeeEpochsOk(v, p.hdr);
      ProcessBodyNoGain(SeeEpochs(v, p.hdr), p, env);
    }
  }

  lemma SetSlotNoGain(v: View, j: nat, cmd: SlotCommand, hasKeys: bool)
    requires Ok(v) && j < |v.slots|
    ensures NoGain(v, SetSlot(v, j, cmd, hasKeys))
  {
    hide MaxEpoch;
  }

  lemma ForgetNoGain(v: View, n: Id)
    requires Ok(v) && n != v.me
    ensures NoGain(v, Forget(v, n))
  {}

  lemma ReplicateNoGain(v: View, m: Id, hasKeys: bool)
    requires Ok(v)
    ensures NoGain(v, Replicate(v, m, hasKeys))
  {
    ServingIsPositive(v, v.me);
  }

  // A replica comes to serve slots by ADDSLOTS alone, and then exactly those of the list.
  lemma ChangeSlotsGain(v: View, js: seq<nat>, del: bool, j: nat)
    requires Ok(v) && j < |v.slots|
    ensures var v' := ChangeSlots(v, js, del);
            Holds(v', j) && !Holds(v, j) <==> !del && !ChangeRefused(v, js, del) && !v.nodes[v.me].master && j in js
  {
    var v' := ChangeSlots(v, js, del);
    if !ChangeRefused(v, js, del) && j in js {
      var i :| 0 <= i < |js| && js[i] == j;
      assert !(js[i] >= |v.slots| || v.slots[js[i]].Some? != del || js[i] in js[..i]);
    }
  }

  // ------------------------------------------------------------- how a replica loses a slot

  // A claim under `epoch` takes slot j, served by this node, away.
  predicate Claims(v: View, claimed: seq<bool>, epoch: nat, j: nat)
    requires v.me in v.nodes && j < |v.slots| == |claimed| == |v.importing|
  {
    claimed[j] && v.importing[j] == None && v.nodes[v.me].configEpoch < epoch
  }

  // The config epoch of n once the header has been seen.
  function Seen(v: View, h: Header, n: Id): nat
    requires n in v.nodes
  {
    if n == h.sender then Max(v.nodes[n].configEpoch, h.configEpoch) else v.nodes[n].configEpoch
  }

  // The packet takes slot j away from this replica, or makes it a master.
  predicate PacketTakes(v: View, p: Packet, j: nat)
    requires Ok(v) && Receivable(v, p) && j < |v.slots|
  {
    p.hdr.sender in v.nodes &&
    match p.body
    case Ping => p.hdr.slaveof == None && Claims(v, p.hdr.claimed, p.hdr.configEpoch, j)
    case Pong => p.hdr.slaveof == None && Claims(v, p.hdr.claimed, p.hdr.configEpoch, j)
    case Update(about, epoch, served) =>
      about in v.nodes && Seen(v, p.hdr, about) < epoch && (about == v.me || Claims(v, served, epoch, j))
    case _ => false
  }

  lemma UpdateSlotsLoses(v: View, s: Id, epoch: nat, claimed: seq<bool>, allowMigration: bool, j: nat)
    requires Ok(v) && s in v.nodes && s != v.me && |claimed| == |v.slots| && j < |v.slots| && Holds(v, j)
    ensures Keeps(v, UpdateSlots(v, s, epoch, claimed, allowMigration))
    ensures Holds(UpdateSlots(v, s, epoch, claimed, allowMigration), j) <==> !Claims(v, claimed, epoch, j)
  {
    hide Follows;
    UpdateSlotsOk(v, s, epoch, claimed, allowMigration);
  }

  lemma SwitchRoleFrame(v: View, s: Id, slaveof: Option<Id>, j: nat)
    requires Ok(v) && s in v.nodes && s != v.me && slaveof != Some(s) && j < |v.slots| && Holds(v, j)
    ensures var v1 := SwitchRole(v, s, slaveof);
            && Keeps(v, v1) && Holds(v1, j) && v1.nodes[v.me] == v.nodes[v.me] && v1.importing == v.importing
            && v1.nodes[s].master == (slaveof == None)
  {
    SwitchRoleOk(v, s, slaveof);
  }

  lemma ReconfigureLoses(v: View, h: Header, allowMigration: bool, j: nat)
    requires Ok(v) && h.sender in v.nodes && h.sender != v.me && h.slaveof != Some(h.sender)
    requires |h.claimed| == |v.slots| && j < |v.slots| && Holds(v, j)
    ensures Keeps(v, Reconfigure(v, h, allowMigration))
    ensures Holds(Reconfigure(v, h, allowMigration), j)
       <==> !(h.slaveof == None && Claims(v, h.claimed, h.configEpoch, j))
  {
    hide SwitchRole, UpdateSlots, Ok;
    ReconfigureOk(v, h, allowMigration);
    SwitchRoleFrame(v, h.sender, h.slaveof, j);
    var v1 := SwitchRole(v, h.sender, h.slaveof);
    UpdateSlotsLoses(v1, h.sender, h.configEpoch, h.claimed, allowMigration, j);
    assert !Bitmap(v1.slots, h.sender)[j];
  }

  lemma HandleUpdateLoses(v: View, about: Id, epoch: nat, served: seq<bool>, allowMigration: bool, j: nat)
    requires Ok(v) && |served| == |v.slots| && j < |v.slots| && Holds(v, j)
    ensures Keeps(v, HandleUpdate(v, about, epoch, served, allowMigration))
    ensures Holds(HandleUpdate(v, about, epoch, served, allowMigration), j)
       <==> !(about in v.nodes && v.nodes[about].configEpoch < epoch && (about == v.me || Claims(v, served, epoch, j)))
  {
    hide UpdateSlots;
    HandleUpdateOk(v, about, epoch, served, allowMigration);
    if about in v.nodes && v.nodes[about].configEpoch < epoch && about != v.me {
      var v1 := WithEpoch(if v.nodes[about].master then v else SetNodeAsMaster(v, about), about, epoch);
      UpdateSlotsLoses(v1, about, epoch, served, allowMigration, j);
    } else if about == v.me && v.nodes[about].configEpoch < epoch {
      var v1 := WithEpoch(SetNodeAsMaster(v, about), about, epoch);
      assert UpdateSlots(v1, about, epoch, served, allowMigration) == v1 by { OwnClaim(v1, epoch, served, allowMigration); }
    }
  }

  // An UPDATE about this node itself changes no slot.
  lemma OwnClaim(v: View, epoch: nat, served: seq<bool>, allowMigration: bool)
    requires Ok(v) && |served| == |v.slots|
    ensures UpdateSlots(v, v.me, epoch, served, allowMigration) == v
  {
    hide Follows, Rebound;
  }

  lemma BodyLoses(v: View, p: Packet, env: Env, j: nat)
    requires Ok(v) && Receivable(v, p) && p.hdr.sender in v.nodes && j < |v.slots| && Holds(v, j)
    requires v.nodes[p.hdr.sender].configEpoch >= p.hdr.configEpoch
    ensures Keeps(v, ProcessBody(v, p, env).0)
    ensures Holds(ProcessBody(v, p, env).0, j) <==> !PacketTakes(v, p, j)
  {
    hide Reconfigure, HandleUpdate, Correction, GrantsVote, CountsVote, Dirty, Claims, OwnersKnown;
    ProcessBodyOk(v, p, env);
    match p.body
    case Update(about, epoch, served) => HandleUpdateLoses(v, about, epoch, served, env.allowMigration, j);
    case Ping => ReconfigureLoses(v, p.hdr, env.allowMigration, j);
    case Pong => ReconfigureLoses(v, p.hdr, env.allowMigration, j);
    case _ =>
  }

  /** A packet ends a replica's service of a slot exactly when it takes the slot or the role. */
  lemma PacketLoses(v: View, p: Packet, env: Env, j: nat)
    requires Ok(v) && Receivable(v, p) && j < |v.slots| && Holds(v, j)
    ensures Keeps(v, Process(v, p, env).0)
    ensures Holds(Process(v, p, env).0, j) <==> !PacketTakes(v, p, j)
  {
    hide ProcessBody;
    ProcessOk(v, p, env);
    if p.hdr.sender in v.nodes {
      SeeEpochsOk(v, p.hdr);
      BodyLoses(SeeEpochs(v, p.hdr), p, env, j);
    }
  }
}
