/**
The cluster state as the server keeps it: besides the slot table, every node carries a slot
bitmap, a slot count and a list of its replicas, all updated in place.  `Valid` says that
these agree, every method keeps them so, and every method does to the plain view of
`ClusterView` what the function of that module says.
*/
module ClusterState {
  import opened Options
  import opened ClusterView

  datatype Node = Node(
    master: bool,
    slaveof: Option<Id>,
    slaves: seq<Id>,
    bits: seq<bool>,
    numslots: int,
    configEpoch: nat,
    failed: bool,
    votedTime: int
  )

  function ToInfo(n: Node): Info {
    Info(n.master, n.slaveof, n.configEpoch, n.failed, n.votedTime)
  }

  function Infos(nodes: map<Id, Node>): map<Id, Info> {
    map n | n in nodes :: ToInfo(nodes[n])
  }

  lemma InfosUpdate(nodes: map<Id, Node>, n: Id, x: Node)
    ensures Infos(nodes[n := x]) == Infos(nodes)[n := ToInfo(x)]
  {}

  // ---------------------------------------------------------------------- replica lists

  predicate Distinct(s: seq<Id>) {
    forall i, j :: 0 <= i < j < |s| ==> s[i] != s[j]
  }

  // The list without the first occurrence of x.
  function Drop(s: seq<Id>, x: Id): seq<Id> {
    if s == [] then [] else if s[0] == x then s[1..] else [s[0]] + Drop(s[1..], x)
  }

  lemma {:induction false} DropDistinct(s: seq<Id>, x: Id)
    requires Distinct(s)
    ensures Distinct(Drop(s, x)) && forall y :: y in Drop(s, x) <==> y in s && y != x
  {
    if s != [] {
      DropDistinct(s[1..], x);
      assert s == [s[0]] + s[1..];
      if s[0] != x {
        var d := Drop(s[1..], x);
        assert s[0] !in d;
        assert forall i :: 0 <= i < |d| ==> d[i] in d;
      }
    }
  }

  lemma {:induction false} DropAt(s: seq<Id>, x: Id, j: nat)
    requires j < |s| && s[j] == x && forall i :: 0 <= i < j ==> s[i] != x
    ensures Drop(s, x) == s[..j] + s[j + 1..]
  {
    if j > 0 {
      DropAt(s[1..], x, j - 1);
    }
  }

  lemma {:induction false} DropAbsent(s: seq<Id>, x: Id)
    requires x !in s
    ensures Drop(s, x) == s
  {
    if s != [] {
      DropAbsent(s[1..], x);
    }
  }

  // m's list holds each of its replicas exactly once, and nothing else.
  ghost predicate SlavesMatch(nodes: map<Id, Node>) {
    forall m :: m in nodes ==> ListMatches(nodes, m)
  }

  ghost predicate ListMatches(nodes: map<Id, Node>, m: Id)
    requires m in nodes
  {
    && Distinct(nodes[m].slaves)
    && forall s :: s in nodes[m].slaves <==> s in nodes && nodes[s].slaveof == Some(m)
  }

  // n leaves its master's list.
  function Unlinked(nodes: map<Id, Node>, n: Id): map<Id, Node>
    requires n in nodes
  {
    match nodes[n].slaveof
    case None => nodes
    case Some(m) =>
      if m !in nodes then nodes
      else
        var nodes1 := nodes[m := nodes[m].(slaves := Drop(nodes[m].slaves, n))];
        nodes1[n := nodes1[n].(slaveof := None)]
  }

  // A node without a master joins m's list.
  function LinkedTo(nodes: map<Id, Node>, n: Id, m: Id): map<Id, Node>
    requires n in nodes && m in nodes
  {
    var nodes1 := nodes[m := nodes[m].(slaves := nodes[m].slaves + [n])];
    nodes1[n := nodes1[n].(slaveof := Some(m))]
  }

  lemma UnlinkMatches(nodes: map<Id, Node>, n: Id)
    requires SlavesMatch(nodes) && n in nodes
    requires nodes[n].slaveof.Some? ==> nodes[n].slaveof.value in nodes && nodes[n].slaveof.value != n
    ensures SlavesMatch(Unlinked(nodes, n))
  {
    if nodes[n].slaveof.Some? {
      var m := nodes[n].slaveof.value;
      assert ListMatches(nodes, m);
      DropDistinct(nodes[m].slaves, n);
      forall k | k in nodes ensures ListMatches(Unlinked(nodes, n), k) {
        assert ListMatches(nodes, k);
      }
    }
  }

  lemma LinkMatches(nodes: map<Id, Node>, n: Id, m: Id)
    requires SlavesMatch(nodes) && n in nodes && m in nodes && n != m && nodes[n].slaveof == None
    ensures n !in nodes[m].slaves
    ensures SlavesMatch(LinkedTo(nodes, n, m))
  {
    assert ListMatches(nodes, m);
    forall k | k in nodes ensures ListMatches(LinkedTo(nodes, n, m), k) {
      assert ListMatches(nodes, k);
    }
  }

  // Lists and links as before.
  ghost predicate SameLinks(a: map<Id, Node>, b: map<Id, Node>) {
    && a.Keys == b.Keys
    && forall n :: n in a ==> a[n].slaves == b[n].slaves && a[n].slaveof == b[n].slaveof
  }

  lemma SameLinksMatch(a: map<Id, Node>, b: map<Id, Node>)
    requires SlavesMatch(a) && SameLinks(a, b)
    ensures SlavesMatch(b)
  {
    forall m | m in b ensures ListMatches(b, m) {
      assert ListMatches(a, m);
    }
  }

  // ----------------------------------------------------------------------- slot bitmaps

  // Bit j of node n is set exactly if the table binds slot j to n, and n counts its bits.
  ghost predicate SlotsMatch(nodes: map<Id, Node>, slots: seq<Option<Id>>) {
    && (forall n :: n in nodes ==> nodes[n].bits == Bitmap(slots, n) && nodes[n].numslots == Count(nodes[n].bits))
    && (forall j :: 0 <= j < |slots| && slots[j].Some? ==> slots[j].value in nodes)
  }

  // The nodes without their bitmaps and counts.
  ghost function Plain(nodes: map<Id, Node>): map<Id, Node> {
    map n | n in nodes :: nodes[n].(bits := [], numslots := 0)
  }

  // Only bitmaps and counts may differ.
  ghost predicate OnlyBits(a: map<Id, Node>, b: map<Id, Node>) {
    a.Keys == b.Keys && Plain(a) == Plain(b)
  }

  lemma PlainAt(nodes: map<Id, Node>, n: Id)
    ensures (n in nodes) == (n in Plain(nodes))
    ensures n in nodes ==> Plain(nodes)[n] == nodes[n].(bits := [], numslots := 0)
  {}

  lemma OnlyBitsFacts(a: map<Id, Node>, b: map<Id, Node>)
    requires OnlyBits(a, b)
    ensures a.Keys == b.Keys && SameLinks(a, b) && Infos(a) == Infos(b)
  {
    assert forall n :: n in a ==> n in Plain(a);
    assert forall n :: n in b ==> n in Plain(b);
    forall n | n in a
      ensures n in b && b[n] == a[n].(bits := b[n].bits, numslots := b[n].numslots)
    {
      PlainAt(a, n);
      PlainAt(b, n);
    }
    forall n | n in b ensures n in a {
      PlainAt(a, n);
      PlainAt(b, n);
    }
  }

  lemma BitsOnly(nodes: map<Id, Node>, n: Id, bits: seq<bool>, numslots: int)
    requires n in nodes
    ensures OnlyBits(nodes, nodes[n := nodes[n].(bits := bits, numslots := numslots)])
  {}

  // Bitmaps and counts as before.
  ghost predicate SameBits(a: map<Id, Node>, b: map<Id, Node>) {
    && a.Keys == b.Keys
    && forall n :: n in a ==> a[n].bits == b[n].bits && a[n].numslots == b[n].numslots
  }

  lemma SameBitsMatch(a: map<Id, Node>, b: map<Id, Node>, slots: seq<Option<Id>>)
    requires SlotsMatch(a, slots) && SameBits(a, b)
    ensures SlotsMatch(b, slots)
  {}

  lemma {:induction false} CountUpdate(bits: seq<bool>, j: nat, x: bool)
    requires j < |bits|
    ensures Count(bits[j := x]) == Count(bits) - (if bits[j] then 1 else 0) + (if x then 1 else 0)
  {
    var k := |bits| - 1;
    var b' := bits[j := x];
    if j == k {
      assert b'[..k] == bits[..k];
    } else {
      assert b'[..k] == bits[..k][j := x];
      CountUpdate(bits[..k], j, x);
    }
  }

  lemma CountPrefix(bits: seq<bool>, j: nat)
    requires j < |bits|
    ensures Count(bits[..j + 1]) == Count(bits[..j]) + (if bits[j] then 1 else 0)
  {
    assert bits[..j + 1][..j] == bits[..j];
  }

  // One more element of `goal` in place of one of `before`.
  lemma Splice<T>(goal: seq<T>, before: seq<T>, j: nat)
    requires j < |goal| == |before|
    ensures (goal[..j] + before[j..])[j := goal[j]] == goal[..j + 1] + before[j + 1..]
    ensures before[j] == goal[j] ==> goal[..j] + before[j..] == goal[..j + 1] + before[j + 1..]
  {}

  // Each assigned slot is counted by exactly one node.
  function Assigned(slots: seq<Option<Id>>): seq<bool> {
    seq(|slots|, j requires 0 <= j < |slots| => slots[j].Some?)
  }

  function SumSlots(nodes: map<Id, Node>, ns: seq<Id>): int
    requires forall i :: 0 <= i < |ns| ==> ns[i] in nodes
  {
    if ns == [] then 0 else nodes[ns[0]].numslots + SumSlots(nodes, ns[1..])
  }

  // The slots bound to one of `ns`.
  function BoundTo(slots: seq<Option<Id>>, ns: seq<Id>): seq<bool> {
    seq(|slots|, j requires 0 <= j < |slots| => slots[j].Some? && slots[j].value in ns)
  }

  lemma {:induction false} CountDisjoint(a: seq<bool>, b: seq<bool>, c: seq<bool>)
    requires |a| == |b| == |c|
    requires forall j :: 0 <= j < |a| ==> !(a[j] && b[j]) && c[j] == (a[j] || b[j])
    ensures Count(c) == Count(a) + Count(b)
  {
    if a != [] {
      var k := |a| - 1;
      CountDisjoint(a[..k], b[..k], c[..k]);
    }
  }

  lemma {:induction false} SumIsBound(nodes: map<Id, Node>, slots: seq<Option<Id>>, ns: seq<Id>)
    requires SlotsMatch(nodes, slots) && Distinct(ns) && forall i :: 0 <= i < |ns| ==> ns[i] in nodes
    ensures SumSlots(nodes, ns) == Count(BoundTo(slots, ns))
  {
    if ns == [] {
      CountZero(BoundTo(slots, ns));
    } else {
      SumIsBound(nodes, slots, ns[1..]);
      assert forall x :: x in ns <==> x == ns[0] || x in ns[1..];
      CountDisjoint(Bitmap(slots, ns[0]), BoundTo(slots, ns[1..]), BoundTo(slots, ns));
    }
  }

  // The slot counts of all nodes add up to the number of assigned slots.
  lemma CountsAddUp(nodes: map<Id, Node>, slots: seq<Option<Id>>, ns: seq<Id>)
    requires SlotsMatch(nodes, slots) && Distinct(ns) && forall n :: n in ns <==> n in nodes
    ensures SumSlots(nodes, ns) == Count(Assigned(slots))
  {
    SumIsBound(nodes, slots, ns);
    assert BoundTo(slots, ns) == Assigned(slots);
  }

  // ---------------------------------------------------------------------------- the class

  class Cluster {
    const me: Id
    const slots: array<Option<Id>>
    const importing: array<Option<Id>>
    const migrating: array<Option<Id>>
    var nodes: map<Id, Node>
    var currentEpoch: nat
    var lastVoteEpoch: nat
    var authEpoch: nat
    var authCount: nat
    var authSent: bool
    var size: nat

    ghost const Repr: set<object>

    ghost predicate Tables() {
      && Repr == {this, slots, importing, migrating}
      && slots != importing && slots != migrating && importing != migrating
      && importing.Length == slots.Length == migrating.Length
    }

    ghost function Abs(): View
      reads this, slots, importing, migrating
    {
      View(me, Infos(nodes), slots[..], importing[..], migrating[..],
           currentEpoch, lastVoteEpoch, authEpoch, authCount, authSent, size)
    }

    ghost predicate Valid()
      reads this, slots, importing, migrating
    {
      && Tables() && SlotsMatch(nodes, slots[..]) && SlavesMatch(nodes) && Ok(Abs())
    }

    // What the slot primitives leave alone.
    twostate predicate OnlySlots()
      reads this, importing, migrating
    {
      && OnlyBits(old(nodes), nodes)
      && unchanged(importing) && unchanged(migrating)
      && currentEpoch == old(currentEpoch) && lastVoteEpoch == old(lastVoteEpoch) && authEpoch == old(authEpoch)
      && authCount == old(authCount) && authSent == old(authSent) && size == old(size)
    }

    method SetSlotBit(n: Id, j: nat) returns (was: bool)
      requires Tables() && n in nodes && j < |nodes[n].bits|
      modifies this`nodes
      ensures was == old(nodes[n].bits[j])
      ensures nodes == old(nodes)[n := old(nodes[n]).(
                bits := old(nodes[n].bits)[j := true],
                numslots := old(nodes[n].numslots) + (if was then 0 else 1))]
    {
      was := nodes[n].bits[j];
      nodes := nodes[n := nodes[n].(bits := nodes[n].bits[j := true])];
      if !was {
        nodes := nodes[n := nodes[n].(numslots := nodes[n].numslots + 1)];
      }
    }

    method ClearSlotBit(n: Id, j: nat) returns (was: bool)
      requires Tables() && n in nodes && j < |nodes[n].bits|
      modifies this`nodes
      ensures was == old(nodes[n].bits[j])
      ensures nodes == old(nodes)[n := old(nodes[n]).(
                bits := old(nodes[n].bits)[j := false],
                numslots := old(nodes[n].numslots) - (if was then 1 else 0))]
    {
      was := nodes[n].bits[j];
      nodes := nodes[n := nodes[n].(bits := nodes[n].bits[j := false])];
      if was {
        nodes := nodes[n := nodes[n].(numslots := nodes[n].numslots - 1)];
      }
    }

    method AddSlot(n: Id, j: nat) returns (ok: bool)
      requires Tables() && SlotsMatch(nodes, slots[..]) && n in nodes && j < slots.Length
      modifies this, slots
      ensures SlotsMatch(nodes, slots[..]) && OnlySlots()
      ensures ok == (old(slots[j]) == None)
      ensures slots[..] == if ok then old(slots[..])[j := Some(n)] else old(slots[..])
    {
      hide SlotsMatch;
      if slots[j] != None {
        return false;
      }
      hide Plain;
      BitFacts(nodes, slots[..], n, j);
      BindMatches(nodes, slots[..], n, j);
      BitsOnly(nodes, n, nodes[n].bits[j := true], nodes[n].numslots + 1);
      var was := SetSlotBit(n, j);
      slots[j] := Some(n);
      assert slots[..] == old(slots[..])[j := Some(n)];
      ok := true;
    }

    // The bit of an assigned slot is always found set: the assertion cannot fire.
    method DelSlot(j: nat) returns (ok: bool)
      requires Tables() && SlotsMatch(nodes, slots[..]) && j < slots.Length
      modifies this, slots
      ensures SlotsMatch(nodes, slots[..]) && OnlySlots()
      ensures ok == (old(slots[j]) != None)
      ensures slots[..] == old(slots[..])[j := None]
    {
      hide SlotsMatch;
      if slots[j] == None {
        assert old(slots[..])[j := None] == old(slots[..]);
        return false;
      }
      var n := slots[j].value;
      hide Plain;
      BitFacts(nodes, slots[..], n, j);
      UnbindMatches(nodes, slots[..], n, j);
      BitsOnly(nodes, n, nodes[n].bits[j := false], nodes[n].numslots - 1);
      var was := ClearSlotBit(n, j);
      assert was;
      slots[j] := None;
      assert slots[..] == old(slots[..])[j := None];
      ok := true;
    }

    method DelNodeSlots(n: Id) returns (deleted: nat)
      requires Tables() && SlotsMatch(nodes, slots[..]) && n in nodes
      modifies this, slots
      ensures SlotsMatch(nodes, slots[..]) && OnlySlots()
      ensures slots[..] == ReleaseSlots(old(Abs()), n).slots
      ensures deleted == old(nodes[n].numslots)
    {
      hide SlotsMatch;
      ghost var before := slots[..];
      assert nodes[n].numslots == Count(Bitmap(before, n)) by { CountFacts(nodes, before, n); }
      deleted := 0;
      for j := 0 to slots.Length
        invariant SlotsMatch(nodes, slots[..]) && OnlySlots()
        invariant forall k :: 0 <= k < slots.Length ==>
                    slots[k] == if k < j && before[k] == Some(n) then None else before[k]
        invariant deleted == Count(Bitmap(before, n)[..j])
      {
        CountPrefix(Bitmap(before, n), j);
        BitFacts(nodes, slots[..], n, j);
        if nodes[n].bits[j] {
          var ok := DelSlot(j);
          deleted := deleted + 1;
        }
      }
      assert Bitmap(before, n)[..|before|] == Bitmap(before, n);
    }

    // ------------------------------------------------------------------- replica lists

    method RemoveSlave(m: Id, s: Id) returns (ok: bool)
      requires m in nodes
      modifies this`nodes
      ensures nodes == old(nodes)[m := old(nodes[m]).(slaves := Drop(old(nodes[m].slaves), s))]
      ensures ok == (s in old(nodes[m].slaves))
    {
      var slaves := nodes[m].slaves;
      for j := 0 to |slaves|
        invariant nodes == old(nodes)
        invariant forall i :: 0 <= i < j ==> slaves[i] != s
      {
        if slaves[j] == s {
          DropAt(slaves, s, j);
          nodes := nodes[m := nodes[m].(slaves := slaves[..j] + slaves[j + 1..])];
          return true;
        }
      }
      DropAbsent(slaves, s);
      assert nodes[m].(slaves := slaves) == nodes[m];
      assert nodes[m := nodes[m]] == nodes;
      ok := false;
    }

    method AddSlave(m: Id, s: Id) returns (ok: bool)
      requires m in nodes
      modifies this`nodes
      ensures ok == (s !in old(nodes[m].slaves))
      ensures nodes == if ok then old(nodes)[m := old(nodes[m]).(slaves := old(nodes[m].slaves) + [s])] else old(nodes)
    {
      var slaves := nodes[m].slaves;
      for j := 0 to |slaves|
        invariant nodes == old(nodes)
        invariant forall i :: 0 <= i < j ==> slaves[i] != s
      {
        if slaves[j] == s {
          return false;
        }
      }
      nodes := nodes[m := nodes[m].(slaves := slaves + [s])];
      ok := true;
    }

    // ------------------------------------------------------------------------- roles

    method MakeMaster(n: Id)
      requires Valid() && n in nodes
      modifies this`nodes
      ensures Valid() && Abs() == if old(nodes[n].master) then old(Abs()) else SetNodeAsMaster(old(Abs()), n)
    {
      hide Ok, SlotsMatch, SlavesMatch, Promoted;
      if nodes[n].master {
        return;
      }
      LinkFacts(Abs(), nodes, n);
      PromotedMatches(nodes, slots[..], n);
      SetNodeAsMasterOk(Abs(), n);
      Promote(n);
    }

    method Promote(n: Id)
      requires n in nodes && (nodes[n].slaveof.Some? ==> nodes[n].slaveof.value in nodes)
      modifies this`nodes
      ensures nodes == Promoted(old(nodes), n)
    {
      hide Drop;
      if nodes[n].slaveof.Some? {
        var ok := RemoveSlave(nodes[n].slaveof.value, n);
      }
      nodes := nodes[n := nodes[n].(master := true, slaveof := None)];
    }

    // n becomes a replica of m, in its own entry and in the lists.
    method Relink(n: Id, m: Id)
      requires n in nodes && m in nodes && n != m && SlavesMatch(nodes)
      requires nodes[n].slaveof.Some? ==> nodes[n].slaveof.value in nodes && nodes[n].slaveof.value != n
      modifies this`nodes
      ensures nodes == Relinked(old(nodes), n, m)
    {
      hide Drop, SlavesMatch;
      UnlinkMatches(nodes, n);
      UnlinkedFields(nodes, n);
      LinkMatches(Unlinked(nodes, n), n, m);
      if nodes[n].slaveof.Some? {
        var ok := RemoveSlave(nodes[n].slaveof.value, n);
      }
      assert nodes[n := nodes[n].(slaveof := None)] == Unlinked(old(nodes), n);
      var ok := AddSlave(m, n);
      nodes := nodes[n := nodes[n].(slaveof := Some(m))];
    }

    method CloseAllSlots()
      requires Tables()
      modifies importing, migrating
      ensures importing[..] == AllClosed(importing.Length) && migrating[..] == AllClosed(migrating.Length)
    {
      for j := 0 to importing.Length
        invariant forall k :: 0 <= k < j ==> importing[k] == None && migrating[k] == None
      {
        importing[j] := None;
        migrating[j] := None;
      }
    }

    // Become a replica of n, which serves no slot: the program asserts that, and stops if it
    // is not so.
    method BecomeReplica(n: Id) returns (alive: bool)
      requires Valid() && n in nodes && n != me
      modifies this`nodes, importing, migrating
      ensures Valid() && alive == (NumSlots(old(Abs()), me) == 0)
      ensures Abs() == if alive then SetMaster(old(Abs()), n) else old(Abs())
    {
      hide Ok, SlotsMatch, SlavesMatch, Demoted;
      MeKnown(Abs(), nodes);
      CountFacts(nodes, slots[..], me);
      if nodes[me].numslots != 0 {
        return false;
      }
      LinkFacts(Abs(), nodes, n);
      LinkFacts(Abs(), nodes, me);
      DemotedMatches(nodes, slots[..], me, n);
      SetMasterOk(Abs(), n);
      Demote(n);
      alive := true;
    }

    method Demote(n: Id)
      requires Tables() && me in nodes && n in nodes && n != me && SlavesMatch(nodes)
      requires nodes[me].slaveof.Some? ==> nodes[me].slaveof.value in nodes && nodes[me].slaveof.value != me
      modifies this`nodes, importing, migrating
      ensures nodes == Demoted(old(nodes), me, n)
      ensures importing[..] == if old(nodes[me].master) then AllClosed(importing.Length) else old(importing[..])
      ensures migrating[..] == if old(nodes[me].master) then AllClosed(migrating.Length) else old(migrating[..])
    {
      hide SlavesMatch, Relinked;
      if nodes[me].master {
        SameLinksMatch(nodes, nodes[me := nodes[me].(master := false)]);
        nodes := nodes[me := nodes[me].(master := false)];
        CloseAllSlots();
      } else {
        assert nodes == nodes[me := nodes[me].(master := false)];
      }
      Relink(me, n);
    }

    // A claim to slots, received through a PING, PONG or UPDATE.
    method UpdateSlotsConfigWith(s: Id, epoch: nat, claimed: seq<bool>, allowMigration: bool) returns (alive: bool)
      requires Valid() && s in nodes && |claimed| == slots.Length
      modifies Repr
      ensures Valid() && alive == !Fails(ClaimReaches(old(Abs()), s, epoch, claimed, allowMigration))
      ensures alive ==> Abs() == UpdateSlots(old(Abs()), s, epoch, claimed, allowMigration)
    {
      hide Linked, OwnersKnown, SlotsMatch, SlavesMatch, Rebound, Taken, Bitmap, SetMaster, Count;
      alive := true;
      if s == me {
        return;
      }
      ghost var v := Abs();
      LinkFacts(v, nodes, s);
      var cur := if nodes[me].master then Some(me) else nodes[me].slaveof;
      LinkFacts(v, nodes, me);
      ReboundKnown(v, s, epoch, claimed);
      var senderSlots, migrated := Rebind(s, epoch, claimed, cur);
      ghost var v1 := v.(slots := Rebound(v, s, epoch, claimed));
      Reassigned(v, old(nodes), nodes, slots[..]);
      assert Abs() == v1;
      CountFacts(nodes, slots[..], cur.value);
      if migrated > 0 && nodes[cur.value].numslots == 0 && (allowMigration || senderSlots == migrated) {
        alive := BecomeReplica(s);
      }
    }

    method MoveSlot(j: nat, n: Id)
      requires Tables() && SlotsMatch(nodes, slots[..]) && n in nodes && j < slots.Length
      modifies this, slots
      ensures SlotsMatch(nodes, slots[..]) && OnlySlots()
      ensures slots[..] == old(slots[..])[j := Some(n)]
    {
      hide SlotsMatch, Plain;
      var gone := DelSlot(j);
      var bound := AddSlot(n, j);
      assert old(slots[..])[j := None][j := Some(n)] == old(slots[..])[j := Some(n)];
    }

    // One claimed slot; v is the view before the loop.
    method ClaimSlot(ghost v: View, s: Id, epoch: nat, j: nat, cur: Option<Id>) returns (lost: bool)
      requires Tables() && SlotsMatch(nodes, slots[..]) && s in nodes && j < slots.Length
      requires Ok(v) && |v.slots| == slots.Length && v.slots[j] == slots[j]
      requires v.nodes == Infos(nodes) && v.importing == importing[..]
      modifies this, slots
      ensures SlotsMatch(nodes, slots[..]) && OnlySlots() && v.nodes == Infos(nodes)
      ensures slots[..] == if Rebinds(v, s, epoch, j) then old(slots[..])[j := Some(s)] else old(slots[..])
      ensures lost == (Rebinds(v, s, epoch, j) && old(slots[j]) == cur)
    {
      hide SlotsMatch, Linked, Plain;
      assert slots[j].Some? ==> slots[j].value in v.nodes;
      assert importing[j] == v.importing[j];
      lost := false;
      if slots[j] != Some(s) && importing[j] == None &&
         (slots[j] == None || nodes[slots[j].value].configEpoch < epoch)
      {
        lost := slots[j] == cur;
        MoveSlot(j, s);
        OnlyBitsFacts(old(nodes), nodes);
      }
    }

    // The loop over the slots: how many are claimed, and how many of them `cur` loses.
    method Rebind(s: Id, epoch: nat, claimed: seq<bool>, cur: Option<Id>) returns (senderSlots: nat, migrated: nat)
      requires Valid() && s in nodes && |claimed| == slots.Length
      modifies this, slots
      ensures SlotsMatch(nodes, slots[..]) && OnlySlots()
      ensures slots[..] == Rebound(old(Abs()), s, epoch, claimed)
      ensures senderSlots == Count(claimed) && migrated == Count(Taken(old(Abs()), s, epoch, claimed, cur))
    {
      hide SlotsMatch, SlavesMatch, Linked, Rebound, Taken, Count, Rebinds, Infos, Plain;
      ghost var v := Abs();
      ghost var taken := Taken(v, s, epoch, claimed, cur);
      ghost var goal := Rebound(v, s, epoch, claimed);
      senderSlots, migrated := 0, 0;
      assert Count(claimed[..0]) == 0 == Count(taken[..0]) by { NoneCounted(claimed, taken); }
      assert |goal| == |taken| == |claimed| by { ReboundLength(v, s, epoch, claimed, cur); }
      for j := 0 to slots.Length
        invariant SlotsMatch(nodes, slots[..]) && OnlySlots() && v.nodes == Infos(nodes)
        invariant slots[..] == goal[..j] + v.slots[j..]
        invariant senderSlots == Count(claimed[..j]) && migrated == Count(taken[..j])
      {
        CountPrefix(claimed, j);
        CountPrefix(taken, j);
        ReboundAt(v, s, epoch, claimed, cur, j);
        assert slots[..][j] == v.slots[j];
        if claimed[j] {
          senderSlots := senderSlots + 1;
          var lost := ClaimSlot(v, s, epoch, j, cur);
          if lost {
            migrated := migrated + 1;
          }
        }
        Splice(goal, v.slots, j);
      }
      assert claimed[..|claimed|] == claimed && taken[..|taken|] == taken;
    }

    // The sender of a PING announces its role.
    method SwitchSenderRole(s: Id, slaveof: Option<Id>)
      requires Valid() && s in nodes && s != me && slaveof != Some(s)
      modifies this, slots
      ensures Valid() && Abs() == SwitchRole(old(Abs()), s, slaveof)
    {
      hide Linked, OwnersKnown, SlotsMatch, SlavesMatch, ListMatches;
      if slaveof == None {
        MakeMaster(s);
      } else {
        LoseMastership(s);
        ghost var v := Abs();
        if slaveof.value in nodes && nodes[s].slaveof != slaveof {
          LinkFacts(v, nodes, s);
          RelinkedMatches(nodes, slots[..], s, slaveof.value);
          RelinkOk(v, s, slaveof.value);
          Relink(s, slaveof.value);
        }
      }
    }

    // A master that turned replica loses its slots.
    method LoseMastership(s: Id)
      requires Valid() && s in nodes && s != me
      modifies this, slots
      ensures Valid() && Abs() == Unmastered(old(Abs()), s)
      ensures nodes.Keys == old(nodes.Keys) && !nodes[s].master
    {
      hide Linked, OwnersKnown, SlotsMatch, SlavesMatch;
      if nodes[s].master {
        ghost var v := Abs();
        UnmasteredOk(v, s);
        var deleted := DelNodeSlots(s);
        Reassigned(v, old(nodes), nodes, slots[..]);
        TouchMatches(nodes, slots[..], s, nodes[s].(master := false));
        nodes := nodes[s := nodes[s].(master := false)];
      }
    }

    // The winner of an election, or of a takeover, claims its master's slots.
    method FailoverReplaceYourMaster()
      requires Valid()
      modifies this, slots
      ensures Valid() && Abs() == ReplaceYourMaster(old(Abs()))
    {
      hide Linked, OwnersKnown, SlotsMatch, SlavesMatch, Bitmap;
      ghost var v := Abs();
      assert me in nodes by { MeKnown(v, nodes); }
      LinkFacts(v, nodes, me);
      if nodes[me].master || nodes[me].slaveof == None {
        return;
      }
      var oldmaster := nodes[me].slaveof.value;
      ReplaceYourMasterOk(v);
      MakeMaster(me);
      ghost var v1 := Abs();
      assert v1.nodes.Keys == v.nodes.Keys;
      assert oldmaster in Infos(nodes);
      label promoted:
      ClaimAll(oldmaster);
      Reassigned(v1, old@promoted(nodes), nodes, slots[..]);
    }

    method ClaimAll(oldmaster: Id)
      requires Tables() && SlotsMatch(nodes, slots[..]) && oldmaster in nodes && me in nodes && oldmaster != me
      modifies this, slots
      ensures SlotsMatch(nodes, slots[..]) && OnlySlots()
      ensures slots[..] == Inherited(old(slots[..]), oldmaster, me)
    {
      hide SlotsMatch, Plain;
      ghost var before := slots[..];
      ghost var goal := Inherited(before, oldmaster, me);
      for j := 0 to slots.Length
        invariant SlotsMatch(nodes, slots[..]) && OnlySlots()
        invariant slots[..] == goal[..j] + before[j..]
      {
        assert slots[..][j] == before[j];
        BitFacts(nodes, slots[..], oldmaster, j);
        if nodes[oldmaster].bits[j] {
          MoveSlot(j, me);
        }
        Splice(goal, before, j);
      }
    }

    // ------------------------------------------------------------------------ epochs

    // The header of any packet from a known node.
    method SeeHeader(h: Header)
      requires Valid() && h.sender in nodes
      modifies this
      ensures Valid() && Abs() == SeeEpochs(old(Abs()), h)
    {
      hide Linked, OwnersKnown, SlotsMatch, SlavesMatch;
      ghost var v := Abs();
      SeeEpochsOk(v, h);
      if h.currentEpoch > currentEpoch {
        currentEpoch := h.currentEpoch;
      }
      var n := nodes[h.sender];
      TouchMatches(nodes, slots[..], h.sender, n.(configEpoch := Max(n.configEpoch, h.configEpoch)));
      if h.configEpoch > n.configEpoch {
        nodes := nodes[h.sender := n.(configEpoch := h.configEpoch)];
      } else {
        assert nodes == nodes[h.sender := n.(configEpoch := Max(n.configEpoch, h.configEpoch))];
      }
    }

    method GetMaxEpoch() returns (max: nat)
      requires Valid()
      ensures max == MaxEpoch(Abs())
    {
      max := 0;
      ghost var v := Abs();
      var rest := nodes.Keys;
      ghost var seen: set<Id> := {};
      while rest != {}
        invariant rest + seen == nodes.Keys && rest !! seen
        invariant forall n :: n in seen ==> nodes[n].configEpoch <= max
        invariant max == 0 || exists n :: n in seen && nodes[n].configEpoch == max
        decreases rest
      {
        var n :| n in rest;
        if nodes[n].configEpoch > max {
          max := nodes[n].configEpoch;
        }
        rest, seen := rest - {n}, seen + {n};
      }
      if max < currentEpoch {
        max := currentEpoch;
      }
      assert forall n :: n in v.nodes ==> v.nodes[n].configEpoch == nodes[n].configEpoch;
    }

    method BumpConfigEpoch() returns (bumped: bool)
      requires Valid()
      modifies this
      ensures Valid() && Abs() == Bump(old(Abs()))
      ensures bumped == (Abs() != old(Abs()))
    {
      hide Linked, OwnersKnown, SlotsMatch, SlavesMatch, MaxEpoch;
      ghost var v := Abs();
      MeKnown(v, nodes);
      BumpOk(v);
      var maxEpoch := GetMaxEpoch();
      bumped := false;
      if nodes[me].configEpoch == 0 || nodes[me].configEpoch != maxEpoch {
        NewEpoch();
        bumped := true;
      }
    }

    // currentEpoch++, and this node's config epoch with it.
    method NewEpoch()
      requires Tables() && SlotsMatch(nodes, slots[..]) && SlavesMatch(nodes) && me in nodes
      modifies this
      ensures SlotsMatch(nodes, slots[..]) && SlavesMatch(nodes)
      ensures Abs() == WithEpoch(old(Abs()), me, old(currentEpoch) + 1).(currentEpoch := old(currentEpoch) + 1)
    {
      hide SlotsMatch, SlavesMatch;
      TouchMatches(nodes, slots[..], me, nodes[me].(configEpoch := currentEpoch + 1));
      currentEpoch := currentEpoch + 1;
      nodes := nodes[me := nodes[me].(configEpoch := currentEpoch)];
    }

    method HandleConfigEpochCollision(s: Id)
      requires Valid() && s in nodes
      modifies this
      ensures Valid() && Abs() == HandleCollision(old(Abs()), s)
    {
      hide Linked, OwnersKnown, SlotsMatch, SlavesMatch;
      ghost var v := Abs();
      MeKnown(v, nodes);
      CollisionOk(v, s);
      if nodes[s].configEpoch != nodes[me].configEpoch || !nodes[s].master || !nodes[me].master {
        return;
      }
      if s <= me {
        return;
      }
      NewEpoch();
    }

    // ----------------------------------------------------------------------- packets

    method BuildMessageHdr() returns (h: Header)
      requires Valid()
      ensures h == BuildHeader(Abs())
    {
      hide SlavesMatch;
      ghost var v := Abs();
      MeKnown(v, nodes);
      LinkFacts(v, nodes, me);
      var master := if !nodes[me].master && nodes[me].slaveof.Some? then nodes[me].slaveof.value else me;
      CountFacts(nodes, slots[..], master);
      h := Header(me, nodes[me].slaveof, currentEpoch, nodes[master].configEpoch, nodes[master].bits);
    }

    // Tell a sender with an outdated configuration about one newer owner of its slots.
    method SendCorrection(h: Header) returns (out: seq<Packet>)
      requires Valid() && |h.claimed| == slots.Length
      ensures out == Correction(Abs(), h, 0)
    {
      hide Linked, SlavesMatch, SlotsMatch;
      ghost var v := Abs();
      for j := 0 to slots.Length
        invariant Correction(v, h, 0) == Correction(v, h, j)
      {
        if h.claimed[j] {
          if slots[j] == Some(h.sender) || slots[j] == None {
            continue;
          }
          BitFacts(nodes, slots[..], slots[j].value, j);
          if nodes[slots[j].value].configEpoch > h.configEpoch {
            var owner := slots[j].value;
            CountFacts(nodes, slots[..], owner);
            var hdr := BuildMessageHdr();
            return [Packet(hdr, Update(owner, nodes[owner].configEpoch, nodes[owner].bits))];
          }
        }
      }
      out := [];
    }

    // PING and PONG from a known node.
    method ProcessPing(h: Header, allowMigration: bool) returns (alive: bool, out: seq<Packet>)
      requires Valid() && h.sender in nodes && h.sender != me
      requires h.slaveof != Some(h.sender) && |h.claimed| == slots.Length
      modifies Repr
      ensures Valid() && alive == !Fails(PingReaches(old(Abs()), h, allowMigration))
      ensures alive ==> Abs() == HandlePing(old(Abs()), h, allowMigration).0
      ensures alive ==> out == HandlePing(old(Abs()), h, allowMigration).1
    {
      hide Linked, OwnersKnown, SlavesMatch, SlotsMatch, SwitchRole, UpdateSlots, ClaimReaches, Fails, Correction, Bitmap;
      ghost var v := Abs();
      var s := h.sender;
      SwitchRoleOk(v, s, h.slaveof);
      ReconfigureOk(v, h, allowMigration);
      SwitchSenderRole(s, h.slaveof);
      assert Infos(nodes).Keys == nodes.Keys == v.nodes.Keys;
      LinkFacts(Abs(), nodes, s);
      var claimant := if nodes[s].master then Some(s) else nodes[s].slaveof;
      var dirty := false;
      if claimant.Some? {
        CountFacts(nodes, slots[..], claimant.value);
        dirty := nodes[claimant.value].bits != h.claimed;
      }
      NoneReached();
      alive, out := true, [];
      if nodes[s].master && dirty {
        alive := UpdateSlotsConfigWith(s, h.configEpoch, h.claimed, allowMigration);
        if !alive {
          return;
        }
      }
      assert Abs() == Reconfigure(v, h, allowMigration);
      assert Infos(nodes).Keys == nodes.Keys == v.nodes.Keys;
      if dirty {
        out := SendCorrection(h);
      }
      if nodes[me].master && nodes[s].master && h.configEpoch == nodes[me].configEpoch {
        HandleConfigEpochCollision(s);
      }
    }

    method ProcessUpdate(about: Id, epoch: nat, served: seq<bool>, allowMigration: bool) returns (alive: bool)
      requires Valid() && |served| == slots.Length
      modifies Repr
      ensures Valid() && alive == !Fails(UpdateReaches(old(Abs()), about, epoch, served, allowMigration))
      ensures alive ==> Abs() == HandleUpdate(old(Abs()), about, epoch, served, allowMigration)
    {
      hide Linked, OwnersKnown, SlavesMatch, SlotsMatch, UpdateSlots, ClaimReaches, Fails;
      NoneReached();
      if about !in nodes || nodes[about].configEpoch >= epoch {
        return true;
      }
      ghost var v := Abs();
      if !nodes[about].master {
        MakeMaster(about);
      }
      ghost var v1 := if v.nodes[about].master then v else SetNodeAsMaster(v, about);
      assert Abs() == v1;
      assert Infos(nodes).Keys == nodes.Keys == v.nodes.Keys;
      SetEpoch(about, epoch);
      alive := UpdateSlotsConfigWith(about, epoch, served, allowMigration);
    }

    method SetEpoch(n: Id, epoch: nat)
      requires Valid() && n in nodes
      modifies this`nodes
      ensures Valid() && Abs() == WithEpoch(old(Abs()), n, epoch) && n in nodes
    {
      hide Linked, OwnersKnown, SlavesMatch, SlotsMatch;
      WithEpochOk(Abs(), n, epoch);
      TouchMatches(nodes, slots[..], n, nodes[n].(configEpoch := epoch));
      nodes := nodes[n := nodes[n].(configEpoch := epoch)];
    }

    // ------------------------------------------------------------------------- votes

    method SendFailoverAuthIfNeeded(h: Header, force: bool, now: int, timeout: nat) returns (out: seq<Packet>)
      requires Valid() && h.sender in nodes && |h.claimed| == slots.Length
      modifies this
      ensures Valid()
      ensures var v := old(Abs());
              if GrantsVote(v, h, force, now, timeout)
              then Abs() == CastVote(v, h.sender, now) && out == [Packet(BuildHeader(Abs()), AuthAck)]
              else Abs() == v && out == []
    {
      hide Linked, OwnersKnown, SlavesMatch, SlotsMatch, Superseded, Serving;
      ghost var v := Abs();
      MeKnown(v, nodes);
      LinkFacts(v, nodes, h.sender);
      assert (nodes[me].numslots == 0) == !Serving(v, me) by {
        CountFacts(nodes, slots[..], me);
        ServingIsPositive(v, me);
      }
      var node := nodes[h.sender];
      if !nodes[me].master || nodes[me].numslots == 0 { return []; }
      if h.currentEpoch < currentEpoch { return []; }
      if lastVoteEpoch == currentEpoch { return []; }
      if node.master || node.slaveof == None { return []; }
      var master := node.slaveof.value;
      if !nodes[master].failed && !force { return []; }
      if now - nodes[master].votedTime < timeout * 2 { return []; }
      var denied := DeniedBySlots(h);
      if denied { return []; }
      CastVoteOk(v, h.sender, now);
      TouchMatches(nodes, slots[..], master, nodes[master].(votedTime := now));
      lastVoteEpoch := currentEpoch;
      nodes := nodes[master := nodes[master].(votedTime := now)];
      var hdr := BuildMessageHdr();
      out := [Packet(hdr, AuthAck)];
    }

    method DeniedBySlots(h: Header) returns (denied: bool)
      requires Valid() && |h.claimed| == slots.Length
      ensures denied == Superseded(Abs(), h)
    {
      hide Linked, SlavesMatch, SlotsMatch;
      ghost var v := Abs();
      for j := 0 to slots.Length
        invariant forall k :: 0 <= k < j ==>
                    !(h.claimed[k] && v.slots[k].Some? && v.nodes[v.slots[k].value].configEpoch > h.configEpoch)
      {
        if !h.claimed[j] {
          continue;
        }
        if slots[j].Some? {
          BitFacts(nodes, slots[..], slots[j].value, j);
        }
        assert v.slots[j] == slots[j];
        if slots[j] == None || nodes[slots[j].value].configEpoch <= h.configEpoch {
          continue;
        }
        return true;
      }
      denied := false;
    }

    // ------------------------------------------------------------- the packet handler

    method ProcessPacketBody(p: Packet, env: Env) returns (alive: bool, out: seq<Packet>)
      requires Valid() && Receivable(Abs(), p) && p.hdr.sender in nodes
      modifies Repr
      ensures Valid() && alive == !Fails(BodyReaches(old(Abs()), p, env))
      ensures alive ==> Abs() == ProcessBody(old(Abs()), p, env).0 && out == ProcessBody(old(Abs()), p, env).1
    {
      hide Linked, OwnersKnown, SlavesMatch, SlotsMatch, HandlePing, HandleUpdate, GrantsVote, BuildHeader;
      hide PingReaches, UpdateReaches, Fails;
      ghost var v := Abs();
      NoneReached();
      alive, out := true, [];
      match p.body
      case Ping => alive, out := ProcessPing(p.hdr, env.allowMigration);
      case Pong => alive, out := ProcessPing(p.hdr, env.allowMigration);
      case Update(about, epoch, served) => alive := ProcessUpdate(about, epoch, served, env.allowMigration);
      case Fail(failing) => FlagFailed(failing);
      case AuthRequest(force) => out := SendFailoverAuthIfNeeded(p.hdr, force, env.now, env.timeout);
      case AuthAck =>
        if nodes[p.hdr.sender].master && nodes[p.hdr.sender].numslots > 0 && p.hdr.currentEpoch >= authEpoch {
          authCount := authCount + 1;
        }
        CountFacts(old(nodes), slots[..], p.hdr.sender);
        ServingIsPositive(v, p.hdr.sender);
    }

    method FlagFailed(failing: Id)
      requires Valid()
      modifies this`nodes
      ensures Valid() && Abs() == MarkFailed(old(Abs()), failing)
    {
      hide Linked, OwnersKnown, SlavesMatch, SlotsMatch;
      if failing in nodes && failing != me {
        MarkFailedOk(Abs(), failing);
        TouchMatches(nodes, slots[..], failing, nodes[failing].(failed := true));
        nodes := nodes[failing := nodes[failing].(failed := true)];
      }
    }

    // `alive` is false when the program stopped at a failed assertion.
    method ProcessPacket(p: Packet, env: Env) returns (alive: bool, out: seq<Packet>)
      requires Valid() && Receivable(Abs(), p)
      modifies Repr
      ensures Valid() && alive == !Fails(PacketReaches(old(Abs()), p, env))
      ensures alive ==> Abs() == Process(old(Abs()), p, env).0 && out == Process(old(Abs()), p, env).1
    {
      hide Linked, OwnersKnown, SlavesMatch, SlotsMatch, ProcessBody, BuildHeader, BodyReaches, Fails;
      ghost var v := Abs();
      NoneReached();
      ProcessOk(v, p, env);
      var pong := [];
      if p.hdr.sender !in nodes {
        if p.body.Ping? {
          var hdr := BuildMessageHdr();
          pong := [Packet(hdr, Pong)];
        }
        return true, pong;
      }
      SeeEpochsOk(v, p.hdr);
      MeKnown(v, nodes);
      SeeHeader(p.hdr);
      assert Infos(nodes).Keys == nodes.Keys == v.nodes.Keys;
      if p.body.Ping? {
        var hdr := BuildMessageHdr();
        pong := [Packet(hdr, Pong)];
      }
      var sent;
      alive, sent := ProcessPacketBody(p, env);
      out := pong + (if env.linked then sent else []);
    }

    // ----------------------------------------------------------------------- commands

    method ReplicateCommand(m: Id, hasKeys: bool) returns (alive: bool, done: bool)
      requires Valid()
      modifies Repr
      ensures Valid() && alive == !Fails(ReplicateReaches(old(Abs()), m, hasKeys))
      ensures done == (alive && !ReplicateRefused(old(Abs()), m, hasKeys))
      ensures alive ==> Abs() == Replicate(old(Abs()), m, hasKeys)
    {
      hide Linked, OwnersKnown, SlavesMatch, SlotsMatch, Bitmap;
      MeKnown(Abs(), nodes);
      CountFacts(nodes, slots[..], me);
      if m !in nodes || m == me || !nodes[m].master {
        return true, false;
      }
      if nodes[me].master && (nodes[me].numslots != 0 || hasKeys) {
        return true, false;
      }
      alive := BecomeReplica(m);
      done := alive;
    }

    // SETSLOT; `hasKeys` says whether this node holds keys of the slot.
    method SetSlotCommand(j: nat, cmd: SlotCommand, hasKeys: bool) returns (done: bool)
      requires Valid()
      modifies Repr
      ensures Valid() && (j >= slots.Length ==> !done && Abs() == old(Abs()))
      ensures j < slots.Length ==> done == !SetSlotRefused(old(Abs()), j, cmd, hasKeys)
      ensures j < slots.Length ==> Abs() == SetSlot(old(Abs()), j, cmd, hasKeys)
    {
      hide Linked, OwnersKnown, SlavesMatch, SlotsMatch, Bump;
      MeKnown(Abs(), nodes);
      if !nodes[me].master || j >= slots.Length {
        return false;
      }
      done := true;
      match cmd
      case Migrating(to) =>
        if slots[j] != Some(me) || to !in nodes {
          return false;
        }
        migrating[j] := Some(to);
      case Importing(from) =>
        if slots[j] == Some(me) || from !in nodes {
          return false;
        }
        importing[j] := Some(from);
      case Stable =>
        importing[j], migrating[j] := None, None;
      case Assign(owner) =>
        if owner !in nodes || (slots[j] == Some(me) && owner != me && hasKeys) {
          return false;
        }
        Hand(j, owner, hasKeys);
        if owner == me && importing[j].Some? {
          EndImport(j);
        }
    }

    // The slot to its new owner; a migration that has run out of keys is over.
    method Hand(j: nat, owner: Id, hasKeys: bool)
      requires Valid() && j < slots.Length && owner in nodes
      modifies Repr
      ensures Valid() && importing[..] == old(importing[..])
      ensures Abs() == old(Abs()).(slots := old(slots[..])[j := Some(owner)],
                                   migrating := if hasKeys then old(migrating[..]) else old(migrating[..])[j := None])
    {
      hide Linked, OwnersKnown, SlavesMatch, SlotsMatch;
      ghost var v := Abs();
      if !hasKeys && migrating[j].Some? {
        migrating[j] := None;
      }
      assert migrating[..] == if hasKeys then v.migrating else v.migrating[j := None];
      MoveSlot(j, owner);
      Reassigned(v.(migrating := migrating[..]), old(nodes), nodes, slots[..]);
    }

    // A new epoch, so that the news spreads.
    method EndImport(j: nat)
      requires Valid() && j < slots.Length
      modifies this, importing
      ensures Valid() && Abs() == Bump(old(Abs())).(importing := old(importing[..])[j := None])
    {
      hide Linked, OwnersKnown, SlavesMatch, SlotsMatch, MaxEpoch;
      var bumped := BumpConfigEpoch();
      importing[j] := None;
    }

    // ADDSLOTS and DELSLOTS mark the slots of the list, then change the marked ones.
    method AddDelSlots(js: seq<nat>, del: bool) returns (done: bool)
      requires Valid()
      modifies Repr
      ensures Valid() && done == !ChangeRefused(old(Abs()), js, del)
      ensures Abs() == ChangeSlots(old(Abs()), js, del)
    {
      hide Linked, OwnersKnown, SlavesMatch, SlotsMatch, ChangeRefused, Put;
      ghost var v := Abs();
      var marks := new bool[slots.Length](_ => false);
      done := MarkSlots(js, del, marks);
      if !done {
        return;
      }
      ChangeSlotsOk(v, js, del);
      MeKnown(v, nodes);
      AcceptedFacts(v, js, del);
      ApplyMarks(js, del, marks);
      Reassigned(v.(importing := importing[..]), old(nodes), nodes, slots[..]);
    }

    method MarkSlots(js: seq<nat>, del: bool, marks: array<bool>) returns (done: bool)
      requires marks.Length == slots.Length && forall j :: 0 <= j < marks.Length ==> !marks[j]
      modifies marks
      ensures done == !ChangeRefused(Abs(), js, del)
      ensures done ==> forall j :: 0 <= j < marks.Length ==> marks[j] == (j in js)
    {
      for i := 0 to |js|
        invariant forall k :: 0 <= k < i ==>
                    js[k] < slots.Length && slots[js[k]].Some? == del && js[k] !in js[..k]
        invariant forall j :: 0 <= j < marks.Length ==> marks[j] == (j in js[..i])
      {
        var slot := js[i];
        if slot >= slots.Length || slots[slot].Some? != del || marks[slot] {
          return false;
        }
        marks[slot] := true;
        assert js[..i + 1] == js[..i] + [slot];
      }
      assert js[..|js|] == js;
      done := true;
    }

    method ApplyMarks(js: seq<nat>, del: bool, marks: array<bool>)
      requires Tables() && SlotsMatch(nodes, slots[..]) && me in nodes && marks !in Repr && marks.Length == slots.Length
      requires forall j :: 0 <= j < marks.Length ==> marks[j] == (j in js)
      requires forall j :: 0 <= j < marks.Length && j in js ==> slots[j].Some? == del
      modifies Repr
      ensures SlotsMatch(nodes, slots[..]) && OnlyBits(old(nodes), nodes) && unchanged(migrating)
      ensures slots[..] == Put(old(slots[..]), js, if del then None else Some(me))
      ensures importing[..] == Put(old(importing[..]), js, None)
      ensures currentEpoch == old(currentEpoch) && lastVoteEpoch == old(lastVoteEpoch) && authEpoch == old(authEpoch)
      ensures authCount == old(authCount) && authSent == old(authSent) && size == old(size)
    {
      hide SlotsMatch, Put, Plain;
      ghost var s0, i0 := slots[..], importing[..];
      ghost var entry := if del then None else Some(me);
      for j := 0 to slots.Length
        invariant SlotsMatch(nodes, slots[..]) && OnlyBits(old(nodes), nodes) && unchanged(migrating)
        invariant slots[..] == Put(s0, js, entry)[..j] + s0[j..]
        invariant importing[..] == Put(i0, js, None)[..j] + i0[j..]
        invariant currentEpoch == old(currentEpoch) && lastVoteEpoch == old(lastVoteEpoch) && authEpoch == old(authEpoch)
        invariant authCount == old(authCount) && authSent == old(authSent) && size == old(size)
      {
        assert slots[..][j] == s0[j] && importing[..][j] == i0[j];
        PutAt(s0, js, entry, j);
        PutAt(i0, js, None, j);
        Splice(Put(s0, js, entry), s0, j);
        Splice(Put(i0, js, None), i0, j);
        OnlyBitsFacts(old(nodes), nodes);
        if marks[j] {
          ChangeSlot(j, del);
        }
      }
    }

    // The primitive never refuses: the assertion after it cannot fire.
    method ChangeSlot(j: nat, del: bool)
      requires Tables() && SlotsMatch(nodes, slots[..]) && me in nodes && j < slots.Length && slots[j].Some? == del
      modifies Repr
      ensures SlotsMatch(nodes, slots[..]) && OnlyBits(old(nodes), nodes) && unchanged(migrating)
      ensures slots[..] == old(slots[..])[j := if del then None else Some(me)]
      ensures importing[..] == old(importing[..])[j := None]
      ensures currentEpoch == old(currentEpoch) && lastVoteEpoch == old(lastVoteEpoch) && authEpoch == old(authEpoch)
      ensures authCount == old(authCount) && authSent == old(authSent) && size == old(size)
    {
      hide SlotsMatch, Plain;
      if importing[j].Some? {
        importing[j] := None;
      }
      var changed;
      if del {
        changed := DelSlot(j);
      } else {
        changed := AddSlot(me, j);
      }
      assert changed;
    }

    // ----------------------------------------------------------------- failover timer

    // One run of the failover timer.  The clock decides whether the last attempt is old
    // enough to be retried, still has to wait, or is too old to be completed.
    method HandleSlaveFailover(env: Env, retry: bool, waiting: bool, expired: bool) returns (out: seq<Packet>)
      requires Valid()
      modifies this, slots
      ensures Valid()
      ensures var v := old(Abs());
              if !MayFailover(v, env) then Abs() == v && out == []
              else if retry then Abs() == Rearm(v) && out == []
              else if waiting || expired then Abs() == v && out == []
              else if !v.authSent then
                Abs() == RequestVotes(v) && out == [Packet(BuildHeader(Abs()), AuthRequest(env.manual))]
              else if Elected(v) then Abs() == TakeOver(v) && out == []
              else Abs() == v && out == []
    {
      hide Linked, OwnersKnown, SlavesMatch, SlotsMatch, Serving, ReplaceYourMaster;
      ghost var v := Abs();
      out := [];
      MeKnown(v, nodes);
      LinkFacts(v, nodes, me);
      if nodes[me].master || nodes[me].slaveof == None {
        return;
      }
      var master := nodes[me].slaveof.value;
      assert (nodes[master].numslots == 0) == !Serving(v, master) by {
        CountFacts(nodes, slots[..], master);
        ServingIsPositive(v, master);
      }
      if (!nodes[master].failed && !env.manual) || (env.noFailover && !env.manual) || nodes[master].numslots == 0 {
        return;
      }
      if retry {
        authCount, authSent := 0, false;
        return;
      }
      if waiting || expired {
        return;
      }
      if !authSent {
        currentEpoch := currentEpoch + 1;
        authEpoch := currentEpoch;
        var hdr := BuildMessageHdr();
        out := [Packet(hdr, AuthRequest(env.manual))];
        authSent := true;
        return;
      }
      if authCount >= size / 2 + 1 {
        var epoch := if nodes[me].configEpoch < authEpoch then authEpoch else nodes[me].configEpoch;
        SetEpoch(me, epoch);
        FailoverReplaceYourMaster();
      }
    }

    // -------------------------------------------------------------------- membership

    // Remove a node other than this one and its master.
    method DelNode(n: Id)
      requires Valid() && n in nodes && n != me && nodes[me].slaveof != Some(n)
      modifies Repr
      ensures Valid() && Abs() == Forget(old(Abs()), n)
    {
      hide Linked, OwnersKnown, SlavesMatch, SlotsMatch, Without, Closed, Erased;
      ghost var v := Abs();
      MeKnown(v, nodes);
      assert v.nodes[me].slaveof == nodes[me].slaveof;
      ForgetOk(v, n);
      LinkFacts(v, nodes, n);
      CloseSlotsOf(n);
      OnlyBitsFacts(old(nodes), nodes);
      SameLinksMatch(old(nodes), nodes);
      ClosedFree(v.slots, n);
      ErasedMatches(nodes, slots[..], n);
      FreeNode(n);
    }

    method CloseSlotsOf(n: Id)
      requires Tables() && SlotsMatch(nodes, slots[..]) && n in nodes
      modifies Repr
      ensures SlotsMatch(nodes, slots[..]) && OnlyBits(old(nodes), nodes)
      ensures slots[..] == Closed(old(slots[..]), n)
      ensures importing[..] == Closed(old(importing[..]), n) && migrating[..] == Closed(old(migrating[..]), n)
      ensures currentEpoch == old(currentEpoch) && lastVoteEpoch == old(lastVoteEpoch) && authEpoch == old(authEpoch)
      ensures authCount == old(authCount) && authSent == old(authSent) && size == old(size)
    {
      hide SlotsMatch, Closed, Plain;
      ghost var s0, i0, m0 := slots[..], importing[..], migrating[..];
      ClosedAll(s0, i0, m0, n);
      for j := 0 to slots.Length
        invariant SlotsMatch(nodes, slots[..]) && OnlyBits(old(nodes), nodes)
        invariant slots[..] == Closed(s0, n)[..j] + s0[j..]
        invariant importing[..] == Closed(i0, n)[..j] + i0[j..]
        invariant migrating[..] == Closed(m0, n)[..j] + m0[j..]
        invariant currentEpoch == old(currentEpoch) && lastVoteEpoch == old(lastVoteEpoch) && authEpoch == old(authEpoch)
        invariant authCount == old(authCount) && authSent == old(authSent) && size == old(size)
      {
        assert slots[..][j] == s0[j] && importing[..][j] == i0[j] && migrating[..][j] == m0[j];
        ClosedAt(s0, n, j);
        ClosedAt(i0, n, j);
        ClosedAt(m0, n, j);
        Splice(Closed(s0, n), s0, j);
        Splice(Closed(i0, n), i0, j);
        Splice(Closed(m0, n), m0, j);
        CloseSlot(n, j);
      }
    }

    method CloseSlot(n: Id, j: nat)
      requires Tables() && SlotsMatch(nodes, slots[..]) && j < slots.Length
      modifies Repr
      ensures SlotsMatch(nodes, slots[..]) && OnlyBits(old(nodes), nodes)
      ensures slots[..] == old(slots[..])[j := if old(slots[j]) == Some(n) then None else old(slots[j])]
      ensures importing[..] == old(importing[..])[j := if old(importing[j]) == Some(n) then None else old(importing[j])]
      ensures migrating[..] == old(migrating[..])[j := if old(migrating[j]) == Some(n) then None else old(migrating[j])]
      ensures currentEpoch == old(currentEpoch) && lastVoteEpoch == old(lastVoteEpoch) && authEpoch == old(authEpoch)
      ensures authCount == old(authCount) && authSent == old(authSent) && size == old(size)
    {
      hide SlotsMatch, Plain;
      if importing[j] == Some(n) {
        importing[j] := None;
      }
      if migrating[j] == Some(n) {
        migrating[j] := None;
      }
      if slots[j] == Some(n) {
        var gone := DelSlot(j);
      }
    }

    // Its replicas lose their master, its master loses a replica, and the entry goes.
    method FreeNode(n: Id)
      requires n in nodes && SlavesMatch(nodes)
      requires nodes[n].slaveof.Some? ==> nodes[n].slaveof.value in nodes && nodes[n].slaveof.value != n
      modifies this`nodes
      ensures nodes == Erased(old(nodes), n)
    {
      hide Drop;
      assert ListMatches(nodes, n);
      var slaves := nodes[n].slaves;
      for j := 0 to |slaves|
        invariant nodes == Orphaned(old(nodes), slaves[..j])
      {
        assert slaves[..j + 1] == slaves[..j] + [slaves[j]];
        assert slaves[j] in nodes[n].slaves;
        nodes := nodes[slaves[j] := nodes[slaves[j]].(slaveof := None)];
      }
      assert slaves[..|slaves|] == slaves;
      if nodes[n].slaveof.Some? {
        var ok := RemoveSlave(nodes[n].slaveof.value, n);
      }
      nodes := nodes - {n};
    }

    constructor (me: Id, slotCount: nat)
      ensures Valid() && fresh(Repr)
      ensures Abs() == FirstView(me, slotCount)
    {
      this.me := me;
      var table := new Option<Id>[slotCount](_ => None);
      var imports := new Option<Id>[slotCount](_ => None);
      var migrations := new Option<Id>[slotCount](_ => None);
      slots, importing, migrating := table, imports, migrations;
      Repr := {this, table, imports, migrations};
      nodes := map[me := Lonely(slotCount)];
      currentEpoch, lastVoteEpoch, authEpoch, authCount, authSent, size := 0, 0, 0, 0, false, 1;
      new;
      hide SlotsMatch, SlavesMatch, Ok, Infos, Lonely;
      LonelyMatches(me, slotCount);
      assert slots[..] == importing[..] == migrating[..] == AllClosed(slotCount);
    }
  }

  function Orphaned(nodes: map<Id, Node>, slaves: seq<Id>): map<Id, Node> {
    map k | k in nodes :: if k in slaves then nodes[k].(slaveof := None) else nodes[k]
  }

  function Erased(nodes: map<Id, Node>, n: Id): map<Id, Node>
    requires n in nodes
  {
    var nodes1 := Orphaned(nodes, nodes[n].slaves);
    var nodes2 := match nodes1[n].slaveof
                  case Some(m) =>
                    if m in nodes1 then nodes1[m := nodes1[m].(slaves := Drop(nodes1[m].slaves, n))] else nodes1
                  case None => nodes1;
    nodes2 - {n}
  }

  lemma ErasedAt(nodes: map<Id, Node>, n: Id, k: Id)
    requires n in nodes && n !in nodes[n].slaves
    requires nodes[n].slaveof.Some? ==> nodes[n].slaveof.value in nodes && nodes[n].slaveof.value != n
    ensures (k in Erased(nodes, n)) == (k in nodes && k != n)
    ensures k in nodes && k != n ==> Erased(nodes, n)[k] == nodes[k].(
              slaveof := if k in nodes[n].slaves then None else nodes[k].slaveof,
              slaves := if nodes[n].slaveof == Some(k) then Drop(nodes[k].slaves, n) else nodes[k].slaves)
  {
    hide Drop;
  }

  lemma ErasedMatches(nodes: map<Id, Node>, slots: seq<Option<Id>>, n: Id)
    requires SlotsMatch(nodes, slots) && SlavesMatch(nodes) && n in nodes
    requires nodes[n].slaveof.Some? ==> nodes[n].slaveof.value in nodes && nodes[n].slaveof.value != n
    requires forall j :: 0 <= j < |slots| ==> slots[j] != Some(n)
    ensures SlotsMatch(Erased(nodes, n), slots) && SlavesMatch(Erased(nodes, n))
    ensures Infos(Erased(nodes, n)) == Without(Infos(nodes), n)
  {
    hide Drop, Erased, Bitmap, Count;
    assert ListMatches(nodes, n);
    forall k ensures (k in Erased(nodes, n)) == (k in nodes && k != n) {
      ErasedAt(nodes, n, k);
    }
    forall m | m in nodes && m != n ensures ListMatches(Erased(nodes, n), m) {
      ErasedList(nodes, n, m);
    }
    forall k | k in nodes && k != n
      ensures Erased(nodes, n)[k].bits == nodes[k].bits && Erased(nodes, n)[k].numslots == nodes[k].numslots
      ensures ToInfo(Erased(nodes, n)[k])
           == if nodes[k].slaveof == Some(n) then ToInfo(nodes[k]).(slaveof := None) else ToInfo(nodes[k])
    {
      ErasedAt(nodes, n, k);
    }
  }

  lemma ErasedList(nodes: map<Id, Node>, n: Id, m: Id)
    requires SlavesMatch(nodes) && n in nodes && m in nodes && m != n && m in Erased(nodes, n)
    requires nodes[n].slaveof.Some? ==> nodes[n].slaveof.value in nodes && nodes[n].slaveof.value != n
    ensures ListMatches(Erased(nodes, n), m)
  {
    hide Drop, Erased;
    assert ListMatches(nodes, n) && ListMatches(nodes, m);
    DropDistinct(nodes[m].slaves, n);
    ErasedAt(nodes, n, m);
    forall s ensures s in Erased(nodes, n)[m].slaves <==> s in Erased(nodes, n) && Erased(nodes, n)[s].slaveof == Some(m) {
      ErasedAt(nodes, n, s);
    }
  }

  lemma ClosedFree(s: seq<Option<Id>>, n: Id)
    ensures forall j :: 0 <= j < |Closed(s, n)| ==> Closed(s, n)[j] != Some(n)
  {}

  lemma AcceptedFacts(v: View, js: seq<nat>, del: bool)
    requires !ChangeRefused(v, js, del)
    ensures forall j :: 0 <= j < |v.slots| && j in js ==> v.slots[j].Some? == del
  {
    forall j | 0 <= j < |v.slots| && j in js ensures v.slots[j].Some? == del {
      var i :| 0 <= i < |js| && js[i] == j;
      assert !(js[i] >= |v.slots| || v.slots[js[i]].Some? != del || js[i] in js[..i]);
    }
  }

  lemma PutAt(table: seq<Option<Id>>, js: seq<nat>, entry: Option<Id>, j: nat)
    requires j < |table|
    ensures Put(table, js, entry)[j] == if j in js then entry else table[j]
  {}

  lemma ClosedAll(s: seq<Option<Id>>, i: seq<Option<Id>>, m: seq<Option<Id>>, n: Id)
    ensures |Closed(s, n)| == |s| && |Closed(i, n)| == |i| && |Closed(m, n)| == |m|
  {}

  lemma ClosedAt(s: seq<Option<Id>>, n: Id, j: nat)
    requires j < |s|
    ensures |Closed(s, n)| == |s| && Closed(s, n)[j] == if s[j] == Some(n) then None else s[j]
  {}

  function Lonely(slotCount: nat): Node {
    Node(true, None, [], seq(slotCount, _ => false), 0, 0, false, 0)
  }

  // A node alone: a master serving nothing.
  function FirstView(me: Id, slotCount: nat): View {
    View(me, map[me := Info(true, None, 0, false, 0)], AllClosed(slotCount), AllClosed(slotCount),
         AllClosed(slotCount), 0, 0, 0, 0, false, 1)
  }

  lemma LonelyMatches(me: Id, slotCount: nat)
    ensures SlotsMatch(map[me := Lonely(slotCount)], AllClosed(slotCount))
    ensures SlavesMatch(map[me := Lonely(slotCount)])
    ensures Infos(map[me := Lonely(slotCount)]) == FirstView(me, slotCount).nodes && Ok(FirstView(me, slotCount))
  {
    CountZero(seq(slotCount, _ => false));
    assert Bitmap(AllClosed(slotCount), me) == seq(slotCount, _ => false);
  }

  lemma WithEpochOk(v: View, n: Id, epoch: nat)
    requires Ok(v) && n in v.nodes
    ensures Keeps(v, WithEpoch(v, n, epoch))
  {}

  lemma NoneReached()
    ensures !Fails(None)
  {}

  lemma ReboundKnown(v: View, s: Id, epoch: nat, claimed: seq<bool>)
    requires Ok(v) && s in v.nodes && |claimed| == |v.slots|
    ensures Ok(v.(slots := Rebound(v, s, epoch, claimed)))
  {}

  lemma CollisionOk(v: View, s: Id)
    requires Ok(v) && s in v.nodes
    ensures Keeps(v, HandleCollision(v, s))
  {}

  lemma MeKnown(v: View, nodes: map<Id, Node>)
    requires Ok(v) && v.nodes == Infos(nodes)
    ensures v.me in nodes
  {
    assert v.me in v.nodes;
  }

  // A change to one node that leaves its bitmap and its links alone.
  lemma TouchMatches(nodes: map<Id, Node>, slots: seq<Option<Id>>, n: Id, x: Node)
    requires SlotsMatch(nodes, slots) && SlavesMatch(nodes) && n in nodes
    requires x.bits == nodes[n].bits && x.numslots == nodes[n].numslots
    requires x.slaves == nodes[n].slaves && x.slaveof == nodes[n].slaveof
    ensures SlotsMatch(nodes[n := x], slots) && SlavesMatch(nodes[n := x])
    ensures Infos(nodes[n := x]) == Infos(nodes)[n := ToInfo(x)]
  {
    SameLinksMatch(nodes, nodes[n := x]);
    InfosUpdate(nodes, n, x);
  }

  lemma NoneCounted(a: seq<bool>, b: seq<bool>)
    ensures Count(a[..0]) == 0 == Count(b[..0])
  {}

  lemma ReboundLength(v: View, s: Id, epoch: nat, claimed: seq<bool>, cur: Option<Id>)
    requires Ok(v) && |claimed| == |v.slots|
    ensures |Rebound(v, s, epoch, claimed)| == |Taken(v, s, epoch, claimed, cur)| == |claimed|
  {}

  lemma ReboundAt(v: View, s: Id, epoch: nat, claimed: seq<bool>, cur: Option<Id>, j: nat)
    requires Ok(v) && |claimed| == |v.slots| && j < |claimed|
    ensures |Rebound(v, s, epoch, claimed)| == |Taken(v, s, epoch, claimed, cur)| == |claimed|
    ensures Rebound(v, s, epoch, claimed)[j]
         == if claimed[j] && Rebinds(v, s, epoch, j) then Some(s) else v.slots[j]
    ensures Taken(v, s, epoch, claimed, cur)[j] == (claimed[j] && Rebinds(v, s, epoch, j) && v.slots[j] == cur)
  {}

  // The view after only the slot table and the bitmaps have changed.
  lemma Reassigned(v: View, nodes: map<Id, Node>, nodes': map<Id, Node>, slots: seq<Option<Id>>)
    requires OnlyBits(nodes, nodes') && SlotsMatch(nodes', slots) && SlavesMatch(nodes)
    requires Ok(v) && v.nodes == Infos(nodes) && |slots| == |v.slots|
    ensures Infos(nodes') == Infos(nodes) && SlavesMatch(nodes') && Ok(v.(slots := slots)) && nodes'.Keys == nodes.Keys
  {
    OnlyBitsFacts(nodes, nodes');
    SameLinksMatch(nodes, nodes');
    assert OwnersKnown(slots, v.nodes);
  }

  function Demoted(nodes: map<Id, Node>, me: Id, n: Id): map<Id, Node>
    requires n in nodes && me in nodes
  {
    Relinked(nodes[me := nodes[me].(master := false)], me, n)
  }

  lemma DemotedMatches(nodes: map<Id, Node>, slots: seq<Option<Id>>, me: Id, n: Id)
    requires SlotsMatch(nodes, slots) && SlavesMatch(nodes) && n in nodes && me in nodes && n != me
    requires nodes[me].slaveof.Some? ==> nodes[me].slaveof.value in nodes && nodes[me].slaveof.value != me
    ensures SlotsMatch(Demoted(nodes, me, n), slots) && SlavesMatch(Demoted(nodes, me, n))
    ensures Infos(Demoted(nodes, me, n)) == Infos(nodes)[me := ToInfo(nodes[me]).(master := false, slaveof := Some(n))]
  {
    hide SlotsMatch, SlavesMatch, Relinked, Infos;
    var nodes1 := nodes[me := nodes[me].(master := false)];
    InfosUpdate(nodes, me, nodes[me].(master := false));
    SameLinksMatch(nodes, nodes1);
    SameBitsMatch(nodes, nodes1, slots);
    RelinkedMatches(nodes1, slots, me, n);
  }

  function Relinked(nodes: map<Id, Node>, n: Id, m: Id): map<Id, Node>
    requires n in nodes && m in nodes
  {
    var nodes1 := Unlinked(nodes, n);
    LinkedTo(nodes1, n, m)
  }

  lemma LinkedFields(nodes: map<Id, Node>, n: Id, m: Id)
    requires n in nodes && m in nodes && n != m
    ensures SameBits(nodes, LinkedTo(nodes, n, m))
    ensures Infos(LinkedTo(nodes, n, m)) == Infos(nodes)[n := ToInfo(nodes[n]).(slaveof := Some(m))]
  {}

  lemma RelinkedMatches(nodes: map<Id, Node>, slots: seq<Option<Id>>, n: Id, m: Id)
    requires SlotsMatch(nodes, slots) && SlavesMatch(nodes) && n in nodes && m in nodes && n != m
    requires nodes[n].slaveof.Some? ==> nodes[n].slaveof.value in nodes && nodes[n].slaveof.value != n
    ensures SlotsMatch(Relinked(nodes, n, m), slots) && SlavesMatch(Relinked(nodes, n, m))
    ensures Infos(Relinked(nodes, n, m)) == Infos(nodes)[n := ToInfo(nodes[n]).(slaveof := Some(m))]
  {
    hide SlotsMatch, SlavesMatch, Unlinked, LinkedTo, Infos;
    var nodes1 := Unlinked(nodes, n);
    UnlinkedFields(nodes, n);
    UnlinkMatches(nodes, n);
    LinkMatches(nodes1, n, m);
    LinkedFields(nodes1, n, m);
    SameBitsMatch(nodes, nodes1, slots);
    SameBitsMatch(nodes1, Relinked(nodes, n, m), slots);
  }

  function Promoted(nodes: map<Id, Node>, n: Id): map<Id, Node>
    requires n in nodes
  {
    var nodes1 := Unlinked(nodes, n);
    nodes1[n := nodes1[n].(master := true, slaveof := None)]
  }

  lemma UnlinkedFields(nodes: map<Id, Node>, n: Id)
    requires n in nodes
    requires nodes[n].slaveof.Some? ==> nodes[n].slaveof.value in nodes && nodes[n].slaveof.value != n
    ensures SameBits(nodes, Unlinked(nodes, n))
    ensures Infos(Unlinked(nodes, n)) == Infos(nodes)[n := ToInfo(nodes[n]).(slaveof := None)]
    ensures Unlinked(nodes, n)[n] == nodes[n].(slaveof := None)
  {
    hide Drop;
  }

  lemma PromotedMatches(nodes: map<Id, Node>, slots: seq<Option<Id>>, n: Id)
    requires SlotsMatch(nodes, slots) && SlavesMatch(nodes) && n in nodes
    requires nodes[n].slaveof.Some? ==> nodes[n].slaveof.value in nodes && nodes[n].slaveof.value != n
    ensures SlotsMatch(Promoted(nodes, n), slots) && SlavesMatch(Promoted(nodes, n))
    ensures Infos(Promoted(nodes, n)) == Infos(nodes)[n := ToInfo(nodes[n]).(master := true, slaveof := None)]
  {
    hide SlotsMatch, SlavesMatch, Unlinked, Infos;
    var nodes1 := Unlinked(nodes, n);
    UnlinkedFields(nodes, n);
    UnlinkMatches(nodes, n);
    InfosUpdate(nodes1, n, nodes1[n].(master := true, slaveof := None));
    SameLinksMatch(nodes1, Promoted(nodes, n));
    SameBitsMatch(nodes, Promoted(nodes, n), slots);
  }

  lemma LinkFacts(v: View, nodes: map<Id, Node>, n: Id)
    requires Ok(v) && v.nodes == Infos(nodes) && n in nodes
    ensures nodes[n].slaveof.Some? ==> nodes[n].slaveof.value in nodes && nodes[n].slaveof.value != n
    ensures nodes[n].master ==> nodes[n].slaveof == None
    ensures v.me in nodes && (nodes[v.me].master || nodes[v.me].slaveof.Some?)
  {
    assert n in v.nodes && v.nodes[n] == ToInfo(nodes[n]);
    assert v.nodes[v.me] == ToInfo(nodes[v.me]);
  }

  lemma BitFacts(nodes: map<Id, Node>, slots: seq<Option<Id>>, n: Id, j: nat)
    requires SlotsMatch(nodes, slots) && j < |slots| && (n in nodes || slots[j] == Some(n))
    ensures n in nodes && |nodes[n].bits| == |slots| && nodes[n].bits[j] == (slots[j] == Some(n))
  {}

  lemma CountFacts(nodes: map<Id, Node>, slots: seq<Option<Id>>, n: Id)
    requires SlotsMatch(nodes, slots) && n in nodes
    ensures nodes[n].bits == Bitmap(slots, n) && nodes[n].numslots == Count(Bitmap(slots, n))
  {}

  // Binding a free slot, and freeing a bound one, keep table and bitmaps in step.
  lemma BindMatches(nodes: map<Id, Node>, slots: seq<Option<Id>>, n: Id, j: nat)
    requires SlotsMatch(nodes, slots) && n in nodes && j < |slots| && slots[j] == None
    ensures SlotsMatch(nodes[n := nodes[n].(bits := nodes[n].bits[j := true], numslots := nodes[n].numslots + 1)],
                       slots[j := Some(n)])
  {
    hide Count;
    CountUpdate(nodes[n].bits, j, true);
    forall k | k in nodes
      ensures Bitmap(slots[j := Some(n)], k) == if k == n then nodes[n].bits[j := true] else nodes[k].bits
    {
    }
  }

  lemma UnbindMatches(nodes: map<Id, Node>, slots: seq<Option<Id>>, n: Id, j: nat)
    requires SlotsMatch(nodes, slots) && n in nodes && j < |slots| && slots[j] == Some(n)
    ensures SlotsMatch(nodes[n := nodes[n].(bits := nodes[n].bits[j := false], numslots := nodes[n].numslots - 1)],
                       slots[j := None])
  {
    hide Count;
    CountUpdate(nodes[n].bits, j, false);
    forall k | k in nodes
      ensures Bitmap(slots[j := None], k) == if k == n then nodes[n].bits[j := false] else nodes[k].bits
    {
    }
  }
}
