/**
What an operator's commands do to slots and roles, and what they refuse: SETSLOT, ADDSLOTS,
DELSLOTS, REPLICATE and FORGET.
*/
module SlotOrders {
  import opened Options
  import opened ClusterView
  import S = ClusterState

  // ---------------------------------------------------------------------------- SETSLOT

  // Everything about the other slots, and everybody's role, is as before.
  ghost predicate OnlySlot(v: View, v': View, j: nat) {
    && |v'.slots| == |v.slots| == |v.importing| == |v'.importing| == |v.migrating| == |v'.migrating|
    && (forall k :: 0 <= k < |v.slots| && k != j ==>
          v'.slots[k] == v.slots[k] && v'.importing[k] == v.importing[k] && v'.migrating[k] == v.migrating[k])
    && v'.me == v.me && v'.nodes.Keys == v.nodes.Keys
    && (forall n :: n in v.nodes ==> v'.nodes[n].master == v.nodes[n].master && v'.nodes[n].slaveof == v.nodes[n].slaveof)
  }

  lemma BumpOnly(v: View)
    requires v.me in v.nodes
    ensures var v' := Bump(v);
            && v'.slots == v.slots && v'.importing == v.importing && v'.migrating == v.migrating && v'.me == v.me
            && v'.nodes.Keys == v.nodes.Keys
            && (forall n :: n in v.nodes ==> v'.nodes[n].master == v.nodes[n].master && v'.nodes[n].slaveof == v.nodes[n].slaveof)
  {
    hide MaxEpoch;
  }

  // The node a command names, if it names one.
  function Named(cmd: SlotCommand): Option<Id> {
    match cmd
    case Migrating(to) => Some(to)
    case Importing(from) => Some(from)
    case Stable => None
    case Assign(owner) => Some(owner)
  }

  lemma SetSlotIsLocal(v: View, j: nat, cmd: SlotCommand, hasKeys: bool)
    requires Ok(v) && j < |v.slots|
    ensures OnlySlot(v, SetSlot(v, j, cmd, hasKeys), j)
  {
    if cmd.Assign? {
      BumpOnly(v.(slots := v.slots[j := Some(cmd.owner)],
                  migrating := if hasKeys then v.migrating else v.migrating[j := None]));
    }
    hide Bump, OwnersKnown, Linked;
  }

  /** SETSLOT changes one slot at most, and nothing on a replica or when it names a stranger.  It
      never gives a slot away that still has keys here, opens only own slots for export and only
      others' for import. */
  lemma SetSlotIsSafe(v: View, j: nat, cmd: SlotCommand, hasKeys: bool)
    requires Ok(v) && j < |v.slots|
    ensures var v' := SetSlot(v, j, cmd, hasKeys);
            && OnlySlot(v, v', j)
            && (!v.nodes[v.me].master || (Named(cmd).Some? && Named(cmd).value !in v.nodes) ==> v' == v)
            && (hasKeys && v.slots[j] == Some(v.me) ==> v'.slots[j] == Some(v.me))
            && (v'.migrating[j] != v.migrating[j] && v'.migrating[j].Some? ==> v.slots[j] == Some(v.me) && v'.slots[j] == Some(v.me))
            && (v'.importing[j] != v.importing[j] && v'.importing[j].Some? ==> v.slots[j] != Some(v.me) && v'.slots[j] == v.slots[j])
  {
    SetSlotIsLocal(v, j, cmd, hasKeys);
    if cmd.Assign? {
      BumpOnly(v.(slots := v.slots[j := Some(cmd.owner)],
                  migrating := if hasKeys then v.migrating else v.migrating[j := None]));
    }
    hide Bump, OwnersKnown, Linked, OnlySlot;
  }

  /** And it does what it says where it may. */
  lemma SetSlotDoes(v: View, j: nat, cmd: SlotCommand, hasKeys: bool)
    requires Ok(v) && j < |v.slots| && v.nodes[v.me].master && (Named(cmd).Some? ==> Named(cmd).value in v.nodes)
    ensures var v' := SetSlot(v, j, cmd, hasKeys);
            && |v'.slots| == |v.slots| == |v'.importing| == |v'.migrating|
            && (cmd.Migrating? && v.slots[j] == Some(v.me) ==> v'.migrating[j] == Some(cmd.to))
            && (cmd.Importing? && v.slots[j] != Some(v.me) ==> v'.importing[j] == Some(cmd.from))
            && (cmd.Stable? ==> v'.importing[j] == None && v'.migrating[j] == None && v'.slots == v.slots)
            && (cmd.Assign? && !(hasKeys && v.slots[j] == Some(v.me)) ==> v'.slots[j] == Some(cmd.owner))
            && (cmd.Assign? && !hasKeys ==> v'.migrating[j] == None)
            && (cmd.Assign? && hasKeys ==> v'.migrating[j] == v.migrating[j])
            && (cmd.Assign? && cmd.owner == v.me ==> v'.importing[j] == None)
            && (cmd.Assign? && cmd.owner != v.me ==> v'.importing[j] == v.importing[j])
            && (!cmd.Assign? || cmd.owner != v.me || v.importing[j] == None ==>
                  v'.currentEpoch == v.currentEpoch && v'.nodes == v.nodes)
  {
    if cmd.Assign? {
      BumpOnly(v.(slots := v.slots[j := Some(cmd.owner)],
                  migrating := if hasKeys then v.migrating else v.migrating[j := None]));
    }
    hide Bump, OwnersKnown;
  }

  // ---------------------------------------------------------------- ADDSLOTS and DELSLOTS

  // A list of different slots, all of them free, or all of them owned.
  ghost predicate Proper(v: View, js: seq<nat>, owned: bool) {
    && (forall i :: 0 <= i < |js| ==> js[i] < |v.slots| && v.slots[js[i]].Some? == owned)
    && (forall i, k :: 0 <= i < k < |js| ==> js[i] != js[k])
  }

  lemma ProperExactly(v: View, js: seq<nat>, del: bool)
    ensures ChangeRefused(v, js, del) <==> !Proper(v, js, del)
  {
    if !Proper(v, js, del) {
      if forall i :: 0 <= i < |js| ==> js[i] < |v.slots| && v.slots[js[i]].Some? == del {
        var i, k :| 0 <= i < k < |js| && js[i] == js[k];
        assert js[..k][i] == js[k];
      }
    }
  }

  /** All or nothing: the listed slots, if they are different and all free (or all owned), become
      this node's (or free) and are no longer being imported; otherwise nothing changes. */
  lemma AllOrNothing(v: View, js: seq<nat>, del: bool)
    requires Ok(v)
    ensures var v' := ChangeSlots(v, js, del);
            && (!Proper(v, js, del) ==> v' == v)
            && |v'.slots| == |v.slots| == |v'.importing|
            && (Proper(v, js, del) ==> forall j :: 0 <= j < |v.slots| ==>
                  (if j in js then v'.slots[j] == (if del then None else Some(v.me)) && v'.importing[j] == None
                   else v'.slots[j] == v.slots[j] && v'.importing[j] == v.importing[j]))
            && v'.nodes == v.nodes && v'.migrating == v.migrating
  {
    ProperExactly(v, js, del);
  }

  /** ADDSLOTS and DELSLOTS undo each other. */
  lemma AddThenDelete(v: View, js: seq<nat>)
    requires Ok(v) && Proper(v, js, false)
    ensures var v1 := ChangeSlots(v, js, false);
            Proper(v1, js, true) && ChangeSlots(v1, js, true).slots == v.slots
  {
    AllOrNothing(v, js, false);
    ChangeSlotsOk(v, js, false);
    var v1 := ChangeSlots(v, js, false);
    forall i | 0 <= i < |js| ensures v1.slots[js[i]].Some? {
      assert js[i] in js;
    }
    hide ChangeSlots;
    AllOrNothing(v1, js, true);
    forall j | 0 <= j < |v.slots| ensures ChangeSlots(v1, js, true).slots[j] == v.slots[j] {
      if j in js {
        var i :| 0 <= i < |js| && js[i] == j;
        assert v.slots[js[i]].Some? == false;
      }
    }
  }

  lemma {:induction false} PutCount(slots: seq<Option<Id>>, js: seq<nat>, me: Id)
    requires forall i :: 0 <= i < |js| ==> js[i] < |slots| && slots[js[i]] == None
    requires forall i, k :: 0 <= i < k < |js| ==> js[i] != js[k]
    ensures Count(Bitmap(Put(slots, js, Some(me)), me)) == Count(Bitmap(slots, me)) + |js|
    decreases |js|
  {
    if js == [] {
      assert Put(slots, js, Some(me)) == slots;
    } else {
      var n := |js| - 1;
      PutCount(slots, js[..n], me);
      var before := Put(slots, js[..n], Some(me));
      assert js == js[..n] + [js[n]];
      assert Put(slots, js, Some(me)) == before[js[n] := Some(me)];
      assert Bitmap(before[js[n] := Some(me)], me) == Bitmap(before, me)[js[n] := true];
      assert !Bitmap(before, me)[js[n]];
      S.CountUpdate(Bitmap(before, me), js[n], true);
    }
  }

  /** An accepted ADDSLOTS gives the node exactly as many slots as it lists. */
  lemma AddSlotsCounts(v: View, js: seq<nat>)
    requires Ok(v) && Proper(v, js, false)
    ensures NumSlots(ChangeSlots(v, js, false), v.me) == NumSlots(v, v.me) + |js|
  {
    ProperExactly(v, js, false);
    PutCount(v.slots, js, v.me);
  }

  // -------------------------------------------------------------- REPLICATE and FORGET

  /** REPLICATE makes the node a replica of exactly the master it is given; one that was a master
      closes its open slots, one that was not does not touch them.  A master that serves slots or
      holds keys stays what it is, and nobody replicates himself, a stranger or a replica. */
  lemma ReplicateExactly(v: View, m: Id, hasKeys: bool)
    requires Ok(v)
    ensures var v' := Replicate(v, m, hasKeys);
            if m in v.nodes && m != v.me && v.nodes[m].master && (v.nodes[v.me].master ==> !Serving(v, v.me) && !hasKeys)
            then Keeps(v, v') && !v'.nodes[v.me].master && v'.nodes[v.me].slaveof == Some(m) && v'.slots == v.slots
                 && (v.nodes[v.me].master ==> forall j :: 0 <= j < |v.slots| ==> v'.importing[j] == None && v'.migrating[j] == None)
                 && (!v.nodes[v.me].master ==> v'.importing == v.importing && v'.migrating == v.migrating)
                 && (forall n :: n in v.nodes && n != v.me ==> v'.nodes[n] == v.nodes[n])
            else v' == v
  {
    ServingIsPositive(v, v.me);
    hide NumSlots, Serving;
    if m in v.nodes && m != v.me {
      SetMasterOk(v, m);
    }
  }

  /** A forgotten node leaves no trace: it owns no slot, imports and exports with it are over, and its
      replicas have no master; nothing else changes. */
  lemma NoTrace(v: View, gone: Id, j: nat, n: Id)
    requires Ok(v) && j < |v.slots| && n in v.nodes
    ensures var v' := Forget(v, gone);
            && gone !in v'.nodes && |v'.slots| == |v.slots| == |v'.importing| == |v'.migrating|
            && v'.slots[j] == (if v.slots[j] == Some(gone) then None else v.slots[j])
            && v'.importing[j] == (if v.importing[j] == Some(gone) then None else v.importing[j])
            && v'.migrating[j] == (if v.migrating[j] == Some(gone) then None else v.migrating[j])
            && (n != gone ==> n in v'.nodes)
            && (n != gone && v.nodes[n].slaveof == Some(gone) ==> v'.nodes[n] == v.nodes[n].(slaveof := None))
            && (n != gone && v.nodes[n].slaveof != Some(gone) ==> v'.nodes[n] == v.nodes[n])
  {}
}
