/**
Where a request is served: by this node, or by the one it is redirected to.
*/
module Routing {
  import opened Options
  import opened ClusterView

  type Key = string

  // The keys of the commands of a transaction, or of the one command; whether the command itself
  // writes, or is an EXEC with a queued command that does; what the client has said.
  datatype Request = Request(
    commands: seq<seq<Key>>, migrate: bool, write: bool, queuedWrite: bool, asking: bool, readOnly: bool)

  datatype Config = Config(slotOf: Key -> nat, up: bool, readsWhenDown: bool)

  datatype Answer =
    | Here | Moved(to: Id) | Ask(to: Id)
    | CrossSlot | Unbound | Down | DownReadOnly | TryAgain

  function Keys(cs: seq<seq<Key>>): seq<Key> {
    if cs == [] then [] else Keys(cs[..|cs| - 1]) + cs[|cs| - 1]
  }

  // Is this node giving the slot away, or receiving it?
  predicate MigratingSlot(v: View, j: nat)
    requires Ok(v) && j < |v.slots|
  {
    v.slots[j] == Some(v.me) && v.migrating[j].Some?
  }

  predicate ImportingSlot(v: View, j: nat)
    requires Ok(v) && j < |v.slots|
  {
    !MigratingSlot(v, j) && v.importing[j].Some?
  }

  predicate SlotsOk(v: View, cfg: Config, keys: seq<Key>) {
    forall i :: 0 <= i < |keys| ==> cfg.slotOf(keys[i]) < |v.slots|
  }

  predicate Together(cfg: Config, keys: seq<Key>) {
    forall i :: 0 <= i < |keys| ==> cfg.slotOf(keys[i]) == cfg.slotOf(keys[0])
  }

  predicate Several(keys: seq<Key>) {
    exists i :: 0 <= i < |keys| && keys[i] != keys[0]
  }

  predicate Missing(keys: seq<Key>, held: set<Key>) {
    exists i :: 0 <= i < |keys| && keys[i] !in held
  }

  /** The decision, from what is asked for and what is held. */
  function Route(v: View, cfg: Config, held: set<Key>, req: Request): Answer
    requires Ok(v) && SlotsOk(v, cfg, Keys(req.commands))
  {
    var keys := Keys(req.commands);
    if keys == [] then Here
    else
      var j := cfg.slotOf(keys[0]);
      if v.slots[j].None? then Unbound
      else if !Together(cfg, keys) then CrossSlot
      else if !cfg.up && !cfg.readsWhenDown then Down
      else if !cfg.up && req.write then DownReadOnly
      else if (MigratingSlot(v, j) || ImportingSlot(v, j)) && req.migrate then Here
      else if MigratingSlot(v, j) && Missing(keys, held) then Ask(v.migrating[j].value)
      else if ImportingSlot(v, j) && req.asking then
        if Several(keys) && Missing(keys, held) then TryAgain else Here
      else if req.readOnly && !req.write && !req.queuedWrite && !v.nodes[v.me].master && v.nodes[v.me].slaveof == v.slots[j] then Here
      else if v.slots[j] == Some(v.me) then Here
      else Moved(v.slots[j].value)
  }

  // ---------------------------------------------------------------- what an answer means

  // The slot of the request, when it has keys.
  function SlotOf(cfg: Config, req: Request): nat
    requires Keys(req.commands) != []
  {
    cfg.slotOf(Keys(req.commands)[0])
  }

  // The request concerns one slot, which has an owner, and the cluster is in a state to serve it.
  ghost predicate Admitted(v: View, cfg: Config, req: Request)
    requires Ok(v) && SlotsOk(v, cfg, Keys(req.commands))
  {
    var keys := Keys(req.commands);
    && keys != [] && v.slots[SlotOf(cfg, req)].Some?
    && (forall i, k :: 0 <= i < k < |keys| ==> cfg.slotOf(keys[i]) == cfg.slotOf(keys[k]))
    && (cfg.up || (cfg.readsWhenDown && !req.write))
  }

  // A read that a replica may answer for its master.
  ghost predicate ReplicaRead(v: View, req: Request, owner: Option<Id>)
    requires Ok(v)
  {
    req.readOnly && !req.write && !req.queuedWrite && !v.nodes[v.me].master && v.nodes[v.me].slaveof == owner
  }

  // Somebody else owns the slot and this node has no leave to serve the request: it is not a
  // MIGRATE or an ASKING for a slot being imported, nor a read of a replica's own master.
  ghost predicate Elsewhere(v: View, req: Request, j: nat)
    requires Ok(v) && j < |v.slots|
  {
    && v.slots[j] != Some(v.me) && !ReplicaRead(v, req, v.slots[j])
    && (v.importing[j].Some? ==> !req.migrate && !req.asking)
  }

  // The slot is being imported here, and the client has been sent for it.
  ghost predicate Arriving(v: View, req: Request, j: nat)
    requires Ok(v) && j < |v.slots|
  {
    v.importing[j].Some? && !(v.slots[j] == Some(v.me) && v.migrating[j].Some?) && req.asking && !req.migrate
  }

  lemma TogetherMeans(cfg: Config, keys: seq<Key>)
    requires keys != []
    ensures Together(cfg, keys) <==> forall i, k :: 0 <= i < k < |keys| ==> cfg.slotOf(keys[i]) == cfg.slotOf(keys[k])
  {
    if forall i, k :: 0 <= i < k < |keys| ==> cfg.slotOf(keys[i]) == cfg.slotOf(keys[k]) {
      forall i | 0 <= i < |keys| ensures cfg.slotOf(keys[i]) == cfg.slotOf(keys[0]) {
        assert i > 0 ==> cfg.slotOf(keys[0]) == cfg.slotOf(keys[i]);
      }
    }
  }

  /** The errors: an unowned slot, keys of two slots, and a cluster that is down. */
  lemma RefusedExactly(v: View, cfg: Config, held: set<Key>, req: Request)
    requires Ok(v) && SlotsOk(v, cfg, Keys(req.commands)) && Keys(req.commands) != []
    ensures var keys, answer, j := Keys(req.commands), Route(v, cfg, held, req), SlotOf(cfg, req);
      && (answer == Unbound <==> v.slots[j] == None)
      && (answer == CrossSlot <==>
            v.slots[j].Some? && exists i, k :: 0 <= i < k < |keys| && cfg.slotOf(keys[i]) != cfg.slotOf(keys[k]))
      && (answer == Down || answer == DownReadOnly <==> answer != Unbound && answer != CrossSlot && !Admitted(v, cfg, req))
      && (answer == Down ==> !cfg.readsWhenDown) && (answer == DownReadOnly ==> req.write)
  {
    TogetherMeans(cfg, Keys(req.commands));
    hide Together, Several, Missing, ClusterView.Ok;
  }

  /** The redirections: MOVED names the owner, which is another node, exactly when this one has no
      leave to serve the request; ASK names the node that receives the slot, exactly when this one
      gives it away and lacks a key; TRYAGAIN is for several keys some of which have not arrived. */
  lemma RedirectedExactly(v: View, cfg: Config, held: set<Key>, req: Request)
    requires Ok(v) && SlotsOk(v, cfg, Keys(req.commands)) && Keys(req.commands) != []
    ensures var keys, answer, j := Keys(req.commands), Route(v, cfg, held, req), SlotOf(cfg, req);
      && (answer.Moved? <==> Admitted(v, cfg, req) && Elsewhere(v, req, j))
      && (answer.Moved? ==> Some(answer.to) == v.slots[j] && answer.to != v.me)
      && (answer.Ask? <==>
            && Admitted(v, cfg, req) && v.slots[j] == Some(v.me) && v.migrating[j].Some? && !req.migrate
            && exists i :: 0 <= i < |keys| && keys[i] !in held)
      && (answer.Ask? ==> Some(answer.to) == v.migrating[j])
      && (answer == TryAgain <==>
            && Admitted(v, cfg, req) && Arriving(v, req, j)
            && (exists i :: 0 <= i < |keys| && keys[i] != keys[0])
            && (exists i :: 0 <= i < |keys| && keys[i] !in held))
  {
    TogetherMeans(cfg, Keys(req.commands));
    hide Together, ClusterView.Ok;
  }

  /** Writes are served by the owner of the slot alone, unless the slot is being imported and the
      client says ASKING, or it is a MIGRATE. */
  lemma WritesAtOwner(v: View, cfg: Config, held: set<Key>, req: Request)
    requires Ok(v) && SlotsOk(v, cfg, Keys(req.commands)) && Keys(req.commands) != []
    requires (req.write || req.queuedWrite) && !req.migrate && !req.asking
    ensures Route(v, cfg, held, req) == Here ==> v.slots[SlotOf(cfg, req)] == Some(v.me)
  {
    RedirectedExactly(v, cfg, held, req);
    RefusedExactly(v, cfg, held, req);
    hide Route;
  }

  /** A replica serves the READONLY reads of its master's slots, and of nobody else's. */
  lemma ReplicaServesReads(v: View, cfg: Config, held: set<Key>, req: Request)
    requires Ok(v) && SlotsOk(v, cfg, Keys(req.commands)) && Keys(req.commands) != [] && Together(cfg, Keys(req.commands))
    requires cfg.up && !req.migrate && !req.asking && req.readOnly && !req.write && !req.queuedWrite && !v.nodes[v.me].master
    requires v.slots[SlotOf(cfg, req)].Some? && v.slots[SlotOf(cfg, req)] != Some(v.me)
    ensures Route(v, cfg, held, req) == Here <==> v.slots[SlotOf(cfg, req)] == v.nodes[v.me].slaveof
  {
    TogetherMeans(cfg, Keys(req.commands));
    RedirectedExactly(v, cfg, held, req);
    RefusedExactly(v, cfg, held, req);
    hide Route;
  }

  // ---------------------------------------------------------------------- the program

  // What the scan of the keys has found.
  datatype Scan = Scan(owner: Option<Id>, slot: nat, migrating: bool, importing: bool, several: bool, missing: nat)

  // The scan of the keys seen so far.
  ghost predicate Scanned(v: View, cfg: Config, held: set<Key>, keys: seq<Key>, s: Scan)
    requires Ok(v) && SlotsOk(v, cfg, keys)
  {
    if keys == [] then s == Scan(None, 0, false, false, false, 0)
    else
      && s.slot == cfg.slotOf(keys[0]) && s.owner == v.slots[s.slot] && s.owner.Some?
      && Together(cfg, keys)
      && s.migrating == MigratingSlot(v, s.slot) && s.importing == ImportingSlot(v, s.slot)
      && s.several == Several(keys)
      && (s.missing > 0 <==> (s.migrating || s.importing) && Missing(keys, held))
  }

  // One key: either the scan goes on or the request is refused.
  method ScanKey(v: View, cfg: Config, held: set<Key>, ghost keys: seq<Key>, firstkey: Option<Key>, s: Scan, k: Key)
    returns (s1: Scan, refused: Option<Answer>)
    requires Ok(v) && SlotsOk(v, cfg, keys) && cfg.slotOf(k) < |v.slots|
    requires Scanned(v, cfg, held, keys, s)
    requires firstkey == if keys == [] then None else Some(keys[0])
    ensures refused.None? ==> Scanned(v, cfg, held, keys + [k], s1)
    ensures refused.Some? ==> refused.value == if keys == [] then Unbound else CrossSlot
    ensures refused.Some? <==> (if keys == [] then v.slots[cfg.slotOf(k)].None? else !Together(cfg, keys + [k]))
  {
    s1, refused := s, None;
    var slot := cfg.slotOf(k);
    MoreKeys(cfg, held, keys, k);
    if firstkey.None? {
      s1 := s1.(slot := slot, owner := v.slots[slot]);
      if s1.owner.None? { return s1, Some(Unbound); }
      if s1.owner == Some(v.me) && v.migrating[slot].Some? {
        s1 := s1.(migrating := true);
      } else if v.importing[slot].Some? {
        s1 := s1.(importing := true);
      }
    } else if firstkey.value != k {
      if s.slot != slot { return s1, Some(CrossSlot); }
      s1 := s1.(several := true);
    }
    if (s1.migrating || s1.importing) && k !in held {
      s1 := s1.(missing := s1.missing + 1);
    }
  }

  lemma MoreKeys(cfg: Config, held: set<Key>, keys: seq<Key>, k: Key)
    ensures var more := keys + [k];
      && Missing(more, held) == (Missing(keys, held) || k !in held)
      && (keys != [] ==> Several(more) == (Several(keys) || k != keys[0]))
      && (keys == [] ==> !Several(more) && Together(cfg, more))
      && (keys != [] ==> Together(cfg, more) == (Together(cfg, keys) && cfg.slotOf(k) == cfg.slotOf(keys[0])))
  {
    var more := keys + [k];
    assert forall i :: 0 <= i < |keys| ==> more[i] == keys[i];
    assert more[|keys|] == k;
  }

  // A request refused because of its first keys is refused.
  lemma RefusedEarly(v: View, cfg: Config, held: set<Key>, req: Request, seen: seq<Key>, k: Key)
    requires Ok(v) && SlotsOk(v, cfg, Keys(req.commands))
    requires seen + [k] <= Keys(req.commands) && SlotsOk(v, cfg, seen) && cfg.slotOf(k) < |v.slots|
    requires seen != [] ==> v.slots[cfg.slotOf(seen[0])].Some?
    requires if seen == [] then v.slots[cfg.slotOf(k)].None? else !Together(cfg, seen + [k])
    ensures Route(v, cfg, held, req) == if seen == [] then Unbound else CrossSlot
  {
    var keys := Keys(req.commands);
    var more := seen + [k];
    assert forall i :: 0 <= i < |more| ==> more[i] == keys[i];
    assert keys[0] == more[0];
  }

  lemma {:induction false} KeysPrefix(cs: seq<seq<Key>>, i: nat)
    requires i <= |cs|
    ensures Keys(cs[..i]) <= Keys(cs)
    decreases |cs| - i
  {
    if i == |cs| {
      assert cs[..i] == cs;
    } else {
      KeysPrefix(cs, i + 1);
      assert cs[..i + 1][..i] == cs[..i];
    }
  }

  lemma KeysAt(cs: seq<seq<Key>>, i: nat, j: nat)
    requires i < |cs| && j < |cs[i]|
    ensures Keys(cs[..i]) + cs[i][..j] + [cs[i][j]] <= Keys(cs)
  {
    KeysPrefix(cs, i + 1);
    assert cs[..i + 1][..i] == cs[..i];
    assert cs[i][..j] + [cs[i][j]] <= cs[i];
  }

  // One more key of command i.
  lemma NextKey(v: View, cfg: Config, req: Request, i: nat, j: nat)
    requires SlotsOk(v, cfg, Keys(req.commands)) && i < |req.commands| && j < |req.commands[i]|
    ensures var seen, k := Keys(req.commands[..i]) + req.commands[i][..j], req.commands[i][j];
      && seen + [k] == Keys(req.commands[..i]) + req.commands[i][..j + 1]
      && seen + [k] <= Keys(req.commands) && SlotsOk(v, cfg, seen) && SlotsOk(v, cfg, seen + [k])
      && cfg.slotOf(k) < |v.slots|
  {
    var seen, k := Keys(req.commands[..i]) + req.commands[i][..j], req.commands[i][j];
    KeysAt(req.commands, i, j);
    var keys := Keys(req.commands);
    hide Keys;
    assert forall n :: 0 <= n < |seen + [k]| ==> keys[n] == (seen + [k])[n];
    assert forall n :: 0 <= n < |seen| ==> keys[n] == seen[n];
    assert keys[|seen|] == k;
  }

  lemma PrefixFits(v: View, cfg: Config, req: Request, i: nat)
    requires SlotsOk(v, cfg, Keys(req.commands)) && i <= |req.commands|
    ensures SlotsOk(v, cfg, Keys(req.commands[..i]))
  {
    KeysPrefix(req.commands, i);
    var some, all := Keys(req.commands[..i]), Keys(req.commands);
    hide Keys;
    assert forall n :: 0 <= n < |some| ==> all[n] == some[n];
  }

  lemma SeenOwner(v: View, cfg: Config, held: set<Key>, seen: seq<Key>, s: Scan)
    requires Ok(v) && SlotsOk(v, cfg, seen) && Scanned(v, cfg, held, seen, s)
    ensures seen != [] ==> v.slots[cfg.slotOf(seen[0])].Some?
  {
  }

  /** The program decides as described, in one pass over the keys. */
  method GetNodeByQuery(v: View, cfg: Config, held: set<Key>, req: Request) returns (answer: Answer)
    requires Ok(v) && SlotsOk(v, cfg, Keys(req.commands))
    ensures answer == Route(v, cfg, held, req)
  {
    var s := Scan(None, 0, false, false, false, 0);
    var firstkey: Option<Key> := None;
    ghost var keys := Keys(req.commands);
    var i: nat := 0;
    while i < |req.commands|
      invariant i <= |req.commands|
      invariant ScannedUpto(v, cfg, held, Keys(req.commands[..i]), keys, firstkey, s)
    {
      KeysPrefix(req.commands, i + 1);
      assert req.commands[..i + 1][..i] == req.commands[..i];
      var refused;
      s, firstkey, refused := ScanCommand(v, cfg, held, req, i, firstkey, s);
      if refused.Some? { return refused.value; }
      i := i + 1;
    }
    assert req.commands[..i] == req.commands;
    answer := Decide(v, cfg, held, req, s);
  }

  ghost predicate ScannedUpto(v: View, cfg: Config, held: set<Key>, seen: seq<Key>, keys: seq<Key>, firstkey: Option<Key>, s: Scan)
    requires Ok(v) && SlotsOk(v, cfg, keys)
  {
    && seen <= keys
    && SlotsOk(v, cfg, seen)
    && Scanned(v, cfg, held, seen, s)
    && firstkey == if seen == [] then None else Some(seen[0])
  }

  // The keys of one command.
  method ScanCommand(v: View, cfg: Config, held: set<Key>, req: Request, i: nat, first: Option<Key>, s0: Scan)
    returns (s: Scan, firstkey: Option<Key>, refused: Option<Answer>)
    requires Ok(v) && SlotsOk(v, cfg, Keys(req.commands)) && i < |req.commands|
    requires ScannedUpto(v, cfg, held, Keys(req.commands[..i]), Keys(req.commands), first, s0)
    ensures refused.None? ==> ScannedUpto(v, cfg, held, Keys(req.commands[..i]) + req.commands[i], Keys(req.commands), firstkey, s)
    ensures refused.Some? ==> refused.value == Route(v, cfg, held, req)
  {
    hide Route, Together, Several, Missing, Scanned, ClusterView.Ok, Keys, SlotsOk;
    PrefixFits(v, cfg, req, i);
    s, firstkey, refused := s0, first, None;
    var args := req.commands[i];
    ghost var keys, before := Keys(req.commands), Keys(req.commands[..i]);
    var j: nat := 0;
    assert before + args[..0] == before;
    while j < |args|
      invariant j <= |args| && refused.None?
      invariant ScannedUpto(v, cfg, held, before + args[..j], keys, firstkey, s)
    {
      ghost var seen := before + args[..j];
      NextKey(v, cfg, req, i, j);
      var s1;
      s1, refused := ScanKey(v, cfg, held, seen, firstkey, s, args[j]);
      if refused.Some? {
        SeenOwner(v, cfg, held, seen, s);
        RefusedEarly(v, cfg, held, req, seen, args[j]);
        return;
      }
      s := s1;
      if firstkey.None? { firstkey := Some(args[j]); }
      j := j + 1;
    }
    assert args[..j] == args;
  }

  // After the scan.
  method Decide(v: View, cfg: Config, held: set<Key>, req: Request, s: Scan) returns (answer: Answer)
    requires Ok(v) && SlotsOk(v, cfg, Keys(req.commands)) && Scanned(v, cfg, held, Keys(req.commands), s)
    ensures answer == Route(v, cfg, held, req)
  {
    hide Together, Several, Missing;
    if s.owner.None? { return Here; }
    if !cfg.up {
      if !cfg.readsWhenDown { return Down; }
      if req.write { return DownReadOnly; }
    }
    if (s.migrating || s.importing) && req.migrate { return Here; }
    if s.migrating && s.missing > 0 { return Ask(v.migrating[s.slot].value); }
    if s.importing && req.asking {
      if s.several && s.missing > 0 { return TryAgain; }
      return Here;
    }
    var isWrite := req.write || req.queuedWrite;
    if req.readOnly && !isWrite && !v.nodes[v.me].master && v.nodes[v.me].slaveof == s.owner { return Here; }
    return if s.owner == Some(v.me) then Here else Moved(s.owner.value);
  }
}
