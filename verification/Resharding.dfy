/**
Moving a slot from one node to another while clients use it.  The target is opened before the
source, keys move one by one, and the target is closed before the source.
*/
module Resharding {
  import opened Options
  import opened ClusterView
  import opened Routing

  // The slot, and how keys map to slots.
  datatype Setting = Setting(j: nat, cfg: Config)

  // Two nodes' views, the keys of the slot that each holds, and the requests that the source has
  // redirected and whose clients have said so.
  datatype System = System(a: View, b: View, ka: set<Key>, kb: set<Key>, asks: set<Request>)

  predicate ForSlot(t: Setting, req: Request) {
    var keys := Keys(req.commands);
    !req.migrate && keys != [] && forall i :: 0 <= i < |keys| ==> t.cfg.slotOf(keys[i]) == t.j
  }

  function KeySet(req: Request): set<Key> {
    set k | k in Keys(req.commands)
  }

  // ------------------------------------------------------------------------------ steps

  datatype Event =
    | OpenTarget | OpenSource | Move(key: Key) | CloseTarget | CloseSource
    | AtSource(req: Request, after: set<Key>)
    | AtTarget(req: Request, after: set<Key>)
    | Expire(key: Key)

  // A request may create, change and delete the keys it names and no others.
  predicate Effect(before: set<Key>, req: Request, after: set<Key>) {
    after <= before + KeySet(req) && before - KeySet(req) <= after
  }

  predicate Sound(t: Setting, s: System) {
    && Ok(s.a) && Ok(s.b) && t.j < |s.a.slots| && t.j < |s.b.slots|
    && s.a.me != s.b.me && s.b.me in s.a.nodes && s.a.me in s.b.nodes
    && s.a.nodes[s.a.me].master && s.b.nodes[s.b.me].master
  }

  // The order in which the operator opens and closes the slot, and what clients do.
  predicate Enabled(t: Setting, s: System, e: Event)
    requires Sound(t, s)
  {
    match e
    case OpenTarget => true
    case OpenSource => s.b.importing[t.j] == Some(s.a.me)
    case Move(k) => k in s.ka && s.a.slots[t.j] == Some(s.a.me) && s.a.migrating[t.j] == Some(s.b.me)
    case CloseTarget => s.ka == {} && s.a.migrating[t.j] == Some(s.b.me)
    case CloseSource => s.b.slots[t.j] == Some(s.b.me)
    case AtSource(req, after) => ForSlot(t, req) && Effect(s.ka, req, after)
    case AtTarget(req, after) => ForSlot(t, req) && Effect(s.kb, req, after) && Allowed(t, s, req)
    case Expire(k) => true
  }

  // A client says ASKING when it was sent on, or when the source would not serve it just now.
  predicate Allowed(t: Setting, s: System, req: Request)
    requires Sound(t, s) && ForSlot(t, req)
  {
    req.asking ==> req in s.asks || Answered(t, s.a, s.ka, req) != Here
  }

  lemma SlotsFit(t: Setting, v: View, req: Request)
    requires ForSlot(t, req) && t.j < |v.slots|
    ensures SlotsOk(v, t.cfg, Keys(req.commands))
  {
  }

  function Answered(t: Setting, v: View, held: set<Key>, req: Request): Answer
    requires Ok(v) && ForSlot(t, req) && t.j < |v.slots|
  {
    SlotsFit(t, v, req);
    Route(v, t.cfg, held, req)
  }

  function Next(t: Setting, s: System, e: Event): System
    requires Sound(t, s) && Enabled(t, s, e)
  {
    match e
    case OpenTarget => s.(b := SetSlot(s.b, t.j, Importing(s.a.me), s.kb != {}))
    case OpenSource => s.(a := SetSlot(s.a, t.j, Migrating(s.b.me), s.ka != {}))
    case Move(k) => s.(ka := s.ka - {k}, kb := s.kb + {k})
    case CloseTarget => s.(b := SetSlot(s.b, t.j, Assign(s.b.me), s.kb != {}))
    case CloseSource => s.(a := SetSlot(s.a, t.j, Assign(s.b.me), s.ka != {}))
    case AtSource(req, after) =>
      var answer := Answered(t, s.a, s.ka, req);
      if answer == Here then s.(ka := after)
      else if answer.Ask? then s.(asks := s.asks + {req.(asking := true)})
      else s
    case AtTarget(req, after) =>
      if Answered(t, s.b, s.kb, req) == Here then s.(kb := after) else s
    case Expire(k) => s.(ka := s.ka - {k}, kb := s.kb - {k})
  }

  // ------------------------------------------------------------------ what always holds

  // The slot as the two nodes see it.
  datatype Stage = Before | Open | Closing | After

  ghost predicate At(t: Setting, s: System, stage: Stage)
    requires Sound(t, s)
  {
    var (oa, ma, ob, ib) := (s.a.slots[t.j], s.a.migrating[t.j], s.b.slots[t.j], s.b.importing[t.j]);
    var (a, b) := (Some(s.a.me), Some(s.b.me));
    match stage
    case Before => oa == a && ma == None && ob == a && (ib == None || ib == a) && s.kb == {} && s.asks == {}
    case Open => oa == a && ma == b && ob == a && ib == a && AsksOk(s)
    case Closing => oa == a && ma == b && ob == b && ib == None && s.ka == {}
    case After => oa == b && ma == None && ob == b && ib == None && s.ka == {}
  }

  // A client was sent on because the source lacked one of its keys, and it still does.
  ghost predicate AsksOk(s: System) {
    forall r :: r in s.asks ==> Missing(Keys(r.commands), s.ka)
  }

  ghost predicate Inv(t: Setting, s: System) {
    && Sound(t, s)
    && s.a.importing[t.j] == None && s.b.migrating[t.j] == None
    && s.ka !! s.kb
    && exists stage :: At(t, s, stage)
  }

  // What a slot command changes at this slot.
  lemma SlotCommandEffect(v: View, j: nat, cmd: SlotCommand, hasKeys: bool)
    requires Ok(v) && j < |v.slots| && v.nodes[v.me].master && !SetSlotRefused(v, j, cmd, hasKeys)
    ensures var w := SetSlot(v, j, cmd, hasKeys);
      && Keeps(v, w) && w.nodes[w.me].master
      && w.slots[j] == (if cmd.Assign? then Some(cmd.owner) else v.slots[j])
      && w.migrating[j] == (if cmd.Migrating? then Some(cmd.to)
                            else if cmd.Stable? || (cmd.Assign? && !hasKeys) then None else v.migrating[j])
      && w.importing[j] == (if cmd.Importing? then Some(cmd.from)
                            else if cmd.Stable? || (cmd.Assign? && cmd.owner == v.me) then None else v.importing[j])
  {
    SetSlotOk(v, j, cmd, hasKeys);
    if cmd.Assign? {
      var v1 := v.(slots := v.slots[j := Some(cmd.owner)],
                   migrating := if hasKeys then v.migrating else v.migrating[j := None]);
      BumpFrame(v1);
    }
  }

  lemma BumpFrame(v: View)
    requires v.me in v.nodes
    ensures Bump(v).slots == v.slots && Bump(v).migrating == v.migrating && Bump(v).me == v.me
    ensures v.me in Bump(v).nodes && Bump(v).nodes[v.me].master == v.nodes[v.me].master
  {
    hide MaxEpoch;
  }

  predicate IsOperator(e: Event) {
    e.OpenTarget? || e.OpenSource? || e.CloseTarget? || e.CloseSource?
  }

  lemma OperatorStep(t: Setting, s: System, stage: Stage, e: Event)
    requires Inv(t, s) && At(t, s, stage) && Enabled(t, s, e) && IsOperator(e)
    ensures Inv(t, Next(t, s, e))
  {
    var s1 := Next(t, s, e);
    match e {
      case OpenTarget =>
        var cmd := Importing(s.a.me);
        if !SetSlotRefused(s.b, t.j, cmd, s.kb != {}) { SlotCommandEffect(s.b, t.j, cmd, s.kb != {}); }
      case OpenSource =>
        var cmd := Migrating(s.b.me);
        if !SetSlotRefused(s.a, t.j, cmd, s.ka != {}) { SlotCommandEffect(s.a, t.j, cmd, s.ka != {}); }
      case CloseTarget =>
        var cmd := Assign(s.b.me);
        if !SetSlotRefused(s.b, t.j, cmd, s.kb != {}) { SlotCommandEffect(s.b, t.j, cmd, s.kb != {}); }
      case CloseSource =>
        var cmd := Assign(s.b.me);
        if !SetSlotRefused(s.a, t.j, cmd, s.ka != {}) { SlotCommandEffect(s.a, t.j, cmd, s.ka != {}); }
    }
    hide SetSlot;
    assert Sound(t, s1);
    assert At(t, s1, Before) || At(t, s1, Open) || At(t, s1, Closing) || At(t, s1, After);
  }

  // ------------------------------------------------------------- requests at either node

  // The keys of a request that a node serves.
  lemma ServedAtSource(t: Setting, s: System, req: Request)
    requires Inv(t, s) && ForSlot(t, req) && Answered(t, s.a, s.ka, req) == Here
    ensures (s.kb == {} && s.asks == {} && At(t, s, Before)) || (At(t, s, Open) && KeySet(req) <= s.ka)
  {
    hide ClusterView.Ok;
    var stage :| At(t, s, stage);
    if stage == Open {
      forall k | k in KeySet(req) ensures k in s.ka {
        var i :| 0 <= i < |Keys(req.commands)| && Keys(req.commands)[i] == k;
      }
    }
  }

  // Clients that were sent on would still not be served by the source.
  lemma SentOn(t: Setting, s: System, req: Request)
    requires Inv(t, s) && ForSlot(t, req) && req in s.asks
    ensures Answered(t, s.a, s.ka, req) != Here
  {
    var stage :| At(t, s, stage);
    var keys := Keys(req.commands);
    assert stage == Closing || stage == After ==> keys[0] !in s.ka;
    hide ClusterView.Ok;
  }

  lemma ServedAtTarget(t: Setting, s: System, req: Request)
    requires Inv(t, s) && ForSlot(t, req) && Answered(t, s.b, s.kb, req) == Here && Allowed(t, s, req)
    ensures KeySet(req) !! s.ka && !At(t, s, Before)
  {
    if req.asking && req in s.asks {
      SentOn(t, s, req);
    }
    if req.asking {
      NotAtSource(t, s, req);
    } else {
      hide ClusterView.Ok;
      var stage :| At(t, s, stage);
    }
  }

  // A request that only the target serves: none of its keys is left at the source.
  lemma NotAtSource(t: Setting, s: System, req: Request)
    requires Inv(t, s) && ForSlot(t, req) && Answered(t, s.b, s.kb, req) == Here && Answered(t, s.a, s.ka, req) != Here
    ensures KeySet(req) !! s.ka && !At(t, s, Before)
  {
    hide ClusterView.Ok;
    var stage :| At(t, s, stage);
    var keys := Keys(req.commands);
    if stage == Open {
      assert Missing(keys, s.ka);
      forall k | k in KeySet(req) ensures k !in s.ka {
        var i :| 0 <= i < |keys| && keys[i] == k;
        if Several(keys) {
          assert k in s.kb;
        } else {
          var m :| 0 <= m < |keys| && keys[m] !in s.ka;
          assert keys[m] == keys[0] == keys[i];
        }
      }
    }
  }

  lemma SourceStep(t: Setting, s: System, req: Request, after: set<Key>)
    requires Inv(t, s) && Enabled(t, s, AtSource(req, after))
    ensures Inv(t, Next(t, s, AtSource(req, after)))
  {
    var s1 := Next(t, s, AtSource(req, after));
    var answer := Answered(t, s.a, s.ka, req);
    var stage :| At(t, s, stage);
    if answer == Here {
      ServedAtSource(t, s, req);
      hide Route, Answered, ClusterView.Ok;
      assert s1.ka !! s1.kb;
      assert At(t, s1, Before) || At(t, s1, Open);
    } else if answer.Ask? {
      AskReason(t, s, req);
      hide Route, Answered, ClusterView.Ok;
      assert At(t, s1, stage);
    }
  }

  // The source sends a client on only because it lacks a key.
  lemma AskReason(t: Setting, s: System, req: Request)
    requires Inv(t, s) && ForSlot(t, req) && Answered(t, s.a, s.ka, req).Ask?
    ensures Missing(Keys(req.commands), s.ka) && !At(t, s, Before) && Answered(t, s.a, s.ka, req) == Ask(s.b.me)
  {
  }

  lemma TargetStep(t: Setting, s: System, req: Request, after: set<Key>)
    requires Inv(t, s) && Enabled(t, s, AtTarget(req, after))
    ensures Inv(t, Next(t, s, AtTarget(req, after)))
  {
    var s1 := Next(t, s, AtTarget(req, after));
    var stage :| At(t, s, stage);
    if Answered(t, s.b, s.kb, req) == Here {
      ServedAtTarget(t, s, req);
      hide Route, Answered, ClusterView.Ok;
      assert s1.ka !! s1.kb;
      assert At(t, s1, stage);
    }
  }

  lemma KeyStep(t: Setting, s: System, e: Event)
    requires Inv(t, s) && Enabled(t, s, e) && (e.Move? || e.Expire?)
    ensures Inv(t, Next(t, s, e))
  {
    var s1 := Next(t, s, e);
    var stage :| At(t, s, stage);
    FewerKeys(s, s1);
    hide ClusterView.Ok;
    assert At(t, s1, stage);
  }

  lemma FewerKeys(s: System, s1: System)
    ensures AsksOk(s) && s1.ka <= s.ka && s1.asks == s.asks ==> AsksOk(s1)
  {
  }

  /** Every step keeps the two nodes apart. */
  lemma StepKeeps(t: Setting, s: System, e: Event)
    requires Inv(t, s) && Enabled(t, s, e)
    ensures Inv(t, Next(t, s, e))
  {
    if IsOperator(e) {
      var stage :| At(t, s, stage);
      OperatorStep(t, s, stage, e);
    } else {
      match e
      case AtSource(req, after) => SourceStep(t, s, req, after);
      case AtTarget(req, after) => TargetStep(t, s, req, after);
      case _ => KeyStep(t, s, e);
    }
  }

  // ------------------------------------------------------------------------- whole runs

  ghost predicate Legal(t: Setting, s: System, es: seq<Event>)
    requires Inv(t, s)
    decreases |es|
  {
    es == [] || (Enabled(t, s, es[0]) && (StepKeeps(t, s, es[0]); Legal(t, Next(t, s, es[0]), es[1..])))
  }

  ghost function Run(t: Setting, s: System, es: seq<Event>): System
    requires Inv(t, s) && Legal(t, s, es)
    decreases |es|
  {
    if es == [] then s
    else
      StepKeeps(t, s, es[0]);
      Run(t, Next(t, s, es[0]), es[1..])
  }

  // The source owns the slot and nothing has been opened.
  ghost predicate Start(t: Setting, s: System) {
    && Sound(t, s)
    && s.a.slots[t.j] == Some(s.a.me) && s.b.slots[t.j] == Some(s.a.me)
    && s.a.migrating[t.j] == None && s.a.importing[t.j] == None
    && s.b.migrating[t.j] == None && s.b.importing[t.j] == None
    && s.kb == {} && s.asks == {}
  }

  lemma StartInv(t: Setting, s: System)
    requires Start(t, s)
    ensures Inv(t, s)
  {
    assert At(t, s, Before);
  }

  lemma {:induction false} RunKeeps(t: Setting, s: System, es: seq<Event>)
    requires Inv(t, s) && Legal(t, s, es)
    ensures Inv(t, Run(t, s, es))
    decreases |es|
  {
    hide Next, Enabled;
    if es != [] {
      StepKeeps(t, s, es[0]);
      RunKeeps(t, Next(t, s, es[0]), es[1..]);
    }
  }

  // A run of the resharding from its start.
  ghost predicate Happens(t: Setting, s: System, es: seq<Event>) {
    Start(t, s) && (StartInv(t, s); Legal(t, s, es))
  }

  ghost function Outcome(t: Setting, s: System, es: seq<Event>): System
    requires Happens(t, s, es)
  {
    StartInv(t, s);
    Run(t, s, es)
  }

  /** Throughout any run, a key is held by at most one of the two nodes. */
  lemma AtMostOneHolder(t: Setting, s: System, es: seq<Event>)
    requires Happens(t, s, es)
    ensures var r := Outcome(t, s, es); Inv(t, r) && r.ka !! r.kb
  {
    hide Run, Legal;
    StartInv(t, s);
    RunKeeps(t, s, es);
  }

  /** At the end of any run, no request is served while the other node holds one of its keys: not
      with its keys split between the nodes, and not on a copy that is not the key. */
  lemma NeverSplit(t: Setting, s: System, es: seq<Event>, req: Request)
    requires Happens(t, s, es) && ForSlot(t, req)
    ensures Inv(t, Outcome(t, s, es))
    ensures var r := Outcome(t, s, es); Answered(t, r.a, r.ka, req) == Here ==> KeySet(req) !! r.kb
    ensures var r := Outcome(t, s, es);
      Answered(t, r.b, r.kb, req) == Here && Allowed(t, r, req) ==> KeySet(req) !! r.ka
  {
    AtMostOneHolder(t, s, es);
    hide Outcome, Happens, Answered;
    var r := Outcome(t, s, es);
    if Answered(t, r.a, r.ka, req) == Here {
      ServedAtSource(t, r, req);
    }
    if Answered(t, r.b, r.kb, req) == Here && Allowed(t, r, req) {
      ServedAtTarget(t, r, req);
    }
  }

  // ------------------------------------------------------------------ following redirects

  function Single(k: Key, write: bool, asking: bool): Request {
    Request([[k]], false, write, false, asking, false)
  }

  lemma SingleKeys(k: Key, write: bool, asking: bool)
    ensures Keys(Single(k, write, asking).commands) == [k]
  {
    assert [[k]][..0] == [];
    assert Keys([[k]]) == [] + [k];
  }

  datatype Visit = Visit(atSource: bool, asking: bool)

  // What the client hears, and where it goes; a redirection elsewhere ends the search.
  function Heard(t: Setting, s: System, k: Key, write: bool, at: Visit): Answer
    requires Sound(t, s) && t.cfg.slotOf(k) == t.j
  {
    SingleKeys(k, write, at.asking);
    if at.atSource then Answered(t, s.a, s.ka, Single(k, write, at.asking))
    else Answered(t, s.b, s.kb, Single(k, write, at.asking))
  }

  ghost predicate AllSound(t: Setting, ss: seq<System>) {
    forall i :: 0 <= i < |ss| ==> Sound(t, ss[i])
  }

  // In which state and by which node the request is served, when the client follows redirections
  // and asks its questions in the states ss, one after the other.
  ghost function Served(t: Setting, ss: seq<System>, k: Key, write: bool, at: Visit): Option<(System, bool)>
    requires AllSound(t, ss) && t.cfg.slotOf(k) == t.j
    decreases |ss|
  {
    if ss == [] then None
    else
      var s := ss[0];
      var answer := Heard(t, s, k, write, at);
      if answer == Here then Some((s, at.atSource))
      else if !(answer.Moved? || answer.Ask?) || (answer.to != s.a.me && answer.to != s.b.me) then None
      else Served(t, ss[1..], k, write, Visit(answer.to == s.a.me, answer.Ask?))
  }

  // One question: it is answered, or the client goes on.
  lemma AskOnce(t: Setting, s: System, rest: seq<System>, k: Key, write: bool, at: Visit)
    requires Sound(t, s) && AllSound(t, rest) && t.cfg.slotOf(k) == t.j
    ensures AllSound(t, [s] + rest)
    ensures var answer, r := Heard(t, s, k, write, at), Served(t, [s] + rest, k, write, at);
      && (answer == Here ==> r == Some((s, at.atSource)))
      && (answer == Moved(s.a.me) ==> r == Served(t, rest, k, write, Visit(true, false)))
      && (answer == Moved(s.b.me) ==> r == Served(t, rest, k, write, Visit(false, false)))
      && (answer == Ask(s.b.me) ==> r == Served(t, rest, k, write, Visit(false, true)))
  {
    hide Heard;
    assert ([s] + rest)[1..] == rest;
  }

  // What a client with one key hears at each node, at each stage.
  lemma HeardAtSource(t: Setting, s: System, k: Key, write: bool, asking: bool)
    requires Inv(t, s) && t.cfg.slotOf(k) == t.j && t.cfg.up
    ensures var answer := Heard(t, s, k, write, Visit(true, asking));
      && (At(t, s, Before) ==> answer == Here)
      && (At(t, s, Open) ==> answer == if k in s.ka then Here else Ask(s.b.me))
      && (At(t, s, Closing) ==> answer == Ask(s.b.me))
      && (At(t, s, After) ==> answer == Moved(s.b.me))
  {
    SingleKeys(k, write, asking);
    OneKey(t.cfg, k, s.ka);
    hide Together, Several, Missing;
  }

  lemma HeardAtTarget(t: Setting, s: System, k: Key, write: bool, asking: bool)
    requires Inv(t, s) && t.cfg.slotOf(k) == t.j && t.cfg.up && (At(t, s, Before) ==> !asking)
    ensures var answer := Heard(t, s, k, write, Visit(false, asking));
      && (At(t, s, Before) ==> answer == Moved(s.a.me))
      && (At(t, s, Open) ==> answer == if asking then Here else Moved(s.a.me))
      && (At(t, s, Closing) || At(t, s, After) ==> answer == Here)
  {
    SingleKeys(k, write, asking);
    OneKey(t.cfg, k, s.kb);
    hide Together, Several, Missing;
  }

  lemma OneKey(cfg: Config, k: Key, held: set<Key>)
    ensures Together(cfg, [k]) && !Several([k]) && (Missing([k], held) <==> k !in held)
  {
    assert [k][0] == k;
  }

  // ---------------------------------------------- what happens while a client is on its way

  // The source has lost the key for good; the target has become the owner.
  ghost predicate Gone(t: Setting, s: System, k: Key)
    requires Sound(t, s)
  {
    (At(t, s, Open) && k !in s.ka) || Past(t, s)
  }

  ghost predicate Past(t: Setting, s: System)
    requires Sound(t, s)
  {
    At(t, s, Closing) || At(t, s, After)
  }

  // No step leads back.
  ghost predicate Onward(t: Setting, s: System, s1: System, k: Key)
    requires Sound(t, s) && Sound(t, s1)
  {
    (Gone(t, s, k) ==> Gone(t, s1, k)) && (Past(t, s) ==> Past(t, s1))
  }

  lemma OperatorOnward(t: Setting, s: System, e: Event, k: Key)
    requires Inv(t, s) && Enabled(t, s, e) && IsOperator(e)
    ensures Inv(t, Next(t, s, e)) && Onward(t, s, Next(t, s, e), k)
  {
    StepKeeps(t, s, e);
    match e {
      case OpenTarget =>
        var cmd := Importing(s.a.me);
        if !SetSlotRefused(s.b, t.j, cmd, s.kb != {}) { SlotCommandEffect(s.b, t.j, cmd, s.kb != {}); }
      case OpenSource =>
        var cmd := Migrating(s.b.me);
        if !SetSlotRefused(s.a, t.j, cmd, s.ka != {}) { SlotCommandEffect(s.a, t.j, cmd, s.ka != {}); }
      case CloseTarget =>
        var cmd := Assign(s.b.me);
        if !SetSlotRefused(s.b, t.j, cmd, s.kb != {}) { SlotCommandEffect(s.b, t.j, cmd, s.kb != {}); }
      case CloseSource =>
        var cmd := Assign(s.b.me);
        if !SetSlotRefused(s.a, t.j, cmd, s.ka != {}) { SlotCommandEffect(s.a, t.j, cmd, s.ka != {}); }
    }
    hide SetSlot, ClusterView.Ok;
  }

  lemma StepOnward(t: Setting, s: System, e: Event, k: Key)
    requires Inv(t, s) && Enabled(t, s, e)
    ensures Inv(t, Next(t, s, e)) && Onward(t, s, Next(t, s, e), k)
  {
    if IsOperator(e) {
      OperatorOnward(t, s, e, k);
    } else {
      StepKeeps(t, s, e);
      if e.AtSource? && Answered(t, s.a, s.ka, e.req) == Here {
        ServedAtSource(t, s, e.req);
      }
      hide Route, Answered, ClusterView.Ok;
    }
  }

  lemma {:induction false} RunOnward(t: Setting, s: System, es: seq<Event>, k: Key)
    requires Inv(t, s) && Legal(t, s, es)
    ensures Inv(t, Run(t, s, es)) && Onward(t, s, Run(t, s, es), k)
    decreases |es|
  {
    hide Next, Enabled, Gone, Past, At;
    if es != [] {
      StepOnward(t, s, es[0], k);
      RunOnward(t, Next(t, s, es[0]), es[1..], k);
    }
  }

  // What a first answer tells about every later state.
  lemma FirstAnswer(t: Setting, s: System, k: Key, write: bool, atSource: bool)
    requires Inv(t, s) && t.cfg.slotOf(k) == t.j && t.cfg.up
    ensures var answer := Heard(t, s, k, write, Visit(atSource, false));
      && (answer == Here ==> k !in if atSource then s.kb else s.ka)
      && (answer != Here && !atSource ==> answer == Moved(s.a.me))
      && (answer != Here && atSource ==>
            (answer == Ask(s.b.me) && Gone(t, s, k)) || (answer == Moved(s.b.me) && Past(t, s)))
  {
    hide Heard, ClusterView.Ok;
    var stage :| At(t, s, stage);
    HeardAtSource(t, s, k, write, false);
    HeardAtTarget(t, s, k, write, false);
  }

  // A client sent to the target is served there, whatever has happened meanwhile.
  lemma AtTheTarget(t: Setting, s: System, k: Key, write: bool, asking: bool)
    requires Inv(t, s) && t.cfg.slotOf(k) == t.j && t.cfg.up
    requires (asking && Gone(t, s, k)) || (!asking && Past(t, s))
    ensures Heard(t, s, k, write, Visit(false, asking)) == Here && k !in s.ka
  {
    hide Heard, ClusterView.Ok;
    HeardAtTarget(t, s, k, write, asking);
  }

  // The three questions, when nothing has led back in between.
  lemma ThreeQuestions(t: Setting, s: System, s1: System, s2: System, k: Key, write: bool, startAtSource: bool)
    requires Inv(t, s) && Inv(t, s1) && Inv(t, s2) && Onward(t, s, s1, k) && Onward(t, s1, s2, k)
    requires t.cfg.slotOf(k) == t.j && t.cfg.up
    ensures AllSound(t, [s, s1, s2])
    ensures var r := Served(t, [s, s1, s2], k, write, Visit(startAtSource, false));
      r.Some? && k !in if r.value.1 then r.value.0.kb else r.value.0.ka
  {
    assert [s, s1, s2] == [s] + [s1, s2] && [s1, s2] == [s1] + [s2] && [s2] == [s2] + [];
    hide Heard, Gone, Past, Served, At, ClusterView.Ok;
    FirstAnswer(t, s, k, write, startAtSource);
    AskOnce(t, s, [s1, s2], k, write, Visit(startAtSource, false));
    var answer := Heard(t, s, k, write, Visit(startAtSource, false));
    if answer != Here && startAtSource {
      AtTheTarget(t, s1, k, write, answer.Ask?);
      AskOnce(t, s1, [s2], k, write, Visit(false, answer.Ask?));
    } else if answer != Here {
      FirstAnswer(t, s1, k, write, true);
      AskOnce(t, s1, [s2], k, write, Visit(true, false));
      var second := Heard(t, s1, k, write, Visit(true, false));
      if second != Here {
        AtTheTarget(t, s2, k, write, second.Ask?);
        AskOnce(t, s2, [], k, write, Visit(false, second.Ask?));
      }
    }
  }

  /** Starting at either node, a request for one key is served after at most two redirections,
      whatever happens between the first question, asked in s, the second, after es1, and the third,
      after es2; and the node that does not serve it does not hold the key then. */
  lemma TwoRedirections(t: Setting, s: System, es1: seq<Event>, es2: seq<Event>, k: Key, write: bool, startAtSource: bool)
    requires Inv(t, s) && Legal(t, s, es1) && t.cfg.slotOf(k) == t.j && t.cfg.up
    requires (RunKeeps(t, s, es1); Legal(t, Run(t, s, es1), es2))
    ensures Inv(t, Run(t, s, es1))
    ensures AllSound(t, [s, Run(t, s, es1), Run(t, Run(t, s, es1), es2)])
    ensures var r := Served(t, [s, Run(t, s, es1), Run(t, Run(t, s, es1), es2)], k, write, Visit(startAtSource, false));
      r.Some? && k !in if r.value.1 then r.value.0.kb else r.value.0.ka
  {
    hide Run, Legal, Inv, Onward, Served, AllSound;
    RunOnward(t, s, es1, k);
    var s1 := Run(t, s, es1);
    RunOnward(t, s1, es2, k);
    ThreeQuestions(t, s, s1, Run(t, s1, es2), k, write, startAtSource);
  }

  // ------------------------------------------------------------------- the order of opening

  // Both nodes take the source for the owner; the source is open, the target may be.
  ghost predicate SourceOpen(t: Setting, s: System) {
    && Sound(t, s)
    && s.a.slots[t.j] == Some(s.a.me) && s.a.migrating[t.j] == Some(s.b.me) && s.a.importing[t.j] == None
    && s.b.slots[t.j] == Some(s.a.me) && s.b.migrating[t.j] == None
    && (s.b.importing[t.j] == None || s.b.importing[t.j] == Some(s.a.me))
  }

  // What a client hears then.
  lemma HeardWhenOpen(t: Setting, s: System, k: Key, write: bool, at: Visit)
    requires SourceOpen(t, s) && t.cfg.slotOf(k) == t.j && t.cfg.up
    ensures Heard(t, s, k, write, at) ==
      if at.atSource then (if k in s.ka then Here else Ask(s.b.me))
      else if at.asking && s.b.importing[t.j].Some? then Here else Moved(s.a.me)
  {
    SingleKeys(k, write, at.asking);
    OneKey(t.cfg, k, s.ka);
    OneKey(t.cfg, k, s.kb);
    hide Together, Several, Missing;
  }

  /** The order matters: while the source is open and the target is not, a request for a key that the
      source does not hold is sent back and forth and never served, whatever happens meanwhile. */
  lemma {:induction false} OpenedInTheWrongOrder(t: Setting, ss: seq<System>, k: Key, write: bool, at: Visit)
    requires t.cfg.slotOf(k) == t.j && t.cfg.up
    requires forall i :: 0 <= i < |ss| ==> SourceOpen(t, ss[i]) && ss[i].b.importing[t.j] == None && k !in ss[i].ka
    ensures AllSound(t, ss) && Served(t, ss, k, write, at) == None
    decreases |ss|
  {
    if ss != [] {
      HeardWhenOpen(t, ss[0], k, write, at);
      hide Heard;
      OpenedInTheWrongOrder(t, ss[1..], k, write, Visit(!at.atSource, at.atSource));
    }
  }

  // The client asks up to n + 1 times while nothing changes.
  ghost function Still(s: System, n: nat): (ss: seq<System>)
    ensures |ss| == n + 1 && forall i :: 0 <= i <= n ==> ss[i] == s
  {
    seq(n + 1, i => s)
  }

  lemma StillNext(s: System, n: nat)
    requires n > 0
    ensures Still(s, n) == [s] + Still(s, n - 1)
  {
  }

  /** With the source open, a request for one key is served, by the second redirection or at all,
      if and only if the source still holds the key or the target is open too. */
  lemma ServedWhenOpenExactly(t: Setting, s: System, k: Key, write: bool, startAtSource: bool, n: nat)
    requires SourceOpen(t, s) && t.cfg.slotOf(k) == t.j && t.cfg.up && n >= 2
    ensures AllSound(t, Still(s, n))
    ensures Served(t, Still(s, n), k, write, Visit(startAtSource, false)).Some?
      <==> k in s.ka || s.b.importing[t.j] == Some(s.a.me)
  {
    if k !in s.ka && s.b.importing[t.j] == None {
      OpenedInTheWrongOrder(t, Still(s, n), k, write, Visit(startAtSource, false));
    } else {
      StillNext(s, n);
      StillNext(s, n - 1);
      hide Heard, Served, Still;
      HeardWhenOpen(t, s, k, write, Visit(startAtSource, false));
      HeardWhenOpen(t, s, k, write, Visit(true, false));
      HeardWhenOpen(t, s, k, write, Visit(false, true));
      AskOnce(t, s, Still(s, n - 1), k, write, Visit(startAtSource, false));
      AskOnce(t, s, Still(s, n - 2), k, write, Visit(true, false));
      AskOnce(t, s, Still(s, n - 2), k, write, Visit(false, true));
      if s.b.importing[t.j].Some? {
        AnswersAtOnce(t, s, n - 2, k, write);
      }
    }
  }

  // Already there: the first question is answered.
  lemma AnswersAtOnce(t: Setting, s: System, n: nat, k: Key, write: bool)
    requires SourceOpen(t, s) && t.cfg.slotOf(k) == t.j && t.cfg.up && s.b.importing[t.j].Some?
    ensures AllSound(t, Still(s, n)) && Served(t, Still(s, n), k, write, Visit(false, true)).Some?
  {
    HeardWhenOpen(t, s, k, write, Visit(false, true));
    hide Heard;
  }

  // ------------------------------------------------------- a client that nobody sent on

  lemma Opened(t: Setting, s: System)
    requires Start(t, s)
    ensures Happens(t, s, [OpenTarget, OpenSource])
    ensures var r := Outcome(t, s, [OpenTarget, OpenSource]); Sound(t, r) && At(t, r, Open) && r.ka == s.ka && r.kb == {}
  {
    StartInv(t, s);
    StepKeeps(t, s, OpenTarget);
    var s1 := Next(t, s, OpenTarget);
    StepKeeps(t, s1, OpenSource);
    var s2 := Next(t, s1, OpenSource);
    assert [OpenTarget, OpenSource][1..] == [OpenSource] && [OpenSource][1..] == [];
    assert Legal(t, s1, [OpenSource]) && Run(t, s1, [OpenSource]) == s2;
  }

  /** Clients must say ASKING only when they were sent on: one that says so of its own accord is
      served by the target, and can create there a key that the source still holds. */
  lemma UnsolicitedAsking(t: Setting, s: System, k: Key)
    requires Start(t, s) && t.cfg.up && t.cfg.slotOf(k) == t.j && k in s.ka
    ensures Happens(t, s, [OpenTarget, OpenSource])
    ensures var r, req := Outcome(t, s, [OpenTarget, OpenSource]), Single(k, true, true);
      && Sound(t, r) && ForSlot(t, req) && !Allowed(t, r, req)
      && Answered(t, r.b, r.kb, req) == Here && Effect(r.kb, req, r.kb + {k})
      && !(r.ka !! r.kb + {k})
  {
    Opened(t, s);
    AtMostOneHolder(t, s, [OpenTarget, OpenSource]);
    hide Outcome, Happens, Route;
    var r, req := Outcome(t, s, [OpenTarget, OpenSource]), Single(k, true, true);
    HeardAtSource(t, r, k, true, true);
    HeardAtTarget(t, r, k, true, true);
    SingleKeys(k, true, true);
    assert k in r.ka * (r.kb + {k});
    if req in r.asks {
      assert Missing(Keys(req.commands), r.ka);
      OneKey(t.cfg, k, r.ka);
    }
  }

  /** Exactly when that is harmful: a request with ASKING that the target serves keeps the two nodes
      apart, whatever it does to its keys, if and only if the source would not have served it. */
  lemma AskingSafeExactly(t: Setting, s: System, req: Request)
    requires Inv(t, s) && ForSlot(t, req) && req.asking && Answered(t, s.b, s.kb, req) == Here
    ensures (forall after :: Effect(s.kb, req, after) ==> Inv(t, s.(kb := after)))
      <==> Answered(t, s.a, s.ka, req) != Here
    ensures At(t, s, Open) ==> (KeySet(req) !! s.ka <==> Answered(t, s.a, s.ka, req) != Here)
  {
    if Answered(t, s.a, s.ka, req) != Here {
      NotAtSource(t, s, req);
      forall after | Effect(s.kb, req, after) ensures Inv(t, s.(kb := after)) {
        AskingKeeps(t, s, req, after);
      }
    } else {
      ServedAtSource(t, s, req);
      hide Answered, ClusterView.Ok;
      var k := Keys(req.commands)[0];
      assert k in KeySet(req);
      var after := s.kb + KeySet(req);
      var r := s.(kb := after);
      assert Effect(s.kb, req, after) && k in r.kb;
      assert At(t, s, Before) || k in r.ka * r.kb;
    }
  }

  lemma AskingKeeps(t: Setting, s: System, req: Request, after: set<Key>)
    requires Inv(t, s) && Effect(s.kb, req, after) && KeySet(req) !! s.ka && !At(t, s, Before)
    ensures Inv(t, s.(kb := after))
  {
    var stage :| At(t, s, stage);
    hide ClusterView.Ok;
    assert At(t, s.(kb := after), stage);
  }

  // ---------------------------------------------------------------------- getting it done

  // These events finish the move; the keys the two nodes had are then at the target.
  ghost predicate Finishes(t: Setting, s: System, es: seq<Event>)
    requires Inv(t, s)
  {
    && Legal(t, s, es)
    && (RunKeeps(t, s, es);
        var r := Run(t, s, es); At(t, r, After) && r.kb == s.ka + s.kb)
  }

  // What the operator's commands achieve at each stage.
  lemma Opens(t: Setting, s: System)
    requires Inv(t, s) && At(t, s, Before)
    ensures var s1 := Next(t, s, OpenTarget);
      s1.(b := s.b) == s && Inv(t, s1) && At(t, s1, Before) && s1.b.importing[t.j] == Some(s.a.me)
    ensures s.b.importing[t.j] == Some(s.a.me) ==>
      var s1 := Next(t, s, OpenSource);
      s1.(a := s.a) == s && Inv(t, s1) && At(t, s1, Open)
  {
    SlotCommandEffect(s.b, t.j, Importing(s.a.me), s.kb != {});
    StepKeeps(t, s, OpenTarget);
    if s.b.importing[t.j] == Some(s.a.me) {
      SlotCommandEffect(s.a, t.j, Migrating(s.b.me), s.ka != {});
      StepKeeps(t, s, OpenSource);
    }
    hide SetSlot, ClusterView.Ok;
  }

  lemma Closes(t: Setting, s: System)
    requires Inv(t, s) && s.ka == {}
    ensures At(t, s, Open) ==>
      var s1 := Next(t, s, CloseTarget);
      s1.(b := s.b) == s && Inv(t, s1) && At(t, s1, Closing)
    ensures At(t, s, Closing) ==>
      var s1 := Next(t, s, CloseSource);
      s1.(a := s.a) == s && Inv(t, s1) && At(t, s1, After)
  {
    if At(t, s, Open) {
      SlotCommandEffect(s.b, t.j, Assign(s.b.me), s.kb != {});
      StepKeeps(t, s, CloseTarget);
    }
    if At(t, s, Closing) {
      SlotCommandEffect(s.a, t.j, Assign(s.b.me), false);
      StepKeeps(t, s, CloseSource);
    }
    hide SetSlot, ClusterView.Ok;
  }

  lemma OneMore(t: Setting, s: System, e: Event, rest: seq<Event>)
    requires Inv(t, s) && Enabled(t, s, e) && Inv(t, Next(t, s, e)) && Finishes(t, Next(t, s, e), rest)
    requires var s1 := Next(t, s, e); s1.ka + s1.kb == s.ka + s.kb
    ensures Finishes(t, s, [e] + rest)
  {
    hide Next, Enabled, At;
    var es := [e] + rest;
    assert es[0] == e && es[1..] == rest;
  }

  lemma FinishClosing(t: Setting, s: System)
    requires Inv(t, s) && At(t, s, Closing)
    ensures Finishes(t, s, [CloseSource])
  {
    Closes(t, s);
    hide Next, At;
    assert Finishes(t, Next(t, s, CloseSource), []);
    OneMore(t, s, CloseSource, []);
    assert [CloseSource] + [] == [CloseSource];
  }

  lemma {:induction false} FinishOpen(t: Setting, s: System) returns (es: seq<Event>)
    requires Inv(t, s) && At(t, s, Open)
    ensures Finishes(t, s, es)
    decreases |s.ka|
  {
    hide Finishes, ClusterView.Ok;
    if s.ka == {} {
      Closes(t, s);
      FinishClosing(t, Next(t, s, CloseTarget));
      OneMore(t, s, CloseTarget, [CloseSource]);
      es := [CloseTarget] + [CloseSource];
    } else {
      var k :| k in s.ka;
      var s1 := Next(t, s, Move(k));
      StepKeeps(t, s, Move(k));
      FewerKeys(s, s1);
      assert At(t, s1, Open);
      var rest := FinishOpen(t, s1);
      es := [Move(k)] + rest;
      OneMore(t, s, Move(k), rest);
    }
  }

  /** At any time in any run the move can still be finished, by the operator alone: then both
      nodes give the slot to the target, which has every key that was in it. */
  lemma CanFinish(t: Setting, s: System, es: seq<Event>) returns (more: seq<Event>)
    requires Happens(t, s, es)
    ensures Inv(t, Outcome(t, s, es)) && Finishes(t, Outcome(t, s, es), more)
  {
    AtMostOneHolder(t, s, es);
    var r := Outcome(t, s, es);
    var stage :| At(t, r, stage);
    match stage
    case After => more := [];
    case Closing =>
      FinishClosing(t, r);
      more := [CloseSource];
    case Open => more := FinishOpen(t, r);
    case Before =>
      Opens(t, r);
      var r1 := Next(t, r, OpenTarget);
      Opens(t, r1);
      hide Finishes, Outcome, Happens;
      var rest := FinishOpen(t, Next(t, r1, OpenSource));
      OneMore(t, r1, OpenSource, rest);
      OneMore(t, r, OpenTarget, [OpenSource] + rest);
      more := [OpenTarget] + ([OpenSource] + rest);
  }
}
