/**
Serving clients that wait for lists.  A push that creates a key with waiters marks the key as
ready; between commands the ready keys are worked off, which can make further keys ready.
*/
module Blocked {
  import opened Options
  import opened BlockingIndex

  type Elem = string

  datatype Value = ListV(items: seq<Elem>) | OtherV

  // What a client waits for; with a target, the element is moved there instead of delivered.
  datatype Wait = Wait(reason: Reason, keys: set<Key>, fromHead: bool, target: Option<Key>, toHead: bool)

  datatype Reply = Got(client: Client, key: Key, elem: Elem) | Moved(client: Client, elem: Elem) | WrongType(client: Client)

  datatype Server = Server(
    data: map<Key, Value>,
    queues: Queues,
    waits: map<Client, Wait>,
    // Keys to work off, and the same keys (with those being worked off) for a quick look-up.
    ready: seq<Key>,
    marked: set<Key>,
    replies: seq<Reply>
  )

  // ------------------------------------------------------------------------ operations

  predicate IsList(s: Server, k: Key) {
    k in s.data && s.data[k].ListV?
  }

  function Items(s: Server, k: Key): seq<Elem> {
    if IsList(s, k) then s.data[k].items else []
  }

  function Queue(s: Server, k: Key): seq<Client> {
    if k in s.queues then s.queues[k] else []
  }

  predicate OnListClient(s: Server, c: Client) {
    c in s.waits && s.waits[c].reason == OnList
  }

  // Is anybody blocked for this reason, or by a module?
  predicate Anybody(s: Server) {
    exists c :: c in s.waits && (s.waits[c].reason == OnList || s.waits[c].reason == OnModule)
  }

  function SignalKeyAsReady(s: Server, k: Key): Server {
    if !Anybody(s) || k !in s.queues || k in s.marked then s
    else s.(ready := s.ready + [k], marked := s.marked + {k})
  }

  // Add an element; a key that did not exist is created and signalled.
  function Push(s: Server, k: Key, x: Elem, toHead: bool): Server
    requires k in s.data ==> s.data[k].ListV?
  {
    var items := if toHead then [x] + Items(s, k) else Items(s, k) + [x];
    var s1 := s.(data := s.data[k := ListV(items)]);
    if k in s.data then s1 else SignalKeyAsReady(s1, k)
  }

  function Unblock(s: Server, c: Client): Server
    requires c in s.waits
  {
    s.(queues := DequeueAll(s.queues, s.waits[c].keys, c), waits := s.waits - {c})
  }

  function Rotate(s: Server, k: Key): Server {
    s.(queues := RotateHead(s.queues, k))
  }

  // Take an element for client c from the list k, which has one.
  function Serve(s: Server, k: Key, c: Client): Server
    requires c in s.waits && Items(s, k) != []
  {
    var w := s.waits[c];
    var items := Items(s, k);
    var x := if w.fromHead then items[0] else items[|items| - 1];
    var popped := s.(data := s.data[k := ListV(if w.fromHead then items[1..] else items[..|items| - 1])]);
    var served :=
      if w.target.None? then popped.(replies := s.replies + [Got(c, k, x)])
      else if w.target.value in popped.data && !popped.data[w.target.value].ListV? then
        s.(replies := s.replies + [WrongType(c)])
      else Push(popped, w.target.value, x, w.toHead).(replies := s.replies + [Moved(c, x)]);
    Unblock(served, c)
  }

  // At most n clients of the queue of k are looked at, each once.
  ghost function ServeLoop(s: Server, k: Key, n: nat): Server
    requires Wf(s) && n <= |Queue(s, k)|
    decreases n
  {
    if n == 0 then s
    else
      var c := Queue(s, k)[0];
      QueueHead(s, k);
      if s.waits[c].reason != OnList then
        RotateWf(s, k);
        ServeLoop(Rotate(s, k), k, n - 1)
      else if Items(s, k) == [] then s
      else
        ServeWf(s, k, c);
        ServeLoop(Serve(s, k, c), k, n - 1)
  }

  function Trim(s: Server, k: Key): Server {
    if Items(s, k) == [] then s.(data := s.data - {k}) else s
  }

  ghost function ServeKey(s: Server, k: Key): Server
    requires Wf(s)
  {
    Trim(ServeLoop(s, k, |Queue(s, k)|), k)
  }

  // ------------------------------------------------------------------ what always holds

  ghost predicate DistinctQueue(q: seq<Client>) {
    forall i, j :: 0 <= i < j < |q| ==> q[i] != q[j]
  }

  // The queues and the waiting clients agree, nobody queues twice and no queue is empty.
  ghost predicate Wf(s: Server) {
    (forall k :: QueueOk(s, k)) && (forall k, c :: Agree(s, k, c))
  }

  ghost predicate QueueOk(s: Server, k: Key) {
    k in s.queues ==> s.queues[k] != [] && DistinctQueue(s.queues[k])
  }

  ghost predicate Agree(s: Server, k: Key, c: Client) {
    c in Queue(s, k) <==> c in s.waits && k in s.waits[c].keys
  }

  lemma QueueHead(s: Server, k: Key)
    requires Wf(s) && Queue(s, k) != []
    ensures Queue(s, k)[0] in s.waits && k in s.waits[Queue(s, k)[0]].keys
  {
    assert Queue(s, k)[0] in Queue(s, k);
    assert Agree(s, k, Queue(s, k)[0]);
  }

  lemma RotateWf(s: Server, k: Key)
    requires Wf(s)
    ensures Wf(Rotate(s, k)) && |Queue(Rotate(s, k), k)| == |Queue(s, k)|
  {
    var s1 := Rotate(s, k);
    var q := Queue(s, k);
    if |q| > 1 {
      var q1 := q[1..] + [q[0]];
      assert q == [q[0]] + q[1..];
      assert forall c :: c in q1 <==> c in q;
      assert QueueOk(s, k);
      forall i, j | 0 <= i < j < |q1| ensures q1[i] != q1[j] {
        assert q1[i] == q[i + 1] && q1[j] == q[if j + 1 < |q| then j + 1 else 0];
      }
      forall l ensures QueueOk(s1, l) { assert QueueOk(s, l); }
      forall l, c ensures Agree(s1, l, c) { assert Agree(s, l, c); }
    }
  }

  lemma {:induction false} RemoveFacts(q: seq<Client>, c: Client)
    requires DistinctQueue(q)
    ensures DistinctQueue(Remove(q, c))
    ensures forall d :: d in Remove(q, c) <==> d in q && d != c
    ensures c in q ==> |Remove(q, c)| == |q| - 1
  {
    if q != [] {
      assert forall i :: 0 <= i < |q[1..]| ==> q[1..][i] == q[i + 1];
      assert q[0] !in q[1..];
      if q[0] != c { RemoveFacts(q[1..], c); }
    }
  }

  // The queue of one key when a client leaves.
  lemma QueueAfter(s: Server, c: Client, k: Key)
    requires Wf(s) && c in s.waits
    ensures var q := Queue(Unblock(s, c), k);
      && q == (if k in s.waits[c].keys then Remove(Queue(s, k), c) else Queue(s, k))
      && (forall d :: d in q <==> d in Queue(s, k) && d != c)
      && DistinctQueue(q)
    ensures k in Unblock(s, c).queues ==> Queue(Unblock(s, c), k) != []
  {
    assert Agree(s, k, c) && QueueOk(s, k);
    if k in s.queues { RemoveFacts(s.queues[k], c); }
    hide Remove;
  }

  lemma UnblockWf(s: Server, c: Client)
    requires Wf(s) && c in s.waits
    ensures Wf(Unblock(s, c))
  {
    var s1 := Unblock(s, c);
    forall k ensures QueueOk(s1, k) {
      QueueAfter(s, c, k);
    }
    forall k, d ensures Agree(s1, k, d) {
      assert Agree(s, k, d);
      QueueAfter(s, c, k);
      hide Unblock;
      assert s1.waits == s.waits - {c} by { UnblockWaits(s, c); }
    }
  }

  lemma UnblockWaits(s: Server, c: Client)
    requires c in s.waits
    ensures Unblock(s, c).waits == s.waits - {c}
  {
  }

  lemma ServeWf(s: Server, k: Key, c: Client)
    requires Wf(s) && c in s.waits && k in s.waits[c].keys && Items(s, k) != []
    ensures Wf(Serve(s, k, c)) && |Queue(Serve(s, k, c), k)| == |Queue(s, k)| - 1
    ensures Queue(Serve(s, k, c), k) == Remove(Queue(s, k), c)
    ensures Serve(s, k, c).waits == s.waits - {c}
  {
    UnblockWf(s, c);
    QueueAfter(s, c, k);
    assert Agree(s, k, c) && QueueOk(s, k);
    RemoveFacts(Queue(s, k), c);
    hide Wf;
    ServeQueues(s, k, c);
    SameQueues(Unblock(s, c), Serve(s, k, c));
  }

  // Serving changes the queues and the waiting clients as unblocking does.
  lemma ServeQueues(s: Server, k: Key, c: Client)
    requires c in s.waits && Items(s, k) != []
    ensures Serve(s, k, c).queues == Unblock(s, c).queues && Serve(s, k, c).waits == Unblock(s, c).waits
  {
    hide DequeueAll;
  }

  lemma SameQueues(s: Server, s1: Server)
    requires Wf(s) && s1.queues == s.queues && s1.waits == s.waits
    ensures Wf(s1)
  {
    forall k ensures QueueOk(s1, k) { assert QueueOk(s, k); }
    forall k, c ensures Agree(s1, k, c) { assert Agree(s, k, c); }
  }

  // ------------------------------------------------------------------- no lost wake-ups

  // Nobody who wants a list waits for a list that has elements.
  ghost predicate Settled(s: Server, k: Key) {
    Items(s, k) == [] || forall c :: c in Queue(s, k) ==> !OnListClient(s, c)
  }

  ghost predicate Noticed(s: Server, k: Key) {
    Settled(s, k) || k in s.marked
  }

  // Between steps of the work on key `cur`: every other key that could serve somebody is marked,
  // no other list is empty, and the marked keys are queued in `todo` or for the next round.
  ghost predicate Inv(s: Server, cur: Option<Key>, todo: seq<Key>) {
    && Wf(s)
    && (forall k :: cur != Some(k) ==> Noticed(s, k))
    && (forall k :: cur != Some(k) && IsList(s, k) ==> Items(s, k) != [])
    && (forall k :: k in s.marked ==> k in todo || k in s.ready)
  }

  lemma RotateInv(s: Server, k: Key, cur: Option<Key>, todo: seq<Key>)
    requires Inv(s, cur, todo)
    ensures Inv(Rotate(s, k), cur, todo)
  {
    var s1 := Rotate(s, k);
    RotateWf(s, k);
    hide Wf;
    var q := Queue(s, k);
    assert |q| > 1 ==> q == [q[0]] + q[1..];
    forall l | cur != Some(l) ensures Noticed(s1, l) {
      assert Noticed(s, l);
      assert forall c :: c in Queue(s1, l) ==> c in Queue(s, l);
    }
    forall l | cur != Some(l) && IsList(s1, l) ensures Items(s1, l) != [] {
      assert IsList(s, l);
    }
  }

  // Whoever waits afterwards waited before, and for the same reason.
  lemma FewerWaiters(s: Server, c: Client, k: Key)
    requires Wf(s) && c in s.waits
    ensures forall d :: d in Queue(Unblock(s, c), k) && OnListClient(Unblock(s, c), d) ==>
              d in Queue(s, k) && OnListClient(s, d)
  {
    QueueAfter(s, c, k);
    UnblockWaits(s, c);
    hide Wf, Unblock;
  }

  lemma UnblockInv(s: Server, c: Client, cur: Option<Key>, todo: seq<Key>)
    requires Inv(s, cur, todo) && c in s.waits
    ensures Inv(Unblock(s, c), cur, todo)
  {
    var s1 := Unblock(s, c);
    UnblockWf(s, c);
    hide Wf;
    forall l | cur != Some(l) ensures Noticed(s1, l) {
      assert Noticed(s, l);
      FewerWaiters(s, c, l);
    }
    forall l | cur != Some(l) && IsList(s1, l) ensures Items(s1, l) != [] {
      assert IsList(s, l);
    }
  }

  lemma PushInv(s: Server, k: Key, x: Elem, toHead: bool, cur: Option<Key>, todo: seq<Key>)
    requires Inv(s, cur, todo) && (k in s.data ==> s.data[k].ListV?)
    ensures Inv(Push(s, k, x, toHead), cur, todo)
  {
    var s1 := Push(s, k, x, toHead);
    SameQueues(s, s1);
    forall l | cur != Some(l) ensures Noticed(s1, l) {
      assert Noticed(s, l);
      if l == k {
        PushNoticed(s, k, x, toHead);
      } else {
        SameSettled(s, s1, l);
      }
    }
    hide Wf;
    forall l | cur != Some(l) && IsList(s1, l) ensures Items(s1, l) != [] {
      assert l != k ==> IsList(s, l);
    }
  }

  lemma PushNoticed(s: Server, k: Key, x: Elem, toHead: bool)
    requires Wf(s) && (k in s.data ==> s.data[k].ListV?)
    requires k in s.data ==> Items(s, k) != [] && Noticed(s, k)
    ensures Noticed(Push(s, k, x, toHead), k)
  {
    var s1 := Push(s, k, x, toHead);
    if !Settled(s1, k) {
      var c :| c in Queue(s1, k) && OnListClient(s1, c);
      assert c in Queue(s, k) && OnListClient(s, c);
      var s0 := s.(data := s1.data);
      assert c in s0.waits;
      assert Anybody(s0);
    }
  }

  lemma SameSettled(s: Server, s1: Server, k: Key)
    requires s1.queues == s.queues && s1.waits == s.waits && Items(s1, k) == Items(s, k)
    ensures Settled(s1, k) == Settled(s, k)
  {
    assert Queue(s1, k) == Queue(s, k);
    assert forall c :: OnListClient(s1, c) == OnListClient(s, c);
  }

  lemma SameInv(s: Server, s1: Server, cur: Option<Key>, todo: seq<Key>)
    requires Inv(s, cur, todo) && s1 == s.(replies := s1.replies)
    ensures Inv(s1, cur, todo)
  {
    SameQueues(s, s1);
    hide Wf;
    forall l | cur != Some(l) ensures Noticed(s1, l) {
      assert Noticed(s, l);
      SameSettled(s, s1, l);
    }
    forall l | cur != Some(l) && IsList(s1, l) ensures Items(s1, l) != [] {
      assert IsList(s, l);
    }
  }

  // The list being worked on may change in any way.
  lemma CurrentInv(s: Server, k: Key, items: seq<Elem>, todo: seq<Key>)
    requires Inv(s, Some(k), todo)
    ensures Inv(s.(data := s.data[k := ListV(items)]), Some(k), todo)
  {
    var s1 := s.(data := s.data[k := ListV(items)]);
    SameQueues(s, s1);
    hide Wf;
    forall l | Some(k) != Some(l) ensures Noticed(s1, l) {
      assert Noticed(s, l);
      SameSettled(s, s1, l);
    }
    forall l | Some(k) != Some(l) && IsList(s1, l) ensures Items(s1, l) != [] {
      assert IsList(s, l);
    }
  }

  lemma ServeInv(s: Server, k: Key, c: Client, todo: seq<Key>)
    requires Inv(s, Some(k), todo) && c in s.waits && Items(s, k) != []
    ensures Inv(Serve(s, k, c), Some(k), todo)
  {
    var w := s.waits[c];
    var items := Items(s, k);
    var x := if w.fromHead then items[0] else items[|items| - 1];
    var rest := if w.fromHead then items[1..] else items[..|items| - 1];
    var popped := s.(data := s.data[k := ListV(rest)]);
    CurrentInv(s, k, rest, todo);
    hide Inv, Push, Unblock;
    if w.target.None? {
      var served := popped.(replies := s.replies + [Got(c, k, x)]);
      SameInv(popped, served, Some(k), todo);
      UnblockInv(served, c, Some(k), todo);
    } else if w.target.value in popped.data && !popped.data[w.target.value].ListV? {
      var served := s.(replies := s.replies + [WrongType(c)]);
      SameInv(s, served, Some(k), todo);
      UnblockInv(served, c, Some(k), todo);
    } else {
      PushInv(popped, w.target.value, x, w.toHead, Some(k), todo);
      PushWaits(popped, w.target.value, x, w.toHead);
      var served := Push(popped, w.target.value, x, w.toHead).(replies := s.replies + [Moved(c, x)]);
      SameInv(Push(popped, w.target.value, x, w.toHead), served, Some(k), todo);
      UnblockInv(served, c, Some(k), todo);
    }
  }

  lemma PushWaits(s: Server, k: Key, x: Elem, toHead: bool)
    requires k in s.data ==> s.data[k].ListV?
    ensures Push(s, k, x, toHead).waits == s.waits && Push(s, k, x, toHead).queues == s.queues
    ensures IsList(Push(s, k, x, toHead), k)
    ensures forall l :: IsList(s, l) ==> IsList(Push(s, k, x, toHead), l)
  {
  }

  lemma ServeKeepsList(s: Server, k: Key, c: Client)
    requires c in s.waits && Items(s, k) != []
    ensures IsList(Serve(s, k, c), k)
  {
  }

  // The clients from position n on want something else than a list.
  ghost predicate OthersBehind(s: Server, k: Key, n: nat) {
    forall i :: n <= i < |Queue(s, k)| ==> !OnListClient(s, Queue(s, k)[i])
  }

  lemma RotateBehind(s: Server, k: Key, n: nat)
    requires Wf(s) && 0 < n <= |Queue(s, k)| && OthersBehind(s, k, n) && !OnListClient(s, Queue(s, k)[0])
    ensures OthersBehind(Rotate(s, k), k, n - 1)
  {
    var q, q1 := Queue(s, k), Queue(Rotate(s, k), k);
    forall i | n - 1 <= i < |q1| ensures !OnListClient(Rotate(s, k), q1[i]) {
      assert q1[i] == q[if i + 1 < |q| then i + 1 else 0];
      assert OnListClient(Rotate(s, k), q1[i]) == OnListClient(s, q1[i]);
    }
  }

  lemma ServeBehind(s: Server, k: Key, n: nat)
    requires Wf(s) && 0 < n <= |Queue(s, k)| && OthersBehind(s, k, n) && OnListClient(s, Queue(s, k)[0]) && Items(s, k) != []
    ensures Queue(Serve(s, k, Queue(s, k)[0]), k) == Queue(s, k)[1..]
    ensures OthersBehind(Serve(s, k, Queue(s, k)[0]), k, n - 1)
  {
    var c := Queue(s, k)[0];
    QueueHead(s, k);
    ServeWf(s, k, c);
    hide Wf, Serve;
    var q, q1 := Queue(s, k), Queue(Serve(s, k, c), k);
    assert q1 == q[1..];
    forall i | n - 1 <= i < |q1| ensures !OnListClient(Serve(s, k, c), q1[i]) {
      assert q1[i] == q[i + 1];
    }
  }

  // A loop either serves somebody or signals nothing.
  ghost predicate Progress(s: Server, r: Server) {
    r.waits.Keys <= s.waits.Keys && (r.waits.Keys == s.waits.Keys ==> r.ready == s.ready)
  }

  lemma {:induction false} LoopSettles(s: Server, k: Key, n: nat, todo: seq<Key>)
    requires Inv(s, Some(k), todo) && IsList(s, k) && n <= |Queue(s, k)| && OthersBehind(s, k, n)
    ensures var r := ServeLoop(s, k, n);
      Inv(r, Some(k), todo) && IsList(r, k) && Settled(r, k) && Progress(s, r)
    decreases n
  {
    hide Serve, Rotate, Wf;
    if n == 0 {
      forall c | c in Queue(s, k) ensures !OnListClient(s, c) {
        var i :| 0 <= i < |Queue(s, k)| && Queue(s, k)[i] == c;
      }
    } else {
      QueueHead(s, k);
      var c := Queue(s, k)[0];
      if s.waits[c].reason != OnList {
        RotateWf(s, k);
        RotateInv(s, k, Some(k), todo);
        RotateBehind(s, k, n);
        RotateFrame(s, k);
        LoopSettles(Rotate(s, k), k, n - 1, todo);
      } else if Items(s, k) != [] {
        ServeWf(s, k, c);
        ServeInv(s, k, c, todo);
        ServeBehind(s, k, n);
        ServeKeepsList(s, k, c);
        LoopSettles(Serve(s, k, c), k, n - 1, todo);
      }
    }
  }

  lemma RotateFrame(s: Server, k: Key)
    ensures Rotate(s, k) == s.(queues := Rotate(s, k).queues)
  {
  }

  // ---------------------------------------------------------------------- the work loop

  function Unmark(s: Server, k: Key): Server {
    s.(marked := s.marked - {k})
  }

  // One ready key; only lists are served here.
  ghost function HandleKey(s: Server, k: Key): Server
    requires Wf(s)
  {
    SameQueues(s, Unmark(s, k));
    if IsList(s, k) then ServeKey(Unmark(s, k), k) else Unmark(s, k)
  }

  lemma HandleKeyInv(s: Server, todo: seq<Key>)
    requires todo != [] && Inv(s, None, todo)
    ensures var r := HandleKey(s, todo[0]);
      Inv(r, None, todo[1..]) && Progress(s, r)
  {
    var k := todo[0];
    var s1 := Unmark(s, k);
    UnmarkInv(s, todo);
    hide Wf, ServeLoop;
    if IsList(s, k) {
      LoopSettles(s1, k, |Queue(s1, k)|, todo[1..]);
      TrimInv(ServeLoop(s1, k, |Queue(s1, k)|), k, todo[1..]);
    } else {
      ForgetCurrent(s1, k, todo[1..]);
    }
  }

  lemma UnmarkInv(s: Server, todo: seq<Key>)
    requires todo != [] && Inv(s, None, todo)
    ensures Inv(Unmark(s, todo[0]), Some(todo[0]), todo[1..])
  {
    var k := todo[0];
    var s1 := Unmark(s, k);
    SameQueues(s, s1);
    hide Wf;
    forall l | Some(k) != Some(l) ensures Noticed(s1, l) {
      assert Noticed(s, l);
      SameSettled(s, s1, l);
    }
    forall l | Some(k) != Some(l) && IsList(s1, l) ensures Items(s1, l) != [] {
      assert IsList(s, l);
    }
    forall l | l in s1.marked ensures l in todo[1..] || l in s1.ready {
      assert todo == [k] + todo[1..];
      assert l in s.marked;
    }
  }

  lemma ForgetCurrent(s: Server, k: Key, todo: seq<Key>)
    requires Inv(s, Some(k), todo) && !IsList(s, k)
    ensures Inv(s, None, todo)
  {
    hide Wf;
  }

  lemma TrimInv(s: Server, k: Key, todo: seq<Key>)
    requires Inv(s, Some(k), todo) && IsList(s, k) && Settled(s, k)
    ensures Inv(Trim(s, k), None, todo)
  {
    var s1 := Trim(s, k);
    SameQueues(s, s1);
    hide Wf;
    forall l ensures Noticed(s1, l) {
      SameSettled(s, s1, l);
      assert l != k ==> Noticed(s, l);
    }
    forall l | IsList(s1, l) ensures Items(s1, l) != [] {
      assert IsList(s, l);
    }
  }

  // The keys of one round, in order.
  ghost function HandleRound(s: Server, todo: seq<Key>): Server
    requires Inv(s, None, todo)
    decreases |todo|
  {
    if todo == [] then s
    else
      HandleKeyInv(s, todo);
      HandleRound(HandleKey(s, todo[0]), todo[1..])
  }

  lemma {:induction false} RoundInv(s: Server, todo: seq<Key>)
    requires Inv(s, None, todo)
    ensures Inv(HandleRound(s, todo), None, []) && Progress(s, HandleRound(s, todo))
    decreases |todo|
  {
    hide Wf, HandleKey;
    if todo != [] {
      HandleKeyInv(s, todo);
      RoundInv(HandleKey(s, todo[0]), todo[1..]);
      ProgressTwice(s, HandleKey(s, todo[0]), HandleRound(HandleKey(s, todo[0]), todo[1..]));
    }
  }

  lemma ProgressTwice(a: Server, b: Server, c: Server)
    requires Progress(a, b) && Progress(b, c)
    ensures Progress(a, c)
  {
  }

  // The keys that are ready become the round; those signalled meanwhile wait for the next.
  function TakeReady(s: Server): Server {
    s.(ready := [])
  }

  lemma TakeReadyInv(s: Server)
    requires Inv(s, None, [])
    ensures Inv(TakeReady(s), None, s.ready)
  {
    var s1 := TakeReady(s);
    SameQueues(s, s1);
    hide Wf;
    forall l ensures Noticed(s1, l) {
      assert Noticed(s, l);
      SameSettled(s, s1, l);
    }
    forall l | IsList(s1, l) ensures Items(s1, l) != [] {
      assert IsList(s, l);
    }
  }

  lemma FewerKeys(s: Server, r: Server)
    requires Progress(TakeReady(s), r)
    ensures |r.waits| <= |s.waits| && (r.ready != [] ==> |r.waits| < |s.waits|)
  {
    Subset(r.waits.Keys, s.waits.Keys);
  }

  lemma Subset(a: set<Client>, b: set<Client>)
    requires a <= b
    ensures |a| <= |b| && (a != b ==> |a| < |b|)
  {
    assert b == a + (b - a);
    assert a != b ==> b - a != {};
  }

  // Rounds until nothing is ready.  Serving a client is what makes another round necessary, so
  // the number of waiting clients, and then whether keys are ready, goes down.
  ghost function Handle(s: Server): Server
    requires Inv(s, None, [])
    decreases |s.waits|, |s.ready|
  {
    if s.ready == [] then s
    else
      TakeReadyInv(s);
      var r := HandleRound(TakeReady(s), s.ready);
      RoundInv(TakeReady(s), s.ready);
      FewerKeys(s, r);
      Handle(r)
  }

  /** When the work loop is done, no client that wants a list waits for a list that has elements. */
  lemma {:induction false} HandleSettles(s: Server)
    requires Inv(s, None, [])
    ensures Inv(Handle(s), None, []) && Handle(s).ready == []
    ensures forall k :: Settled(Handle(s), k)
    decreases |s.waits|, |s.ready|
  {
    if s.ready == [] {
      forall k ensures Settled(s, k) {
        assert Noticed(s, k);
      }
    } else {
      TakeReadyInv(s);
      var r := HandleRound(TakeReady(s), s.ready);
      RoundInv(TakeReady(s), s.ready);
      FewerKeys(s, r);
      hide Inv, HandleRound, Settled;
      HandleSettles(r);
    }
  }

  // ----------------------------------------------------------------------- who gets what

  // Those of q that want a list, in order.
  function Wanting(s: Server, q: seq<Client>): seq<Client> {
    if q == [] then [] else (if OnListClient(s, q[0]) then [q[0]] else []) + Wanting(s, q[1..])
  }

  // Does the client take from the head?
  predicate FromHead(s: Server, c: Client) {
    c in s.waits && s.waits[c].fromHead
  }

  function PopElem(fromHead: bool, items: seq<Elem>): Elem
    requires items != []
  {
    if fromHead then items[0] else items[|items| - 1]
  }

  function PopRest(fromHead: bool, items: seq<Elem>): seq<Elem>
    requires items != []
  {
    if fromHead then items[1..] else items[..|items| - 1]
  }

  // Elements dealt out one by one, each from the end the client asked for.
  function Deal(s: Server, k: Key, q: seq<Client>, items: seq<Elem>): seq<Reply>
    decreases |q|
  {
    if q == [] || items == [] then []
    else [Got(q[0], k, PopElem(FromHead(s, q[0]), items))] + Deal(s, k, q[1..], PopRest(FromHead(s, q[0]), items))
  }

  // Clients that only pop.
  ghost predicate Plain(s: Server, q: seq<Client>) {
    forall c :: c in q && OnListClient(s, c) ==> s.waits[c].target == None
  }

  lemma {:induction false} DealSame(s: Server, s1: Server, k: Key, q: seq<Client>, items: seq<Elem>)
    requires forall c :: c in q ==> OnListClient(s1, c) == OnListClient(s, c) && FromHead(s1, c) == FromHead(s, c)
    ensures Wanting(s1, q) == Wanting(s, q)
    ensures Deal(s1, k, Wanting(s1, q), items) == Deal(s, k, Wanting(s, q), items)
    decreases |q|
  {
    if q != [] {
      assert q[0] in q;
      DealSame(s, s1, k, q[1..], items);
      if OnListClient(s, q[0]) && items != [] {
        DealSame(s, s1, k, q[1..], PopRest(FromHead(s, q[0]), items));
        assert Wanting(s, q)[1..] == Wanting(s, q[1..]) && Wanting(s1, q)[1..] == Wanting(s1, q[1..]);
      } else if !OnListClient(s, q[0]) {
        assert Wanting(s, q) == Wanting(s, q[1..]) && Wanting(s1, q) == Wanting(s1, q[1..]);
      }
    }
  }

  // Serving a client that only pops.
  lemma ServePlain(s: Server, k: Key, c: Client)
    requires c in s.waits && Items(s, k) != [] && s.waits[c].target == None
    ensures Serve(s, k, c).replies == s.replies + [Got(c, k, PopElem(FromHead(s, c), Items(s, k)))]
    ensures Items(Serve(s, k, c), k) == PopRest(FromHead(s, c), Items(s, k)) && IsList(Serve(s, k, c), k)
  {
    hide DequeueAll;
  }

  // The queue after its first client has gone to the end.
  lemma AfterRotate(s: Server, k: Key, n: nat)
    requires Wf(s) && 0 < n <= |Queue(s, k)| && Plain(s, Queue(s, k)) && !OnListClient(s, Queue(s, k)[0])
    ensures var s1 := Rotate(s, k);
      && n - 1 <= |Queue(s1, k)| && Plain(s1, Queue(s1, k)) && Queue(s1, k)[..n - 1] == Queue(s, k)[1..n]
      && Deal(s1, k, Wanting(s1, Queue(s1, k)[..n - 1]), Items(s1, k)) == Deal(s, k, Wanting(s, Queue(s, k)[..n]), Items(s, k))
  {
    var q, s1 := Queue(s, k), Rotate(s, k);
    var q1 := Queue(s1, k);
    hide Wf;
    assert |q| > 1 ==> q1 == q[1..] + [q[0]];
    assert q1[..n - 1] == q[1..n];
    forall d | d in q1 && OnListClient(s1, d) ensures s1.waits[d].target == None {
      assert d in q;
    }
    DealSame(s, s1, k, q[1..n], Items(s, k));
    assert q[..n][1..] == q[1..n] && q[..n][0] == q[0];
    assert Wanting(s, q[..n]) == Wanting(s, q[1..n]);
  }

  // The queue after its first client has been served.
  lemma AfterServe(s: Server, k: Key, n: nat)
    requires Wf(s) && 0 < n <= |Queue(s, k)| && Plain(s, Queue(s, k))
    requires OnListClient(s, Queue(s, k)[0]) && Items(s, k) != []
    ensures var c := Queue(s, k)[0];
      var s1 := Serve(s, k, c);
      && Queue(s1, k) == Queue(s, k)[1..] && Plain(s1, Queue(s1, k))
      && s1.replies + Deal(s1, k, Wanting(s1, Queue(s1, k)[..n - 1]), Items(s1, k))
         == s.replies + Deal(s, k, Wanting(s, Queue(s, k)[..n]), Items(s, k))
  {
    var q := Queue(s, k);
    var c := q[0];
    var s1 := Serve(s, k, c);
    QueueHead(s, k);
    ServeWf(s, k, c);
    ServePlain(s, k, c);
    assert QueueOk(s, k);
    hide Wf, Serve, Deal, Wanting, Items;
    var q1 := Queue(s1, k);
    assert q1 == q[1..];
    forall d | d in q1 ensures d != c && d in q && OnListClient(s1, d) == OnListClient(s, d) && FromHead(s1, d) == FromHead(s, d) {
    }
    assert q1[..n - 1] == q[1..n];
    DealSame(s, s1, k, q[1..n], Items(s1, k));
    DealNext(s, k, q[..n], Items(s, k));
    assert q[..n][1..] == q[1..n] && q[..n][0] == c;
  }

  lemma DealNext(s: Server, k: Key, q: seq<Client>, items: seq<Elem>)
    requires q != [] && OnListClient(s, q[0]) && items != []
    ensures Deal(s, k, Wanting(s, q), items) ==
      [Got(q[0], k, PopElem(FromHead(s, q[0]), items))] + Deal(s, k, Wanting(s, q[1..]), PopRest(FromHead(s, q[0]), items))
  {
    assert Wanting(s, q)[1..] == Wanting(s, q[1..]);
  }

  /** Clients that pop are served in the order in which they queue, one element each, until the
      clients or the elements run out. */
  lemma {:induction false} ServedInOrder(s: Server, k: Key, n: nat)
    requires Wf(s) && IsList(s, k) && n <= |Queue(s, k)| && Plain(s, Queue(s, k))
    ensures ServeLoop(s, k, n).replies == s.replies + Deal(s, k, Wanting(s, Queue(s, k)[..n]), Items(s, k))
    decreases n
  {
    hide Plain, Deal, Wanting, Serve, Rotate;
    if n == 0 || (Items(s, k) == [] && OnListClient(s, Queue(s, k)[0])) {
      NothingDealt(s, k, Queue(s, k)[..n]);
    } else {
      QueueHead(s, k);
      var c := Queue(s, k)[0];
      if !OnListClient(s, c) {
        RotateWf(s, k);
        RotateFrame(s, k);
        AfterRotate(s, k, n);
        ServedInOrder(Rotate(s, k), k, n - 1);
      } else {
        ServeWf(s, k, c);
        AfterServe(s, k, n);
        ServeKeepsList(s, k, c);
        ServedInOrder(Serve(s, k, c), k, n - 1);
      }
    }
  }

  lemma NothingDealt(s: Server, k: Key, q: seq<Client>)
    requires q == [] || Items(s, k) == []
    ensures Deal(s, k, Wanting(s, q), Items(s, k)) == []
  {
  }

  // Exactly as many as there are clients or elements, in the order of the queue.
  lemma {:induction false} DealFacts(s: Server, k: Key, q: seq<Client>, items: seq<Elem>)
    ensures var d := Deal(s, k, q, items);
      && |d| == (if |q| < |items| then |q| else |items|)
      && (forall i :: 0 <= i < |d| ==> d[i].Got? && d[i].client == q[i] && d[i].key == k)
      && ((forall c :: c in q ==> FromHead(s, c)) ==> forall i :: 0 <= i < |d| ==> d[i].elem == items[i])
    decreases |q|
  {
    if q != [] && items != [] {
      DealFacts(s, k, q[1..], PopRest(FromHead(s, q[0]), items));
      assert q[0] in q;
    }
  }

  /** For one key: with n clients that want to pop and m elements, the first min(n, m) clients of
      the queue are answered, in that order, and nobody else. */
  lemma FirstComeFirstServed(s: Server, k: Key)
    requires Wf(s) && IsList(s, k) && Plain(s, Queue(s, k))
    ensures s.replies <= ServeKey(s, k).replies
    ensures var q := Wanting(s, Queue(s, k));
      var answers := ServeKey(s, k).replies[|s.replies|..];
      && |answers| == (if |q| < |Items(s, k)| then |q| else |Items(s, k)|)
      && (forall i :: 0 <= i < |answers| ==> answers[i].Got? && answers[i].client == q[i] && answers[i].key == k)
      && ((forall c :: c in q ==> FromHead(s, c)) ==>
            forall i :: 0 <= i < |answers| ==> answers[i].elem == Items(s, k)[i])
  {
    hide Wf, ServeLoop, Wanting, Deal, Plain, FromHead, Items;
    var n := |Queue(s, k)|;
    ServedInOrder(s, k, n);
    assert Queue(s, k)[..n] == Queue(s, k);
    var q := Wanting(s, Queue(s, k));
    DealFacts(s, k, q, Items(s, k));
    assert ServeKey(s, k).replies[|s.replies|..] == Deal(s, k, q, Items(s, k));
  }

  // ------------------------------------------------------------------------- whole runs

  // What commands do to the keys and the waiting clients.
  datatype Command =
    | Create(key: Key, value: Value)        // a key that did not exist is added
    | Append(key: Key, elem: Elem, toHead: bool)
    | Delete(key: Key)
    | Overwrite(key: Key, value: Value)     // the value of an existing key is replaced
    | Block(client: Client, wait: Wait)     // nothing to pop at any of the keys, or no keys at all
    | Give(client: Client)                  // time out, or the client is gone

  // Lists are never empty between commands.
  predicate ValueOk(v: Value) {
    v.ListV? ==> v.items != []
  }

  predicate Enabled(s: Server, a: Command) {
    match a
    case Create(k, v) => k !in s.data && ValueOk(v)
    case Append(k, x, toHead) => IsList(s, k)
    case Delete(k) => true
    case Overwrite(k, v) => k in s.data && ValueOk(v)
    case Block(c, w) =>
      && c !in s.waits && (w.keys == {} ==> w.reason == OnModule || w.reason == OnWait || w.reason == OnPause)
      && (w.reason == OnList ==> forall k :: k in w.keys ==> !IsList(s, k))
    case Give(c) => c in s.waits
  }

  // One client joins the queues of a set of keys.
  function JoinAll(q: Queues, keys: set<Key>, c: Client): Queues {
    map k | k in q.Keys + keys :: if k in keys then (if k in q then q[k] else []) + [c] else q[k]
  }

  function Step(s: Server, a: Command): Server
    requires Enabled(s, a)
  {
    match a
    case Create(k, v) =>
      var s1 := s.(data := s.data[k := v]);
      if v.ListV? then SignalKeyAsReady(s1, k) else s1
    case Append(k, x, toHead) => Push(s, k, x, toHead)
    case Delete(k) => s.(data := s.data - {k})
    case Overwrite(k, v) => s.(data := s.data[k := v])
    case Block(c, w) => s.(queues := JoinAll(s.queues, w.keys, c), waits := s.waits[c := w])
    case Give(c) => Unblock(s, c)
  }

  // Nobody waits for a list at k, or k is going to be looked at anyway.
  ghost predicate Harmless(s: Server, k: Key) {
    k in s.marked || forall c :: c in Queue(s, k) ==> !OnListClient(s, c)
  }

  ghost predicate Careful(s: Server, a: Command) {
    a.Overwrite? && a.value.ListV? ==> Harmless(s, a.key)
  }

  lemma {:induction false} JoinIsEnqueue(q: Queues, keys: seq<Key>, c: Client)
    ensures EnqueueAll(q, keys, c) == JoinAll(q, Members(keys), c)
  {
    if keys == [] {
      assert Members(keys) == {};
      assert JoinAll(q, {}, c) == q;
    } else {
      var front, last := keys[..|keys| - 1], keys[|keys| - 1];
      JoinIsEnqueue(q, front, c);
      assert keys == front + [last];
      assert Members(keys) == Members(front) + {last};
      JoinOne(q, Members(front), last, c);
    }
  }

  lemma JoinOne(q: Queues, keys: set<Key>, k: Key, c: Client)
    ensures JoinAll(q, keys + {k}, c) == if k in keys then JoinAll(q, keys, c) else Enqueue(JoinAll(q, keys, c), k, c)
  {
    if k in keys {
      assert keys + {k} == keys;
    }
  }

  lemma BlockWf(s: Server, c: Client, w: Wait)
    requires Wf(s) && Enabled(s, Block(c, w))
    ensures Wf(Step(s, Block(c, w)))
  {
    var s1 := Step(s, Block(c, w));
    forall k ensures QueueOk(s1, k) {
      assert QueueOk(s, k) && Agree(s, k, c);
    }
    forall k, d ensures Agree(s1, k, d) {
      assert Agree(s, k, d) && Agree(s, k, c);
    }
  }

  lemma BlockInv(s: Server, c: Client, w: Wait)
    requires Inv(s, None, []) && Enabled(s, Block(c, w))
    ensures Inv(Step(s, Block(c, w)), None, [])
  {
    var s1 := Step(s, Block(c, w));
    BlockWf(s, c, w);
    forall k ensures Noticed(s1, k) {
      assert Noticed(s, k);
      assert Agree(s, k, c);
    }
    hide Wf;
    forall l | IsList(s1, l) ensures Items(s1, l) != [] {
      assert IsList(s, l);
    }
  }

  lemma DataInv(s: Server, s1: Server)
    requires Inv(s, None, []) && s1 == s.(data := s1.data)
    requires forall k :: Items(s1, k) == Items(s, k) || Items(s1, k) == [] || Harmless(s, k)
    requires forall k :: IsList(s1, k) ==> Items(s1, k) != []
    ensures Inv(s1, None, [])
  {
    SameQueues(s, s1);
    hide Wf;
    forall k ensures Noticed(s1, k) {
      assert Noticed(s, k);
      assert forall c :: OnListClient(s1, c) == OnListClient(s, c);
      assert Queue(s1, k) == Queue(s, k);
    }
  }

  lemma CreateInv(s: Server, k: Key, v: Value)
    requires Inv(s, None, []) && Enabled(s, Create(k, v))
    ensures Inv(Step(s, Create(k, v)), None, [])
  {
    var s1 := Step(s, Create(k, v));
    SameQueues(s, s1);
    forall l ensures Noticed(s1, l) {
      assert Noticed(s, l);
      if l != k || !v.ListV? {
        SameSettled(s, s1, l);
      } else if !Settled(s1, k) {
        var c :| c in Queue(s1, k) && OnListClient(s1, c);
        var s0 := s.(data := s1.data);
        assert c in s0.waits;
        assert Anybody(s0);
      }
    }
    hide Wf;
    forall l | IsList(s1, l) ensures Items(s1, l) != [] {
      assert l != k ==> IsList(s, l);
    }
  }

  /** Every command keeps what the work loop needs, if an existing key is not replaced by a list
      that somebody waits for. */
  lemma StepInv(s: Server, a: Command)
    requires Inv(s, None, []) && Enabled(s, a) && Careful(s, a)
    ensures Inv(Step(s, a), None, [])
  {
    hide Wf;
    match a
    case Create(k, v) => CreateInv(s, k, v);
    case Append(k, x, toHead) => PushInv(s, k, x, toHead, None, []);
    case Delete(k) =>
      forall l | IsList(Step(s, a), l) ensures Items(Step(s, a), l) != [] { assert IsList(s, l); }
      DataInv(s, Step(s, a));
    case Overwrite(k, v) =>
      forall l | IsList(Step(s, a), l) ensures Items(Step(s, a), l) != [] { assert l != k ==> IsList(s, l); }
      DataInv(s, Step(s, a));
    case Block(c, w) => BlockInv(s, c, w);
    case Give(c) => UnblockInv(s, c, None, []);
  }

  /** Replacing a key by a list wakes nobody: when nothing is ready, everybody is still settled
      exactly if nobody waits for a list at that key. */
  lemma OverwriteExactly(s: Server, k: Key, v: Value)
    requires Inv(s, None, []) && Enabled(s, Overwrite(k, v)) && v.ListV? && s.ready == []
    ensures Step(s, Overwrite(k, v)).ready == []
    ensures (forall l :: Settled(Step(s, Overwrite(k, v)), l)) <==> Harmless(s, k)
  {
    var s1 := Step(s, Overwrite(k, v));
    assert Queue(s1, k) == Queue(s, k);
    assert forall c :: OnListClient(s1, c) == OnListClient(s, c);
    if Harmless(s, k) {
      forall l ensures Settled(s1, l) {
        assert Noticed(s, l);
        if l != k { SameSettled(s, s1, l); }
      }
    } else {
      assert !Settled(s1, k);
    }
  }

  // Commands, and the work loop at any times: after each command, or after a whole transaction.
  datatype Event = Do(command: Command) | Work

  ghost predicate Legal(s: Server, es: seq<Event>)
    requires Inv(s, None, [])
    decreases |es|
  {
    es == [] ||
    match es[0]
    case Do(a) => Enabled(s, a) && Careful(s, a) && (StepInv(s, a); Legal(Step(s, a), es[1..]))
    case Work => (HandleSettles(s); Legal(Handle(s), es[1..]))
  }

  ghost function After(s: Server, es: seq<Event>): Server
    requires Inv(s, None, []) && Legal(s, es)
    decreases |es|
  {
    if es == [] then s
    else
      match es[0]
      case Do(a) => StepInv(s, a); After(Step(s, a), es[1..])
      case Work => HandleSettles(s); After(Handle(s), es[1..])
  }

  function Nobody(): Server {
    Server(map[], map[], map[], [], {}, [])
  }

  lemma {:induction false} WorkSettles(s: Server, es: seq<Event>)
    requires Inv(s, None, []) && Legal(s, es) && es != [] && es[|es| - 1] == Work
    ensures forall k :: Settled(After(s, es), k)
    decreases |es|
  {
    hide Inv, Settled, Step, Handle;
    var s1 := match es[0] case Do(a) => Step(s, a) case Work => Handle(s);
    match es[0] {
      case Do(a) => StepInv(s, a);
      case Work => HandleSettles(s);
    }
    if |es| > 1 {
      WorkSettles(s1, es[1..]);
    }
  }

  lemma NobodyInv()
    ensures Inv(Nobody(), None, [])
  {
    forall k ensures QueueOk(Nobody(), k) {}
    forall k, c ensures Agree(Nobody(), k, c) {}
  }

  ghost predicate Happens(es: seq<Event>) {
    NobodyInv();
    Legal(Nobody(), es)
  }

  ghost function Outcome(es: seq<Event>): Server
    requires Happens(es)
  {
    NobodyInv();
    After(Nobody(), es)
  }

  /** From an empty server, whatever the commands and whenever the work loop runs: right after it
      has run, no client that wants a list waits for a list with elements. */
  lemma NoLostWakeups(es: seq<Event>)
    requires Happens(es) && es != [] && es[|es| - 1] == Work
    ensures forall k :: Settled(Outcome(es), k)
  {
    hide Legal, After, Inv, Settled;
    NobodyInv();
    WorkSettles(Nobody(), es);
  }

  const WAITER := Wait(OnList, {"k"}, true, None, true)

  /** The condition matters: a client waits for "k", "k" is created as a string, and is then
      replaced by a list; nothing is ready and the client waits for a list with an element. */
  lemma ReplacedUnnoticed()
    ensures var s1 := Step(Nobody(), Block(1, WAITER));
      && Enabled(s1, Create("k", OtherV))
      && var s2 := Step(s1, Create("k", OtherV));
      && Enabled(s2, Overwrite("k", ListV(["x"])))
      && var s3 := Step(s2, Overwrite("k", ListV(["x"])));
      && s3.ready == [] && !Settled(s3, "k")
  {
    var s1 := Step(Nobody(), Block(1, WAITER));
    assert s1.queues["k"] == [1];
    var s3 := Step(Step(s1, Create("k", OtherV)), Overwrite("k", ListV(["x"])));
    assert 1 in Queue(s3, "k") && OnListClient(s3, 1);
  }

  // ------------------------------------------------------------ the tables in memory

  // Where a blocked pop takes its element and where it puts it.
  datatype Pop = Pop(fromHead: bool, target: Option<Key>, toHead: bool)

  // The waiting clients, from the index and what the clients asked for.
  ghost function WaitsIn(reasons: map<Client, Reason>, waits: Waits, pops: map<Client, Pop>): map<Client, Wait> {
    map c | c in reasons && c in pops ::
      Wait(reasons[c], WaitsOf(waits, c).Keys, pops[c].fromHead, pops[c].target, pops[c].toHead)
  }

  // The counters by type tell whether anybody is blocked for a reason.
  lemma CountsTell(reasons: map<Client, Reason>, waits: Waits, pops: map<Client, Pop>, r: Reason)
    requires pops.Keys == reasons.Keys
    ensures (exists c :: c in WaitsIn(reasons, waits, pops) && WaitsIn(reasons, waits, pops)[c].reason == r)
            <==> |Of(reasons, r)| > 0
  {
    var w := WaitsIn(reasons, waits, pops);
    if |Of(reasons, r)| > 0 {
      var c :| c in Of(reasons, r);
      assert c in w && w[c].reason == r;
    }
    if exists c :: c in w && w[c].reason == r {
      var c :| c in w && w[c].reason == r;
      assert c in Of(reasons, r);
    }
  }

  // The two-way index makes the queues and the waiting clients agree.
  lemma IndexWf(s: Server, nm: Nodes, reasons: map<Client, Reason>, waits: Waits, pops: map<Client, Pop>)
    requires Linked(nm, waits) && Covered(waits, reasons) && pops.Keys == reasons.Keys
    requires s.queues == QueuesOf(nm) && s.waits == WaitsIn(reasons, waits, pops)
    ensures Wf(s)
  {
    forall k ensures QueueOk(s, k) {
      if k in nm {
        QueueDistinct(nm, waits, k);
      }
    }
    forall k, c ensures Agree(s, k, c) {
      QueuedOnce(nm, waits, c, k);
      assert c in waits ==> c in reasons;
    }
  }

  lemma QueueDistinct(nm: Nodes, waits: Waits, k: Key)
    requires Linked(nm, waits) && k in nm
    ensures Values(nm[k]) != [] && DistinctQueue(Values(nm[k]))
  {
    var q := Values(nm[k]);
    forall i, j | 0 <= i < j < |q| ensures q[i] != q[j] {
      assert nm[k][i] in nm[k] && nm[k][j] in nm[k] && nm[k][i] != nm[k][j];
    }
  }

  lemma QueuedOnce(nm: Nodes, waits: Waits, c: Client, k: Key)
    requires Linked(nm, waits)
    ensures k in nm && c in Values(nm[k]) <==> k in WaitsOf(waits, c)
  {
    TwoWay(nm, waits, c, k);
    TimesNone(if k in nm then Values(nm[k]) else [], c);
  }

  class Scheduler {
    const index: Index
    var data: map<Key, Value>
    var pops: map<Client, Pop>
    var ready: seq<Key>
    var marked: set<Key>
    var replies: seq<Reply>

    ghost predicate Valid()
      reads this, index, index.shape.footprint
    {
      && index.Valid() && index !in index.shape.footprint && this !in index.shape.footprint
      && pops.Keys == index.reasons.Keys
    }

    ghost function State(): Server
      reads this, index
    {
      Server(data, index.Waiting(), WaitsIn(index.reasons, index.waits, pops), ready, marked, replies)
    }

    lemma StateWf()
      requires Valid()
      ensures Wf(State())
    {
      hide Linked, Covered, Wf, QueuesOf, WaitsIn;
      IndexWf(State(), index.shape.nodes, index.reasons, index.waits, pops);
    }

    constructor ()
      ensures Valid() && fresh(index) && fresh(index.shape.footprint) && State() == Nobody()
    {
      index := new Index();
      data, pops, ready, marked, replies := map[], map[], [], {}, [];
    }

    method Signal(k: Key)
      requires Valid()
      modifies `ready, `marked
      ensures Valid() && State() == SignalKeyAsReady(old(State()), k)
    {
      hide Index.Valid, WaitsIn, QueuesOf, Of;
      index.CountOf(OnList);
      index.CountOf(OnModule);
      CountsTell(index.reasons, index.waits, pops, OnList);
      CountsTell(index.reasons, index.waits, pops, OnModule);
      assert k in index.lists <==> k in index.Waiting() by { index.WaitingKeys(); }
      if index.blockedByType[OnList] == 0 && index.blockedByType[OnModule] == 0 { return; }
      if k !in index.lists { return; }
      if k in marked { return; }
      ready := ready + [k];
      marked := marked + {k};
    }

    method PushElem(k: Key, x: Elem, toHead: bool)
      requires Valid() && (k in data ==> data[k].ListV?)
      modifies `data, `ready, `marked
      ensures Valid() && State() == Push(old(State()), k, x, toHead)
    {
      hide Index.Valid, WaitsIn, SignalKeyAsReady;
      if k in data {
        var items := data[k].items;
        data := data[k := ListV(if toHead then [x] + items else items + [x])];
      } else {
        data := data[k := ListV([x])];
        assert [x] + [] == [x] == [] + [x];
        Signal(k);
      }
    }

    method UnblockClient(c: Client)
      requires Valid() && c in index.reasons
      modifies `pops, index, index.shape.footprint
      ensures Valid() && index.shape.footprint == old(index.shape.footprint)
      ensures State() == Unblock(old(State()), c)
    {
      hide Index.Valid, DequeueAll, QueuesOf;
      index.UnblockClient(c);
      pops := pops - {c};
      OneLess(old(index.reasons), old(index.waits), index.waits, old(pops), c);
    }

    /** A command found nothing to pop, or waits for something else. */
    method BlockClient(c: Client, r: Reason, keys: seq<Key>, pop: Pop)
      requires Valid()
      requires Enabled(State(), Block(c, Wait(r, Members(keys), pop.fromHead, pop.target, pop.toHead)))
      modifies `pops, index, index.shape.footprint
      ensures Valid() && fresh(index.shape.footprint - old(index.shape.footprint))
      ensures State() == Step(old(State()), Block(c, Wait(r, Members(keys), pop.fromHead, pop.target, pop.toHead)))
    {
      hide Index.Valid, Index.CountsOk, EnqueueAll, JoinAll, QueuesOf, Members;
      JoinIsEnqueue(index.Waiting(), keys, c);
      index.Block(c, r, keys);
      pops := pops[c := pop];
      OneMore(old(index.reasons), old(index.waits), index.waits, old(pops), c, r, pop);
    }

    // Pop for the client, deliver or move the element, or put it back; unblock in any case.
    method ServeClient(k: Key, c: Client)
      requires Valid() && c in index.reasons && Items(State(), k) != []
      modifies this, index, index.shape.footprint
      ensures Valid() && index.shape.footprint == old(index.shape.footprint)
      ensures State() == Serve(old(State()), k, c)
    {
      hide Index.Valid, QueuesOf, DequeueAll, SignalKeyAsReady;
      var pop := pops[c];
      var items := data[k].items;
      var x := if pop.fromHead then items[0] else items[|items| - 1];
      data := data[k := ListV(if pop.fromHead then items[1..] else items[..|items| - 1])];
      if pop.target.None? {
        replies := replies + [Got(c, k, x)];
      } else if pop.target.value in data && !data[pop.target.value].ListV? {
        data := data[k := ListV(if pop.fromHead then [x] + data[k].items else data[k].items + [x])];
        assert data[k].items == items;
        assert data == old(data);
        replies := replies + [WrongType(c)];
      } else {
        PushElem(pop.target.value, x, pop.toHead);
        replies := replies + [Moved(c, x)];
      }
      UnblockClient(c);
    }

    method RotateQueue(k: Key)
      requires Valid() && k in index.lists
      modifies index, index.shape.footprint
      ensures Valid() && index.shape.footprint == old(index.shape.footprint) && State() == Rotate(old(State()), k)
    {
      hide Index.Valid, QueuesOf, WaitsIn, RotateHead;
      index.RotateHeadToTail(k);
    }

    // The first client of the list: it goes to the end, is served, or finds the list empty.
    method ServeNext(k: Key, ghost n: nat) returns (stop: bool)
      requires Valid() && Wf(State()) && IsList(State(), k) && 0 < n <= |Queue(State(), k)|
      modifies this, index, index.shape.footprint
      ensures Valid() && index.shape.footprint == old(index.shape.footprint)
      ensures Wf(old(State())) && Wf(State()) && IsList(State(), k)
      ensures stop ==> State() == old(State()) && ServeLoop(old(State()), k, n) == State()
      ensures !stop ==> n - 1 <= |Queue(State(), k)| && ServeLoop(old(State()), k, n) == ServeLoop(State(), k, n - 1)
    {
      hide Serve, Rotate, Wf, Index.Valid, QueuesOf, WaitsIn;
      QueueHead(State(), k);
      index.WaitingKeys();
      var receiver := index.Next(k);
      ReceiverKnown(index.reasons, index.waits, pops, receiver);
      stop := false;
      if index.reasons[receiver] != OnList {
        RotateWf(State(), k);
        RotateFrame(State(), k);
        RotateQueue(k);
      } else if data[k].items == [] {
        stop := true;
      } else {
        ServeWf(State(), k, receiver);
        ServeKeepsList(State(), k, receiver);
        ServeClient(k, receiver);
      }
    }

    method ServeClientsBlockedOnListKey(k: Key)
      requires Valid() && IsList(State(), k)
      modifies this, index, index.shape.footprint
      ensures Valid() && index.shape.footprint == old(index.shape.footprint) && Wf(old(State()))
      ensures State() == ServeKey(old(State()), k)
    {
      hide ServeLoop, Wf, Index.Valid, QueuesOf, WaitsIn;
      StateWf();
      index.WaitingKeys();
      ghost var whole := ServeLoop(State(), k, |Queue(State(), k)|);
      var numclients: nat := 0;
      if k in index.lists {
        numclients := index.Size(k);
      }
      var stop := false;
      while numclients > 0 && !stop
        invariant Valid() && index.shape.footprint == old(index.shape.footprint)
        invariant Wf(State()) && IsList(State(), k)
        invariant !stop ==> numclients <= |Queue(State(), k)| && ServeLoop(State(), k, numclients) == whole
        invariant stop ==> State() == whole
        decreases numclients, !stop
      {
        stop := ServeNext(k, numclients);
        if !stop {
          numclients := numclients - 1;
        }
      }
      assert stop || ServeLoop(State(), k, 0) == State() by { NoneServed(State(), k); }
      if data[k].items == [] {
        data := data - {k};
      }
    }

    method HandleKeys(todo: seq<Key>)
      requires Valid() && Inv(State(), None, todo)
      modifies this, index, index.shape.footprint
      ensures Valid() && index.shape.footprint == old(index.shape.footprint)
      ensures State() == HandleRound(old(State()), todo)
    {
      hide Wf, ServeKey, Index.Valid, QueuesOf, WaitsIn;
      var l := todo;
      ghost var whole := HandleRound(State(), todo);
      while l != []
        invariant Valid() && index.shape.footprint == old(index.shape.footprint)
        invariant Inv(State(), None, l) && HandleRound(State(), l) == whole
        decreases |l|
      {
        var k := l[0];
        HandleKeyInv(State(), l);
        UnmarkWf(State(), k);
        marked := marked - {k};
        if k in data && data[k].ListV? {
          ServeClientsBlockedOnListKey(k);
        }
        l := l[1..];
      }
    }

    /** The work loop: it ends, and it leaves nobody waiting for a list with elements. */
    method HandleClientsBlockedOnKeys()
      requires Valid() && Inv(State(), None, [])
      modifies this, index, index.shape.footprint
      ensures Valid() && index.shape.footprint == old(index.shape.footprint)
      ensures State() == Handle(old(State())) && ready == []
      ensures forall k :: Settled(State(), k)
    {
      HandleSettles(State());
      hide Inv, Settled, HandleRound, Valid, QueuesOf, WaitsIn;
      ghost var whole := Handle(State());
      while ready != []
        invariant Valid() && index.shape.footprint == old(index.shape.footprint)
        invariant Inv(State(), None, []) && Handle(State()) == whole
        decreases |State().waits|, |ready|
      {
        ghost var s := State();
        TakeReadyInv(s);
        RoundInv(TakeReady(s), s.ready);
        FewerKeys(s, HandleRound(TakeReady(s), s.ready));
        HandleReady();
      }
    }

    // The ready keys are taken away first, so that new ones can be noted meanwhile.
    method HandleReady()
      requires Valid() && Inv(TakeReady(State()), None, ready)
      modifies this, index, index.shape.footprint
      ensures Valid() && index.shape.footprint == old(index.shape.footprint)
      ensures Inv(TakeReady(old(State())), None, old(ready))
      ensures State() == HandleRound(TakeReady(old(State())), old(ready))
    {
      hide Inv, HandleRound, Index.Valid, QueuesOf, WaitsIn;
      var l := ready;
      ready := [];
      HandleKeys(l);
    }
  }

  lemma NoneServed(s: Server, k: Key)
    requires Wf(s)
    ensures ServeLoop(s, k, 0) == s
  {
  }

  lemma OneLess(reasons: map<Client, Reason>, w0: Waits, w1: Waits, pops: map<Client, Pop>, c: Client)
    requires OnlyChanges(w0, w1, c)
    ensures WaitsIn(reasons - {c}, w1, pops - {c}) == WaitsIn(reasons, w0, pops) - {c}
  {
  }

  lemma OneMore(reasons: map<Client, Reason>, w0: Waits, w1: Waits, pops: map<Client, Pop>, c: Client, r: Reason, pop: Pop)
    requires OnlyChanges(w0, w1, c)
    ensures WaitsIn(reasons[c := r], w1, pops[c := pop])
         == WaitsIn(reasons, w0, pops)[c := Wait(r, WaitsOf(w1, c).Keys, pop.fromHead, pop.target, pop.toHead)]
  {
  }

  lemma ReceiverKnown(reasons: map<Client, Reason>, waits: Waits, pops: map<Client, Pop>, c: Client)
    requires c in WaitsIn(reasons, waits, pops)
    ensures c in reasons && WaitsIn(reasons, waits, pops)[c].reason == reasons[c]
  {
  }

  lemma UnmarkWf(s: Server, k: Key)
    requires Wf(s)
    ensures Wf(Unmark(s, k))
  {
    SameQueues(s, Unmark(s, k));
  }
}
