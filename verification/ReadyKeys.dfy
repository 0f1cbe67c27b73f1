/**
The keys that are ready: each is queued once, whatever happens while the queue is worked off, and
only for a reason.
*/
module ReadyKeys {
  import opened Options
  import opened BlockingIndex
  import opened Blocked

  ghost predicate DistinctKeys(q: seq<Key>) {
    forall i, j :: 0 <= i < j < |q| ==> q[i] != q[j]
  }

  // The keys of this round and of the next are all different and are those that are marked.
  ghost predicate Once(s: Server, todo: seq<Key>) {
    DistinctKeys(todo + s.ready) && forall k :: k in s.marked <==> k in todo + s.ready
  }

  lemma SignalOnce(s: Server, k: Key, todo: seq<Key>)
    requires Once(s, todo)
    ensures Once(SignalKeyAsReady(s, k), todo)
  {
    hide Anybody;
    var s1 := SignalKeyAsReady(s, k);
    if s1 != s {
      assert todo + s1.ready == (todo + s.ready) + [k];
      forall l ensures l in s1.marked <==> l in todo + s1.ready {
        assert l in todo + s.ready <==> l in s.marked;
      }
    }
  }

  // Nothing else touches the queue.
  ghost predicate SameReady(s: Server, s1: Server) {
    s1.ready == s.ready && s1.marked == s.marked
  }

  lemma PushOnce(s: Server, k: Key, x: Elem, toHead: bool, todo: seq<Key>)
    requires Once(s, todo) && (k in s.data ==> s.data[k].ListV?)
    ensures Once(Push(s, k, x, toHead), todo)
  {
    var s1 := s.(data := Push(s, k, x, toHead).data);
    assert Once(s1, todo);
    hide Once, Anybody;
    SignalOnce(s1, k, todo);
  }

  lemma ServeOnce(s: Server, k: Key, c: Client, todo: seq<Key>)
    requires Once(s, todo) && c in s.waits && Items(s, k) != []
    ensures Once(Serve(s, k, c), todo)
  {
    hide DequeueAll, Push;
    var w, items := s.waits[c], Items(s, k);
    var x := if w.fromHead then items[0] else items[|items| - 1];
    var popped := s.(data := s.data[k := ListV(if w.fromHead then items[1..] else items[..|items| - 1])]);
    if w.target.Some? && (w.target.value in popped.data ==> popped.data[w.target.value].ListV?) {
      PushOnce(popped, w.target.value, x, w.toHead, todo);
      PushWaits(popped, w.target.value, x, w.toHead);
    }
    ServeReady(s, k, c);
  }

  lemma ServeReady(s: Server, k: Key, c: Client)
    requires c in s.waits && Items(s, k) != []
    ensures var w, items := s.waits[c], Items(s, k);
      var x := if w.fromHead then items[0] else items[|items| - 1];
      var popped := s.(data := s.data[k := ListV(if w.fromHead then items[1..] else items[..|items| - 1])]);
      if w.target.Some? && (w.target.value in popped.data ==> popped.data[w.target.value].ListV?)
      then SameReady(Push(popped, w.target.value, x, w.toHead), Serve(s, k, c)) else SameReady(s, Serve(s, k, c))
  {
    hide DequeueAll;
  }

  lemma {:induction false} LoopOnce(s: Server, k: Key, n: nat, todo: seq<Key>)
    requires Wf(s) && n <= |Queue(s, k)| && Once(s, todo)
    ensures Once(ServeLoop(s, k, n), todo)
    decreases n
  {
    hide Once, Serve, Rotate;
    if n > 0 {
      QueueHead(s, k);
      var c := Queue(s, k)[0];
      if s.waits[c].reason != OnList {
        RotateWf(s, k);
        SameOnce(s, Rotate(s, k), todo) by { RotateFrame(s, k); }
        LoopOnce(Rotate(s, k), k, n - 1, todo);
      } else if Items(s, k) != [] {
        ServeWf(s, k, c);
        ServeOnce(s, k, c, todo);
        LoopOnce(Serve(s, k, c), k, n - 1, todo);
      }
    }
  }

  lemma SameOnce(s: Server, s1: Server, todo: seq<Key>)
    requires Once(s, todo) && SameReady(s, s1)
    ensures Once(s1, todo)
  {
  }

  lemma UnmarkOnce(s: Server, todo: seq<Key>)
    requires todo != [] && Once(s, todo)
    ensures Once(Unmark(s, todo[0]), todo[1..])
  {
    var k, q := todo[0], todo + s.ready;
    assert todo[1..] + s.ready == q[1..] && q == [k] + q[1..];
    forall i | 0 <= i < |q[1..]| ensures q[1..][i] != k {
      assert q[1..][i] == q[i + 1] && q[0] == k;
    }
    forall l ensures l in Unmark(s, k).marked <==> l in q[1..] {
      assert l in s.marked <==> l in q;
    }
  }

  lemma KeyOnce(s: Server, todo: seq<Key>)
    requires Wf(s) && todo != [] && Once(s, todo)
    ensures Once(HandleKey(s, todo[0]), todo[1..])
  {
    var k := todo[0];
    UnmarkOnce(s, todo);
    SameQueues(s, Unmark(s, k));
    hide Once, ServeLoop;
    var s1 := Unmark(s, k);
    if IsList(s, k) {
      LoopOnce(s1, k, |Queue(s1, k)|, todo[1..]);
      var r := ServeLoop(s1, k, |Queue(s1, k)|);
      SameOnce(r, Trim(r, k), todo[1..]);
    }
  }

  lemma {:induction false} RoundOnce(s: Server, todo: seq<Key>)
    requires Inv(s, None, todo) && Once(s, todo)
    ensures Once(HandleRound(s, todo), [])
    decreases |todo|
  {
    hide Once, HandleKey, Wf;
    if todo != [] {
      KeyOnce(s, todo);
      HandleKeyInv(s, todo);
      RoundOnce(HandleKey(s, todo[0]), todo[1..]);
    }
  }

  lemma {:induction false} HandleOnce(s: Server)
    requires Inv(s, None, []) && Once(s, [])
    ensures Once(Handle(s), []) && Handle(s).marked == {}
    decreases |s.waits|, |s.ready|
  {
    if s.ready == [] {
      assert forall k :: k !in s.marked;
    } else {
      TakeReadyInv(s);
      var r := HandleRound(TakeReady(s), s.ready);
      RoundInv(TakeReady(s), s.ready);
      FewerKeys(s, r);
      assert [] + s.ready == s.ready + [];
      RoundOnce(TakeReady(s), s.ready);
      hide Inv, HandleRound, Once;
      HandleOnce(r);
    }
  }

  lemma StepOnce(s: Server, a: Command)
    requires Once(s, []) && Enabled(s, a)
    ensures Once(Step(s, a), [])
  {
    hide Once, DequeueAll, Anybody, Push, SignalKeyAsReady;
    match a
    case Create(k, v) =>
      var s1 := s.(data := s.data[k := v]);
      SameOnce(s, s1, []);
      SignalOnce(s1, k, []);
    case Append(k, x, toHead) => PushOnce(s, k, x, toHead, []);
    case _ => SameOnce(s, Step(s, a), []);
  }

  lemma {:induction false} RunOnce(s: Server, es: seq<Event>)
    requires Inv(s, None, []) && Legal(s, es) && Once(s, [])
    ensures Once(After(s, es), [])
    decreases |es|
  {
    hide Once, Inv, Handle, Step, Enabled, Careful;
    if es != [] {
      match es[0]
      case Do(a) =>
        StepInv(s, a);
        StepOnce(s, a);
        RunOnce(Step(s, a), es[1..]);
      case Work =>
        HandleSettles(s);
        HandleOnce(s);
        RunOnce(Handle(s), es[1..]);
    }
  }

  /** In every run no key is queued twice, and the look-up knows exactly the queued keys. */
  lemma NeverTwice(es: seq<Event>)
    requires Happens(es)
    ensures Once(Outcome(es), [])
  {
    NobodyInv();
    assert Once(Nobody(), []);
    hide Inv, Legal, After, Once;
    RunOnce(Nobody(), es);
  }

  /** A push makes a key ready exactly if it creates the key, somebody waits for it, somebody is
      blocked on a list or by a module at all, and it is not queued already. */
  lemma WokenExactly(s: Server, k: Key, x: Elem, toHead: bool)
    requires Wf(s) && (k in s.data ==> s.data[k].ListV?)
    ensures var s1 := Push(s, k, x, toHead);
      s1.ready ==
        if k !in s.data && k !in s.marked && Queue(s, k) != []
           && exists c :: c in s.waits && (s.waits[c].reason == OnList || s.waits[c].reason == OnModule)
        then s.ready + [k] else s.ready
  {
    assert QueueOk(s, k);
    var s1 := s.(data := Push(s, k, x, toHead).data);
    assert Anybody(s1) == Anybody(s);
  }
}
