/**
What becomes of the elements while waiting clients are served: who gets which, where a move puts
it, and that none is lost or made up.
*/
module Delivery {
  import opened Options
  import opened BlockingIndex
  import opened Blocked

  // -------------------------------------------------------------------------- one client

  function AtEnd(items: seq<Elem>, x: Elem, toHead: bool): seq<Elem> {
    if toHead then [x] + items else items + [x]
  }

  // Everything at other keys is untouched.
  predicate OnlyLists(s: Server, s1: Server, k: Key, d: Key) {
    s1.data - {k, d} == s.data - {k, d}
  }

  /** Serving a client: a pop delivers the element at the end it asked for; a move puts that
      element at the end asked for of the target, which may be the list itself; a target that is
      no list leaves all data as it was.  There is one answer, and it is for this client. */
  lemma ServeExactly(s: Server, k: Key, c: Client)
    requires c in s.waits && Items(s, k) != []
    ensures var w, s1 := s.waits[c], Serve(s, k, c);
      var x, rest := PopElem(w.fromHead, Items(s, k)), PopRest(w.fromHead, Items(s, k));
      match w.target
      case None =>
        && s1.replies == s.replies + [Got(c, k, x)]
        && Items(s1, k) == rest && IsList(s1, k) && OnlyLists(s, s1, k, k)
      case Some(d) =>
        if d in s.data && !IsList(s, d) then s1.replies == s.replies + [WrongType(c)] && s1.data == s.data
        else
          && s1.replies == s.replies + [Moved(c, x)] && IsList(s1, k) && IsList(s1, d) && OnlyLists(s, s1, k, d)
          && Items(s1, d) == AtEnd(if d == k then rest else Items(s, d), x, w.toHead)
          && (d != k ==> Items(s1, k) == rest)
  {
    hide DequeueAll;
  }

  /** Moving within one list from one end to the other turns it by one; to the same end it
      changes nothing. */
  lemma MoveWithin(s: Server, k: Key, c: Client)
    requires c in s.waits && Items(s, k) != [] && s.waits[c].target == Some(k)
    ensures var w, items, s1 := s.waits[c], Items(s, k), Serve(s, k, c);
      Items(s1, k) ==
        if w.fromHead == w.toHead then items
        else if w.fromHead then items[1..] + [items[0]]
        else [items[|items| - 1]] + items[..|items| - 1]
  {
    ServeExactly(s, k, c);
    hide Serve;
    var items := Items(s, k);
    assert items == [items[0]] + items[1..] == items[..|items| - 1] + [items[|items| - 1]];
  }

  // ------------------------------------------------------------------------------ order

  function Clients(replies: seq<Reply>): seq<Client> {
    seq(|replies|, i requires 0 <= i < |replies| => replies[i].client)
  }

  lemma OneAnswer(s: Server, k: Key, c: Client)
    requires c in s.waits && Items(s, k) != []
    ensures var s1 := Serve(s, k, c);
      && |s1.replies| == |s.replies| + 1 && s.replies <= s1.replies && s1.replies[|s.replies|].client == c
      && IsList(s1, k)
  {
    ServeExactly(s, k, c);
    hide Serve;
  }

  // The answers since `from`.
  function News(from: seq<Reply>, to: seq<Reply>): seq<Client>
    requires from <= to
  {
    Clients(to[|from|..])
  }

  // The rest of the queue wants what it wanted.
  lemma SameWanting(s: Server, s1: Server, k: Key, q: seq<Client>)
    requires forall c :: c in q ==> OnListClient(s1, c) == OnListClient(s, c) && FromHead(s1, c) == FromHead(s, c)
    ensures Wanting(s1, q) == Wanting(s, q)
  {
    DealSame(s, s1, k, q, []);
  }

  lemma WantingAfterServe(s: Server, k: Key, n: nat)
    requires Wf(s) && 0 < n <= |Queue(s, k)| && OnListClient(s, Queue(s, k)[0]) && Items(s, k) != []
    ensures var c := Queue(s, k)[0];
      var s1 := Serve(s, k, c);
      && Wf(s1) && Queue(s1, k) == Queue(s, k)[1..]
      && Wanting(s, Queue(s, k)[..n]) == [c] + Wanting(s1, Queue(s1, k)[..n - 1])
  {
    var q := Queue(s, k);
    var c := q[0];
    QueueHead(s, k);
    ServeWf(s, k, c);
    assert QueueOk(s, k);
    hide Wf, Serve;
    var s1 := Serve(s, k, c);
    var q1 := Queue(s1, k);
    assert q1 == q[1..] && q1[..n - 1] == q[1..n] == q[..n][1..];
    forall d | d in q[1..n] ensures OnListClient(s1, d) == OnListClient(s, d) && FromHead(s1, d) == FromHead(s, d) {
      assert d != c;
    }
    SameWanting(s, s1, k, q[1..n]);
  }

  lemma WantingAfterRotate(s: Server, k: Key, n: nat)
    requires Wf(s) && 0 < n <= |Queue(s, k)| && !OnListClient(s, Queue(s, k)[0])
    ensures var s1 := Rotate(s, k);
      && Wf(s1) && n - 1 <= |Queue(s1, k)|
      && Wanting(s, Queue(s, k)[..n]) == Wanting(s1, Queue(s1, k)[..n - 1])
  {
    RotateWf(s, k);
    hide Wf;
    var q, s1 := Queue(s, k), Rotate(s, k);
    var q1 := Queue(s1, k);
    assert q1[..n - 1] == q[1..n] == q[..n][1..];
    SameWanting(s, s1, k, q[1..n]);
  }

  /** Whatever they asked for, clients that want a list are answered in the order in which they
      queue, each once, and all of them unless the list runs out. */
  lemma {:induction false} AnsweredInOrder(s: Server, k: Key, n: nat)
    requires Wf(s) && IsList(s, k) && n <= |Queue(s, k)|
    ensures var r := ServeLoop(s, k, n);
      && s.replies <= r.replies && News(s.replies, r.replies) <= Wanting(s, Queue(s, k)[..n])
      && (News(s.replies, r.replies) == Wanting(s, Queue(s, k)[..n]) || Items(r, k) == [])
    decreases n
  {
    hide Wanting, Serve, Rotate, Items;
    if n == 0 {
      assert Wanting(s, Queue(s, k)[..0]) == [] by { NoneWanting(s); }
    } else {
      QueueHead(s, k);
      var c := Queue(s, k)[0];
      if !OnListClient(s, c) {
        WantingAfterRotate(s, k, n);
        RotateFrame(s, k);
        AnsweredInOrder(Rotate(s, k), k, n - 1);
      } else if Items(s, k) != [] {
        WantingAfterServe(s, k, n);
        OneAnswer(s, k, c);
        var s1 := Serve(s, k, c);
        AnsweredInOrder(s1, k, n - 1);
        NewsJoin(s.replies, s1.replies, ServeLoop(s, k, n).replies);
      }
    }
  }

  lemma NoneWanting(s: Server)
    ensures Wanting(s, []) == []
  {
  }

  lemma NewsJoin(a: seq<Reply>, b: seq<Reply>, c: seq<Reply>)
    requires a <= b <= c && |b| == |a| + 1
    ensures News(a, c) == [b[|a|].client] + News(b, c)
  {
  }

  // ----------------------------------------------------------------------- conservation

  // How often an element is in a value, at a key, in all lists.
  function Within(v: Value, x: Elem): nat {
    if v.ListV? then multiset(v.items)[x] else 0
  }

  function At(data: map<Key, Value>, k: Key, x: Elem): nat {
    if k in data then Within(data[k], x) else 0
  }

  ghost function Stock(data: map<Key, Value>, x: Elem): nat
    decreases |data|
  {
    if data == map[] then 0
    else
      var k :| k in data;
      Smaller(data, k);
      Within(data[k], x) + Stock(data - {k}, x)
  }

  lemma Smaller(data: map<Key, Value>, k: Key)
    requires k in data
    ensures |data - {k}| < |data|
  {
    assert data.Keys == (data - {k}).Keys + {k};
  }

  // The order in which the keys are taken does not matter.
  lemma {:induction false} StockWithout(data: map<Key, Value>, k: Key, x: Elem)
    ensures Stock(data, x) == At(data, k, x) + Stock(data - {k}, x)
    decreases |data|
  {
    hide Within;
    if k !in data {
      assert data - {k} == data;
    } else {
      var l :| l in data && Stock(data, x) == Within(data[l], x) + Stock(data - {l}, x);
      if l != k {
        Smaller(data, l);
        Smaller(data, k);
        StockWithout(data - {l}, k, x);
        StockWithout(data - {k}, l, x);
        assert data - {l} - {k} == data - {k} - {l};
      }
    }
  }

  lemma StockAfter(data: map<Key, Value>, k: Key, v: Value, x: Elem)
    ensures Stock(data[k := v], x) + At(data, k, x) == Stock(data, x) + Within(v, x)
    ensures Stock(data - {k}, x) + At(data, k, x) == Stock(data, x)
  {
    hide Stock, Within;
    StockWithout(data[k := v], k, x);
    StockWithout(data, k, x);
    assert data[k := v] - {k} == data - {k};
  }

  function Is(e: Elem, x: Elem): nat {
    if e == x then 1 else 0
  }

  // How often it was handed to a client.
  function Handed(replies: seq<Reply>, x: Elem): nat {
    if replies == [] then 0
    else
      var last := replies[|replies| - 1];
      Handed(replies[..|replies| - 1], x) + if last.Got? then Is(last.elem, x) else 0
  }

  ghost function Held(s: Server, x: Elem): nat {
    Stock(s.data, x) + Handed(s.replies, x)
  }

  lemma AtEndCount(items: seq<Elem>, e: Elem, toHead: bool, x: Elem)
    ensures multiset(AtEnd(items, e, toHead))[x] == multiset(items)[x] + Is(e, x)
  {
  }

  lemma PopCount(fromHead: bool, items: seq<Elem>, x: Elem)
    requires items != []
    ensures multiset(items)[x] == multiset(PopRest(fromHead, items))[x] + Is(PopElem(fromHead, items), x)
  {
    var e, rest := PopElem(fromHead, items), PopRest(fromHead, items);
    assert items == AtEnd(rest, e, fromHead);
    AtEndCount(rest, e, fromHead, x);
  }

  lemma PushStock(s: Server, k: Key, e: Elem, toHead: bool, x: Elem)
    requires k in s.data ==> s.data[k].ListV?
    ensures Stock(Push(s, k, e, toHead).data, x) == Stock(s.data, x) + Is(e, x)
  {
    hide Stock;
    var items := AtEnd(Items(s, k), e, toHead);
    AtEndCount(Items(s, k), e, toHead, x);
    StockAfter(s.data, k, ListV(items), x);
    assert Push(s, k, e, toHead).data == s.data[k := ListV(items)];
  }

  lemma HandedOneMore(replies: seq<Reply>, r: Reply, x: Elem)
    ensures Handed(replies + [r], x) == Handed(replies, x) + if r.Got? then Is(r.elem, x) else 0
  {
    assert (replies + [r])[..|replies|] == replies;
  }

  /** Serving a client keeps every element in some list or with a client. */
  lemma ServeConserves(s: Server, k: Key, c: Client, x: Elem)
    requires c in s.waits && Items(s, k) != []
    ensures Held(Serve(s, k, c), x) == Held(s, x)
  {
    hide Stock, Handed, DequeueAll, Is, Push;
    var w, items := s.waits[c], Items(s, k);
    var e, rest := PopElem(w.fromHead, items), PopRest(w.fromHead, items);
    var popped := s.(data := s.data[k := ListV(rest)]);
    PopCount(w.fromHead, items, x);
    StockAfter(s.data, k, ListV(rest), x);
    HandedOneMore(s.replies, Got(c, k, e), x);
    HandedOneMore(s.replies, Moved(c, e), x);
    HandedOneMore(s.replies, WrongType(c), x);
    if w.target.Some? && (w.target.value in popped.data ==> popped.data[w.target.value].ListV?) {
      PushWaits(popped, w.target.value, e, w.toHead);
      PushStock(popped, w.target.value, e, w.toHead, x);
    }
  }

  lemma {:induction false} LoopConserves(s: Server, k: Key, n: nat, x: Elem)
    requires Wf(s) && IsList(s, k) && n <= |Queue(s, k)|
    ensures Held(ServeLoop(s, k, n), x) == Held(s, x)
    ensures IsList(ServeLoop(s, k, n), k)
    decreases n
  {
    hide Stock, Handed, Serve, Rotate;
    if n > 0 {
      QueueHead(s, k);
      var c := Queue(s, k)[0];
      if s.waits[c].reason != OnList {
        RotateWf(s, k);
        RotateFrame(s, k);
        LoopConserves(Rotate(s, k), k, n - 1, x);
      } else if Items(s, k) != [] {
        ServeWf(s, k, c);
        ServeConserves(s, k, c, x);
        ServeKeepsList(s, k, c);
        LoopConserves(Serve(s, k, c), k, n - 1, x);
      }
    }
  }

  lemma KeyConserves(s: Server, k: Key, x: Elem)
    requires Wf(s)
    ensures Held(HandleKey(s, k), x) == Held(s, x)
  {
    hide Stock, Handed, ServeLoop;
    SameQueues(s, Unmark(s, k));
    var s1 := Unmark(s, k);
    if IsList(s, k) {
      LoopConserves(s1, k, |Queue(s1, k)|, x);
      var r := ServeLoop(s1, k, |Queue(s1, k)|);
      StockAfter(r.data, k, OtherV, x);
    }
  }

  lemma {:induction false} RoundConserves(s: Server, todo: seq<Key>, x: Elem)
    requires Inv(s, None, todo)
    ensures Held(HandleRound(s, todo), x) == Held(s, x)
    decreases |todo|
  {
    hide Held, HandleKey, Wf;
    if todo != [] {
      KeyConserves(s, todo[0], x);
      HandleKeyInv(s, todo);
      RoundConserves(HandleKey(s, todo[0]), todo[1..], x);
    }
  }

  /** However many rounds the work loop takes, no element is lost or made up. */
  lemma {:induction false} HandleConserves(s: Server, x: Elem)
    requires Inv(s, None, [])
    ensures Held(Handle(s), x) == Held(s, x)
    decreases |s.waits|, |s.ready|
  {
    if s.ready != [] {
      TakeReadyInv(s);
      var r := HandleRound(TakeReady(s), s.ready);
      RoundInv(TakeReady(s), s.ready);
      FewerKeys(s, r);
      RoundConserves(TakeReady(s), s.ready, x);
      hide Inv, HandleRound, Stock, Handed;
      HandleConserves(r, x);
    }
  }

  // ------------------------------------------------------------------------- whole runs

  // What a command brings in and what it throws away.
  function Brings(a: Command, x: Elem): nat {
    match a
    case Create(k, v) => Within(v, x)
    case Append(k, e, toHead) => Is(e, x)
    case Overwrite(k, v) => Within(v, x)
    case _ => 0
  }

  function Drops(s: Server, a: Command, x: Elem): nat {
    if a.Delete? || a.Overwrite? then At(s.data, a.key, x) else 0
  }

  lemma StepBalance(s: Server, a: Command, x: Elem)
    requires Enabled(s, a)
    ensures Held(Step(s, a), x) + Drops(s, a, x) == Held(s, x) + Brings(a, x)
  {
    hide Stock, Handed, DequeueAll, Within, Is;
    match a
    case Create(k, v) => StockAfter(s.data, k, v, x);
    case Append(k, e, toHead) => PushStock(s, k, e, toHead, x);
    case Delete(k) => StockAfter(s.data, k, OtherV, x);
    case Overwrite(k, v) => StockAfter(s.data, k, v, x);
    case _ =>
  }

  ghost function Brought(s: Server, es: seq<Event>, x: Elem): nat
    requires Inv(s, None, []) && Legal(s, es)
    decreases |es|
  {
    if es == [] then 0
    else
      match es[0]
      case Do(a) => StepInv(s, a); Brings(a, x) + Brought(Step(s, a), es[1..], x)
      case Work => HandleSettles(s); Brought(Handle(s), es[1..], x)
  }

  ghost function Dropped(s: Server, es: seq<Event>, x: Elem): nat
    requires Inv(s, None, []) && Legal(s, es)
    decreases |es|
  {
    if es == [] then 0
    else
      match es[0]
      case Do(a) => StepInv(s, a); Drops(s, a, x) + Dropped(Step(s, a), es[1..], x)
      case Work => HandleSettles(s); Dropped(Handle(s), es[1..], x)
  }

  lemma {:induction false} RunBalance(s: Server, es: seq<Event>, x: Elem)
    requires Inv(s, None, []) && Legal(s, es)
    ensures Held(After(s, es), x) + Dropped(s, es, x) == Held(s, x) + Brought(s, es, x)
    decreases |es|
  {
    hide Held, Inv, Handle, Step, Brings, Drops, Enabled, Careful;
    if es != [] {
      match es[0]
      case Do(a) =>
        StepInv(s, a);
        StepBalance(s, a, x);
        RunBalance(Step(s, a), es[1..], x);
      case Work =>
        HandleSettles(s);
        HandleConserves(s, x);
        RunBalance(Handle(s), es[1..], x);
    }
  }

  /** From an empty server, whatever the commands and whenever the work loop runs: every element
      is in the lists, handed to clients or thrown away by a command, together exactly as often
      as it was pushed. */
  lemma NothingLost(es: seq<Event>, x: Elem)
    requires Happens(es)
    ensures Inv(Nobody(), None, [])
    ensures Held(Outcome(es), x) + Dropped(Nobody(), es, x) == Brought(Nobody(), es, x)
  {
    NobodyInv();
    hide Inv, Legal, After, Brought, Dropped;
    RunBalance(Nobody(), es, x);
  }
}
