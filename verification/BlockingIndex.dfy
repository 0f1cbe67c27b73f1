/**
Who waits for what, in both directions: every key has the list of clients that wait for it, and
every client has, for each key it waits for, a pointer to its own node in that list.
*/
module BlockingIndex {
  import opened AdList

  type Client = nat
  type Key = string

  type Queues = map<Key, seq<Client>>

  // ------------------------------------------------------------ the queues as values

  function Enqueue(q: Queues, k: Key, c: Client): Queues {
    q[k := (if k in q then q[k] else []) + [c]]
  }

  // The queue without one client; a key nobody waits for has no entry.
  function Dequeue(q: Queues, k: Key, c: Client): Queues {
    if k !in q then q
    else
      var s := Remove(q[k], c);
      if s == [] then q - {k} else q[k := s]
  }

  function Remove(s: seq<Client>, c: Client): seq<Client> {
    if s == [] then [] else if s[0] == c then s[1..] else [s[0]] + Remove(s[1..], c)
  }

  function RotateHead(q: Queues, k: Key): Queues {
    if k in q && |q[k]| > 1 then q[k := q[k][1..] + [q[k][0]]] else q
  }

  ghost function Values(nodes: seq<Node<Client>>): (s: seq<Client>)
    ensures |s| == |nodes| && forall i :: 0 <= i < |s| ==> s[i] == nodes[i].value
  {
    seq(|nodes|, i requires 0 <= i < |nodes| => nodes[i].value)
  }

  lemma {:induction false} RemoveAt(s: seq<Client>, i: nat)
    requires i < |s| && forall j :: 0 <= j < |s| && j != i ==> s[j] != s[i]
    ensures Remove(s, s[i]) == s[..i] + s[i + 1..]
    decreases i
  {
    if i > 0 {
      assert s[0] != s[i];
      assert s[1..][i - 1] == s[i];
      RemoveAt(s[1..], i - 1);
      assert s[1..][..i - 1] == s[1..i] && s[1..][i..] == s[i + 1..];
    }
  }

  // One client at the end of several queues, once each.
  function EnqueueAll(q: Queues, keys: seq<Key>, c: Client): Queues {
    if keys == [] then q
    else
      var q1 := EnqueueAll(q, keys[..|keys| - 1], c);
      if keys[|keys| - 1] in keys[..|keys| - 1] then q1 else Enqueue(q1, keys[|keys| - 1], c)
  }

  function Members(keys: seq<Key>): set<Key> {
    set k | k in keys
  }

  lemma EnqueueNext(q: Queues, keys: seq<Key>, j: nat, c: Client)
    requires j < |keys|
    ensures Members(keys[..j + 1]) == Members(keys[..j]) + {keys[j]}
    ensures EnqueueAll(q, keys[..j + 1], c) ==
      if keys[j] in Members(keys[..j]) then EnqueueAll(q, keys[..j], c) else Enqueue(EnqueueAll(q, keys[..j], c), keys[j], c)
  {
    assert keys[..j + 1][..j] == keys[..j];
    assert keys[..j + 1] == keys[..j] + [keys[j]];
  }

  lemma EnqueueFirst(q: Queues, keys: seq<Key>, c: Client)
    ensures Members(keys[..0]) == {} && EnqueueAll(q, keys[..0], c) == q
  {
  }

  lemma NotEmpty(keys: seq<Key>)
    requires keys != []
    ensures Members(keys) != {}
  {
    assert keys[0] in Members(keys);
  }

  // The queues without one client, at the keys it waits for.
  function DequeueAll(q: Queues, keys: set<Key>, c: Client): Queues {
    map k | k in q && (k in keys ==> Remove(q[k], c) != []) :: if k in keys then Remove(q[k], c) else q[k]
  }

  lemma DequeueNext(q: Queues, done: set<Key>, k: Key, c: Client)
    requires k !in done
    ensures DequeueAll(q, done + {k}, c) == Dequeue(DequeueAll(q, done, c), k, c)
  {
  }

  // While the client still has to leave the queues of the keys `left`.
  ghost function Dequeued(q: Queues, keys: set<Key>, left: set<Key>, c: Client): Queues {
    DequeueAll(q, keys - left, c)
  }

  lemma DequeueStart(q: Queues, keys: set<Key>, c: Client)
    ensures Dequeued(q, keys, keys, c) == q
  {
    assert keys - keys == {};
    DequeueNone(q, c);
  }

  lemma DequeueMore(q: Queues, keys: set<Key>, left: set<Key>, k: Key, c: Client)
    requires left <= keys && k in left
    ensures Dequeued(q, keys, left - {k}, c) == Dequeue(Dequeued(q, keys, left, c), k, c)
  {
    hide DequeueAll;
    assert keys - (left - {k}) == keys - left + {k};
    DequeueNext(q, keys - left, k, c);
  }

  lemma DequeueEnd(q: Queues, keys: set<Key>, c: Client)
    ensures Dequeued(q, keys, {}, c) == DequeueAll(q, keys, c)
  {
    assert keys - {} == keys;
  }

  lemma Smaller(s: set<Key>, k: Key)
    requires k in s
    ensures |s - {k}| < |s|
  {
  }

  lemma DequeueNone(q: Queues, c: Client)
    ensures DequeueAll(q, {}, c) == q
  {
  }

  // ------------------------------------------------- nodes and the pointers to them

  type Nodes = map<Key, seq<Node<Client>>>
  type Waits = map<Client, map<Key, Node<Client>>>

  // No node is in two lists.
  ghost predicate Separate(nm: Nodes) {
    forall k, l, n :: k in nm && l in nm && n in nm[k] && n in nm[l] ==> k == l
  }

  // A stored pointer is a node of the list for that key, and holds the client.
  ghost predicate Forth(nm: Nodes, waits: Waits) {
    forall c, k :: c in waits && k in waits[c] ==> k in nm && waits[c][k] in nm[k] && waits[c][k].value == c
  }

  // A node of a list is the one that its client has stored for that key.
  ghost predicate Back(nm: Nodes, waits: Waits) {
    forall k, n :: k in nm && n in nm[k] ==> n.value in waits && k in waits[n.value] && waits[n.value][k] == n
  }

  ghost predicate Linked(nm: Nodes, waits: Waits) {
    && Separate(nm) && Forth(nm, waits) && Back(nm, waits)
    && (forall k :: k in nm ==> nm[k] != [] && NoDuplicates(nm[k]))
  }

  ghost function NodesAt(nm: Nodes, k: Key): seq<Node<Client>> {
    if k in nm then nm[k] else []
  }

  function WaitsOf(waits: Waits, c: Client): map<Key, Node<Client>> {
    if c in waits then waits[c] else map[]
  }

  ghost function QueuesOf(nm: Nodes): Queues {
    map k | k in nm :: Values(nm[k])
  }

  lemma LinkedAdd(nm: Nodes, waits: Waits, c: Client, k: Key, node: Node<Client>)
    requires Linked(nm, waits) && node.value == c && k !in WaitsOf(waits, c)
    requires forall l :: l in nm ==> node !in nm[l]
    ensures Linked(nm[k := NodesAt(nm, k) + [node]], waits[c := WaitsOf(waits, c)[k := node]])
    ensures QueuesOf(nm[k := NodesAt(nm, k) + [node]]) == Enqueue(QueuesOf(nm), k, c)
  {
    var nm1, waits1 := nm[k := NodesAt(nm, k) + [node]], waits[c := WaitsOf(waits, c)[k := node]];
    AddSeparate(nm, k, node);
    AddForth(nm, waits, c, k, node);
    AddBack(nm, waits, c, k, node);
    assert Values(NodesAt(nm, k) + [node]) == Values(NodesAt(nm, k)) + [c];
    assert QueuesOf(nm1) == Enqueue(QueuesOf(nm), k, c);
  }

  lemma AddSeparate(nm: Nodes, k: Key, node: Node<Client>)
    requires Separate(nm) && forall l :: l in nm ==> node !in nm[l]
    ensures Separate(nm[k := NodesAt(nm, k) + [node]])
  {
  }

  lemma AddForth(nm: Nodes, waits: Waits, c: Client, k: Key, node: Node<Client>)
    requires Forth(nm, waits) && node.value == c
    ensures Forth(nm[k := NodesAt(nm, k) + [node]], waits[c := WaitsOf(waits, c)[k := node]])
  {
  }

  lemma AddBack(nm: Nodes, waits: Waits, c: Client, k: Key, node: Node<Client>)
    requires Back(nm, waits) && node.value == c && k !in WaitsOf(waits, c)
    ensures Back(nm[k := NodesAt(nm, k) + [node]], waits[c := WaitsOf(waits, c)[k := node]])
  {
  }

  ghost function WithoutNode(nm: Nodes, k: Key, i: nat): Nodes
    requires k in nm && i < |nm[k]|
  {
    var t := Drop(nm[k], i);
    if t == [] then nm - {k} else nm[k := t]
  }

  lemma DropMembers(s: seq<Node<Client>>, i: nat)
    requires i < |s| && NoDuplicates(s)
    ensures forall n: Node<Client> :: n in Drop(s, i) <==> n in s && n != s[i]
  {
    DropDistinct(s, i);
    forall n: Node<Client> | n in s && n != s[i] ensures n in Drop(s, i) {
      var j :| 0 <= j < |s| && s[j] == n;
      assert Drop(s, i)[if j < i then j else j - 1] == n;
    }
  }

  lemma LinkedRemove(nm: Nodes, waits: Waits, c: Client, k: Key, i: nat)
    requires Linked(nm, waits) && k in WaitsOf(waits, c) && i < |nm[k]| && nm[k][i] == waits[c][k]
    ensures Linked(WithoutNode(nm, k, i), waits[c := waits[c] - {k}])
    ensures QueuesOf(WithoutNode(nm, k, i)) == Dequeue(QueuesOf(nm), k, c)
  {
    var s := nm[k];
    DropMembers(s, i);
    DropDistinct(s, i);
    RemoveBoth(nm, waits, c, k, i);
    QueueRemove(nm, waits, c, k, i);
    hide Separate, Forth, Back, Drop;
    var nm1 := WithoutNode(nm, k, i);
    assert forall l :: l in nm1 && l != k ==> nm1[l] == nm[l];
  }

  lemma QueueRemove(nm: Nodes, waits: Waits, c: Client, k: Key, i: nat)
    requires Back(nm, waits) && k in nm && NoDuplicates(nm[k]) && k in WaitsOf(waits, c) && i < |nm[k]|
    requires nm[k][i] == waits[c][k] && waits[c][k].value == c
    ensures QueuesOf(WithoutNode(nm, k, i)) == Dequeue(QueuesOf(nm), k, c)
  {
    var s := nm[k];
    forall j | 0 <= j < |s| && j != i ensures s[j].value != c {
      assert s[j] in s;
      assert s[j] != s[i];
    }
    RemoveAt(Values(s), i);
    assert Values(Drop(s, i)) == Values(s)[..i] + Values(s)[i + 1..];
    assert Remove(Values(s), c) == Values(Drop(s, i));
    hide Back, Values, Drop, Remove;
    assert |Values(Drop(s, i))| == |Drop(s, i)|;
    var q, q1 := QueuesOf(nm), QueuesOf(WithoutNode(nm, k, i));
    assert q[k] == Values(s);
    assert q1 == Dequeue(q, k, c);
  }

  // The lists afterwards: only the one of k has changed, by the loss of one node.
  lemma WithoutFacts(nm: Nodes, k: Key, i: nat)
    requires k in nm && i < |nm[k]| && NoDuplicates(nm[k])
    ensures forall l :: l in WithoutNode(nm, k, i) ==> l in nm
    ensures forall l :: l in nm && l != k ==> l in WithoutNode(nm, k, i) && WithoutNode(nm, k, i)[l] == nm[l]
    ensures forall n: Node<Client> :: n in NodesAt(WithoutNode(nm, k, i), k) <==> n in nm[k] && n != nm[k][i]
  {
    DropMembers(nm[k], i);
    hide Drop;
  }

  lemma RemoveBoth(nm: Nodes, waits: Waits, c: Client, k: Key, i: nat)
    requires Separate(nm) && Forth(nm, waits) && Back(nm, waits)
    requires k in WaitsOf(waits, c) && k in nm && i < |nm[k]| && nm[k][i] == waits[c][k]
    requires NoDuplicates(nm[k])
    ensures Separate(WithoutNode(nm, k, i))
    ensures Forth(WithoutNode(nm, k, i), waits[c := waits[c] - {k}])
    ensures Back(WithoutNode(nm, k, i), waits[c := waits[c] - {k}])
  {
    WithoutFacts(nm, k, i);
    hide WithoutNode, NoDuplicates;
    var nm1: Nodes := WithoutNode(nm, k, i);
    RemoveForth(nm, waits, c, k, i, nm1);
    RemoveBack(nm, waits, c, k, i, nm1);
    forall a, b, n: Node<Client> | a in nm1 && b in nm1 && n in nm1[a] && n in nm1[b] ensures a == b {
      assert (a == k ==> n in NodesAt(nm1, k)) && (b == k ==> n in NodesAt(nm1, k));
      assert n in nm[a] && n in nm[b];
    }
  }

  lemma RemoveForth(nm: Nodes, waits: Waits, c: Client, k: Key, i: nat, nm1: Nodes)
    requires Forth(nm, waits) && k in WaitsOf(waits, c) && k in nm && i < |nm[k]| && nm[k][i] == waits[c][k]
    requires forall l :: l in nm && l != k ==> l in nm1 && nm1[l] == nm[l]
    requires forall n: Node<Client> :: n in NodesAt(nm1, k) <==> n in nm[k] && n != nm[k][i]
    ensures Forth(nm1, waits[c := waits[c] - {k}])
  {
    var waits1: Waits := waits[c := waits[c] - {k}];
    forall d, l | d in waits1 && l in waits1[d]
      ensures l in nm1 && waits1[d][l] in nm1[l] && waits1[d][l].value == d
    {
      assert l in waits[d] && waits1[d][l] == waits[d][l];
      if l == k {
        assert d != c && waits[d][l] in nm[k] && waits[d][l] != nm[k][i];
        assert waits[d][l] in NodesAt(nm1, k);
      }
    }
  }

  lemma RemoveBack(nm: Nodes, waits: Waits, c: Client, k: Key, i: nat, nm1: Nodes)
    requires Back(nm, waits) && k in WaitsOf(waits, c) && k in nm && i < |nm[k]| && nm[k][i] == waits[c][k]
    requires forall l :: l in nm1 ==> l in nm
    requires forall l :: l in nm && l != k ==> l in nm1 && nm1[l] == nm[l]
    requires forall n: Node<Client> :: n in NodesAt(nm1, k) <==> n in nm[k] && n != nm[k][i]
    ensures Back(nm1, waits[c := waits[c] - {k}])
  {
    var waits1: Waits := waits[c := waits[c] - {k}];
    forall l, n: Node<Client> | l in nm1 && n in nm1[l]
      ensures n.value in waits1 && l in waits1[n.value] && waits1[n.value][l] == n
    {
      assert l == k ==> n in NodesAt(nm1, k);
      assert n in nm[l] && (l == k ==> n != nm[k][i]);
    }
  }

  ghost function Rotated(s: seq<Node<Client>>): seq<Node<Client>> {
    if |s| <= 1 then s else s[1..] + [s[0]]
  }

  // Rotating a list moves no pointer.
  lemma LinkedRotate(nm: Nodes, waits: Waits, k: Key)
    requires Linked(nm, waits) && k in nm && NoDuplicates(Rotated(nm[k]))
    ensures Linked(nm[k := Rotated(nm[k])], waits)
    ensures QueuesOf(nm[k := Rotated(nm[k])]) == RotateHead(QueuesOf(nm), k)
  {
    var s, t := nm[k], Rotated(nm[k]);
    assert |s| > 1 ==> s == [s[0]] + s[1..];
    assert forall n :: n in t <==> n in s;
    hide NoDuplicates;
    assert |s| > 1 ==> Values(t) == Values(s)[1..] + [Values(s)[0]];
    assert |s| <= 1 ==> nm[k := t] == nm;
  }

  // How often c stands in s.
  function Times(s: seq<Client>, c: Client): nat {
    if s == [] then 0 else Times(s[1..], c) + if s[0] == c then 1 else 0
  }

  lemma {:induction false} TimesNone(s: seq<Client>, c: Client)
    ensures Times(s, c) == 0 <==> c !in s
  {
    if s != [] { TimesNone(s[1..], c); }
  }

  lemma {:induction false} TimesOnce(s: seq<Client>, i: nat)
    requires i < |s| && forall j :: 0 <= j < |s| && j != i ==> s[j] != s[i]
    ensures Times(s, s[i]) == 1
    decreases i
  {
    if i == 0 {
      TimesNone(s[1..], s[0]);
    } else {
      assert s[0] != s[i];
      assert s[1..][i - 1] == s[i];
      TimesOnce(s[1..], i - 1);
    }
  }

  /** A client stands in the queue of a key exactly once if it waits for the key, and otherwise not
      at all; its stored pointer is that occurrence. */
  lemma TwoWay(nm: Nodes, waits: Waits, c: Client, k: Key)
    requires Linked(nm, waits)
    ensures var q := if k in nm then Values(nm[k]) else [];
      Times(q, c) == if k in WaitsOf(waits, c) then 1 else 0
    ensures k in WaitsOf(waits, c) ==> k in nm && waits[c][k] in nm[k]
    ensures forall n :: k in WaitsOf(waits, c) && n in nm[k] && n.value == c ==> n == waits[c][k]
  {
    var q := if k in nm then Values(nm[k]) else [];
    if k in WaitsOf(waits, c) {
      var s := nm[k];
      var i :| 0 <= i < |s| && s[i] == waits[c][k];
      forall j | 0 <= j < |q| && j != i ensures q[j] != q[i] {
        assert s[j] in s && s[j] != s[i];
      }
      TimesOnce(q, i);
    } else {
      forall j | 0 <= j < |q| ensures q[j] != c {
        assert nm[k][j] in nm[k];
      }
      TimesNone(q, c);
    }
  }

  lemma RotatedDistinct(s: seq<Node<Client>>)
    requires NoDuplicates(s)
    ensures NoDuplicates(Rotated(s))
  {
    var t := Rotated(s);
    forall i, j | 0 <= i < j < |t| ensures t[i] != t[j] {
      assert |s| > 1 ==> t[i] == s[i + 1] && t[j] == s[if j + 1 < |s| then j + 1 else 0];
    }
  }

  lemma LinkedForget(nm: Nodes, waits: Waits, c: Client)
    requires Linked(nm, waits) && c in waits && waits[c] == map[]
    ensures Linked(nm, waits - {c})
  {
  }

  // Where a client's own node stands.
  lemma Spot(nm: Nodes, waits: Waits, c: Client, k: Key) returns (i: nat)
    requires Linked(nm, waits) && k in WaitsOf(waits, c)
    ensures k in nm && i < |nm[k]| && nm[k][i] == waits[c][k]
  {
    assert waits[c][k] in nm[k];
    i :| 0 <= i < |nm[k]| && nm[k][i] == waits[c][k];
  }

  lemma LinkedDistinct(nm: Nodes, waits: Waits, k: Key)
    requires Linked(nm, waits) && k in nm
    ensures NoDuplicates(nm[k]) && nm[k] != []
  {
  }

  lemma CountOne(reasons: map<Client, Reason>, c: Client, r: Reason, s: Reason)
    requires c !in reasons
    ensures |Of(reasons[c := r], s)| == |Of(reasons, s)| + if s == r then 1 else 0
  {
    if s == r {
      assert Of(reasons[c := r], s) == Of(reasons, s) + {c};
    } else {
      assert Of(reasons[c := r], s) == Of(reasons, s);
    }
  }

  lemma CountAdd(reasons: map<Client, Reason>, c: Client, r: Reason)
    requires c !in reasons
    ensures |reasons[c := r]| == |reasons| + 1
    ensures forall s :: |Of(reasons[c := r], s)| == |Of(reasons, s)| + if s == r then 1 else 0
  {
    assert reasons[c := r].Keys == reasons.Keys + {c};
    forall s ensures |Of(reasons[c := r], s)| == |Of(reasons, s)| + if s == r then 1 else 0 {
      CountOne(reasons, c, r, s);
    }
  }

  lemma CountDrop(reasons: map<Client, Reason>, c: Client)
    requires c in reasons
    ensures |reasons - {c}| == |reasons| - 1
    ensures forall s :: |Of(reasons - {c}, s)| == |Of(reasons, s)| - if s == reasons[c] then 1 else 0
  {
    var less := reasons - {c};
    assert less[c := reasons[c]] == reasons;
    CountAdd(less, c, reasons[c]);
  }

  /** The clients blocked for each reason add up to all blocked clients. */
  lemma {:induction false} ReasonsAddUp(reasons: map<Client, Reason>)
    ensures |reasons| == |Of(reasons, OnList)| + |Of(reasons, OnZset)| + |Of(reasons, OnStream)|
                         + |Of(reasons, OnModule)| + |Of(reasons, OnWait)| + |Of(reasons, OnPause)|
    decreases |reasons|
  {
    if reasons == map[] {
      assert forall r :: Of(reasons, r) == {};
    } else {
      var c :| c in reasons;
      CountDrop(reasons, c);
      ReasonsAddUp(reasons - {c});
    }
  }

  // No client but c waits for anything else than before.
  ghost predicate OnlyChanges(w0: Waits, w1: Waits, c: Client) {
    forall d :: d != c ==> (d in w0 <==> d in w1) && (d in w0 ==> w0[d] == w1[d])
  }

  lemma ChangesSelf(w: Waits, c: Client)
    ensures OnlyChanges(w, w, c)
  {
  }

  lemma ChangesTwice(w0: Waits, w1: Waits, w2: Waits, c: Client)
    requires OnlyChanges(w0, w1, c) && OnlyChanges(w1, w2, c)
    ensures OnlyChanges(w0, w2, c)
  {
  }

  lemma ChangesDrop(w0: Waits, w1: Waits, c: Client)
    requires OnlyChanges(w0, w1, c)
    ensures OnlyChanges(w0, w1 - {c}, c)
  {
  }

  // Whoever waits for keys is blocked, and waits for at least one.
  ghost predicate Covered(waits: Waits, reasons: map<Client, Reason>) {
    forall c :: c in waits ==> c in reasons && waits[c].Keys != {}
  }

  lemma CoveredAdd(w0: Waits, w1: Waits, reasons: map<Client, Reason>, c: Client, r: Reason)
    requires Covered(w0, reasons) && OnlyChanges(w0, w1, c) && c in w1 && w1[c].Keys != {}
    ensures Covered(w1, reasons[c := r])
  {
  }

  lemma CoveredDrop(w0: Waits, w1: Waits, reasons: map<Client, Reason>, c: Client)
    requires Covered(w0, reasons) && OnlyChanges(w0, w1, c) && c !in w1
    ensures Covered(w1, reasons - {c})
  {
  }

  // --------------------------------------------------- the tables as they are updated

  // Why a client is blocked.
  datatype Reason = OnList | OnZset | OnStream | OnModule | OnWait | OnPause

  ghost function Of(reasons: map<Client, Reason>, r: Reason): set<Client> {
    set c | c in reasons && reasons[c] == r
  }

  type Reprs = map<Key, set<object>>

  // No two lists share an object.
  ghost predicate Apart(rs: Reprs) {
    forall k, l :: k in rs && l in rs && k != l ==> rs[k] !! rs[l]
  }

  lemma ApartAt(rs: Reprs, k: Key, l: Key)
    requires Apart(rs) && k in rs && l in rs && k != l
    ensures rs[k] !! rs[l]
  {
  }

  lemma ApartNew(rs: Reprs, k: Key, x: object)
    requires Apart(rs) && k !in rs && forall l :: l in rs ==> x !in rs[l]
    ensures Apart(rs[k := {x}])
  {
  }

  lemma ApartGrow(rs: Reprs, k: Key, x: object)
    requires Apart(rs) && k in rs && forall l :: l in rs ==> x !in rs[l]
    ensures Apart(rs[k := rs[k] + {x}])
  {
  }

  lemma ApartLess(rs: Reprs, k: Key)
    requires Apart(rs)
    ensures Apart(rs - {k})
  {
  }

  // What the lists are made of: the nodes of each, in order; the objects of each; all objects.
  datatype Shape = Shape(nodes: Nodes, reprs: Reprs, footprint: set<object>)

  class Index {
    // For every key somebody waits for, the list of the clients.
    var lists: map<Key, List<Client>>
    // For every client and key it waits for, the client's own node.
    var waits: Waits
    // The blocked clients.
    var reasons: map<Client, Reason>
    var blocked: nat
    var blockedByType: map<Reason, nat>
    ghost var shape: Shape

    ghost predicate CountsOk()
      reads `reasons, `blocked, `blockedByType
    {
      blocked == |reasons| && forall r :: r in blockedByType && blockedByType[r] == |Of(reasons, r)|
    }

    // One list.
    ghost predicate ListOk(k: Key)
      requires k in lists
      reads `lists, `shape, shape.footprint
    {
      && k in shape.nodes && k in shape.reprs && shape.reprs[k] <= shape.footprint && lists[k] in shape.reprs[k]
      && lists[k].repr == shape.reprs[k] && lists[k].nodes == shape.nodes[k] && lists[k].Valid()
    }

    ghost predicate Mirror()
      reads `lists, `shape, shape.footprint
    {
      shape.nodes.Keys == lists.Keys == shape.reprs.Keys && Apart(shape.reprs) && forall k :: k in lists ==> ListOk(k)
    }

    ghost predicate Valid()
      reads this, shape.footprint
    {
      this !in shape.footprint && Mirror() && Linked(shape.nodes, waits) && CountsOk() && Covered(waits, reasons)
    }

    ghost function Waiting(): Queues
      reads `shape
    {
      QueuesOf(shape.nodes)
    }

    constructor ()
      ensures Valid() && fresh(shape.footprint) && lists == map[] && waits == map[] && reasons == map[]
    {
      lists, shape, waits, reasons, blocked := map[], Shape(map[], map[], {}), map[], map[], 0;
      blockedByType := map[OnList := 0, OnZset := 0, OnStream := 0, OnModule := 0, OnWait := 0, OnPause := 0];
      new;
      forall r ensures r in blockedByType && blockedByType[r] == |Of(reasons, r)| {
        assert Of(reasons, r) == {};
        match r case OnList => case OnZset => case OnStream => case OnModule => case OnWait => case OnPause =>
      }
    }

    // The list for a key, created if there is none.
    method ListFor(k: Key) returns (l: List<Client>)
      requires this !in shape.footprint && Mirror()
      modifies `lists, `shape
      ensures this !in shape.footprint && Mirror() && fresh(shape.footprint - old(shape.footprint))
      ensures k in lists && lists[k] == l && shape.nodes == old(shape.nodes)[k := NodesAt(old(shape.nodes), k)]
    {
      hide List.Valid, Apart;
      if k in lists {
        assert ListOk(k);
        l := lists[k];
        return;
      }
      l := new List();
      Enter(k, l);
    }

    // A fresh list becomes the one for k.
    method Enter(k: Key, l: List<Client>)
      requires this !in shape.footprint && Mirror() && k !in lists
      requires l.Valid() && l.nodes == [] && l.repr == {l} && l !in shape.footprint
      modifies `lists, `shape
      ensures Mirror() && lists == old(lists)[k := l] && shape.nodes == old(shape.nodes)[k := []] && shape.footprint == old(shape.footprint) + {l}
    {
      hide List.Valid, Apart;
      ReprsIn();
      ApartNew(shape.reprs, k, l);
      lists := lists[k := l];
      shape := Shape(shape.nodes[k := []], shape.reprs[k := {l}], shape.footprint + {l});
      forall j | j in lists ensures ListOk(j) {
        assert j != k ==> old(ListOk(j));
      }
    }

    // A client at the end of a list.
    method Append(k: Key, c: Client) returns (node: Node<Client>)
      requires this !in shape.footprint && Mirror() && k in lists
      modifies `shape, shape.footprint
      ensures this !in shape.footprint && Mirror() && fresh(shape.footprint - old(shape.footprint))
      ensures node.value == c && shape.nodes == old(shape.nodes)[k := old(shape.nodes)[k] + [node]]
      ensures forall l :: l in old(shape.nodes) ==> node !in old(shape.nodes)[l]
    {
      hide List.Valid, Apart;
      assert ListOk(k);
      var l := lists[k];
      node := l.AddNodeTail(c);
      forall j | j in lists && j != k ensures ListOk(j) {
        assert old(ListOk(j));
        ApartAt(shape.reprs, j, k);
        assert lists[j].Valid();
      }
      Record(k, node);
    }

    ghost method Record(k: Key, node: Node<Client>)
      requires this !in shape.footprint && k in lists && shape.nodes.Keys == lists.Keys == shape.reprs.Keys && Apart(shape.reprs)
      requires forall j :: j in lists && j != k ==> ListOk(j)
      requires node !in shape.footprint && shape.reprs[k] <= shape.footprint && lists[k] in shape.reprs[k] && this !in lists[k].repr
      requires lists[k].Valid() && lists[k].repr == shape.reprs[k] + {node} && lists[k].nodes == shape.nodes[k] + [node]
      modifies `shape
      ensures Mirror() && shape.nodes == old(shape.nodes)[k := old(shape.nodes)[k] + [node]] && shape.footprint == old(shape.footprint) + {node}
    {
      hide List.Valid, Apart;
      forall j | j in shape.reprs ensures node !in shape.reprs[j] {
        assert j != k ==> ListOk(j);
      }
      ApartGrow(shape.reprs, k, node);
      shape := Shape(shape.nodes[k := shape.nodes[k] + [node]], shape.reprs[k := shape.reprs[k] + {node}], shape.footprint + {node});
      forall j | j in lists ensures ListOk(j) {
        assert j != k ==> old(ListOk(j));
      }
    }

    // Every list's objects are in the shape.footprint.
    lemma ReprsIn()
      requires Mirror()
      ensures forall j :: j in shape.reprs ==> shape.reprs[j] <= shape.footprint
    {
      hide List.Valid, Apart;
      forall j | j in shape.reprs ensures shape.reprs[j] <= shape.footprint {
        assert ListOk(j);
      }
    }

    // A node out of a list.
    method Delete(k: Key, node: Node<Client>, ghost i: nat)
      requires this !in shape.footprint && Mirror() && k in lists && i < |shape.nodes[k]| && shape.nodes[k][i] == node
      modifies `shape, shape.footprint
      ensures Mirror() && shape.footprint == old(shape.footprint)
      ensures shape.nodes == old(shape.nodes)[k := Drop(old(shape.nodes)[k], i)]
    {
      hide List.Valid, Drop, Apart;
      assert ListOk(k);
      var l := lists[k];
      l.DelNode(node, i);
      shape := shape.(nodes := shape.nodes[k := Drop(shape.nodes[k], i)]);
      forall j | j in lists ensures ListOk(j) {
        if j != k {
          assert old(ListOk(j));
          ApartAt(shape.reprs, j, k);
          assert lists[j].Valid();
        }
      }
    }

    // A list without clients is given up.
    method DropIfEmpty(k: Key)
      requires this !in shape.footprint && Mirror() && k in lists
      modifies `lists, `shape
      ensures Mirror() && shape.footprint == old(shape.footprint)
      ensures shape.nodes == if old(shape.nodes)[k] == [] then old(shape.nodes) - {k} else old(shape.nodes)
    {
      hide List.Valid, Apart;
      var n := Length(k);
      if n == 0 {
        ApartLess(shape.reprs, k);
        lists := lists - {k};
        shape := Shape(shape.nodes - {k}, shape.reprs - {k}, shape.footprint);
        forall j | j in lists ensures ListOk(j) {
          assert old(ListOk(j));
        }
      }
    }

    lemma CountOf(r: Reason)
      requires Valid()
      ensures r in blockedByType && blockedByType[r] == |Of(reasons, r)|
    {
      hide Mirror, Linked, Covered, Of;
    }

    lemma WaitingKeys()
      requires Valid()
      ensures Waiting().Keys == lists.Keys && forall k :: k in lists ==> Waiting()[k] != []
    {
      hide CountsOk, Covered;
    }

    // The client that has waited longest for a key.
    method Next(k: Key) returns (c: Client)
      requires Valid() && k in lists
      ensures k in Waiting() && Waiting()[k] != [] && c == Waiting()[k][0]
    {
      hide CountsOk, Covered;
      LinkedDistinct(shape.nodes, waits, k);
      assert ListOk(k);
      c := lists[k].head.value;
    }

    method Size(k: Key) returns (n: nat)
      requires Valid() && k in lists
      ensures k in Waiting() && n == |Waiting()[k]|
    {
      hide Linked, CountsOk, Covered;
      n := Length(k);
    }

    method Length(k: Key) returns (n: nat)
      requires Mirror() && k in lists
      ensures k in Waiting() && n == |Waiting()[k]|
    {
      assert ListOk(k);
      n := lists[k].len;
    }

    // Put a client at the end of the list for a key that it does not wait for yet.
    method AddWait(c: Client, k: Key)
      requires this !in shape.footprint && Mirror() && Linked(shape.nodes, waits) && k !in WaitsOf(waits, c)
      modifies `lists, `shape, `waits, shape.footprint
      ensures this !in shape.footprint && Mirror() && fresh(shape.footprint - old(shape.footprint))
      ensures Linked(shape.nodes, waits) && OnlyChanges(old(waits), waits, c)
      ensures c in waits && waits[c].Keys == WaitsOf(old(waits), c).Keys + {k}
      ensures Waiting() == Enqueue(old(Waiting()), k, c)
    {
      hide Linked, Mirror, QueuesOf, Enqueue;
      var l := ListFor(k);
      ghost var ready := shape.nodes;
      var node := Append(k, c);
      assert forall j :: j in old(shape.nodes) ==> j in ready && ready[j] == old(shape.nodes)[j];
      assert shape.nodes == old(shape.nodes)[k := NodesAt(old(shape.nodes), k) + [node]];
      LinkedAdd(old(shape.nodes), waits, c, k, node);
      waits := waits[c := WaitsOf(waits, c)[k := node]];
    }

    // Take a client out of the list for a key through the stored node.
    method RemoveWait(c: Client, k: Key)
      requires this !in shape.footprint && Mirror() && Linked(shape.nodes, waits) && k in WaitsOf(waits, c)
      modifies `lists, `shape, `waits, shape.footprint
      ensures Mirror() && shape.footprint == old(shape.footprint)
      ensures Linked(shape.nodes, waits) && OnlyChanges(old(waits), waits, c)
      ensures c in waits && waits[c].Keys == old(waits)[c].Keys - {k}
      ensures Waiting() == Dequeue(old(Waiting()), k, c)
    {
      hide Linked, Mirror, QueuesOf, Dequeue, Drop;
      var node := waits[c][k];
      ghost var i := Spot(shape.nodes, waits, c, k);
      LinkedRemove(shape.nodes, waits, c, k, i);
      MirrorKeys();
      Delete(k, node, i);
      MirrorKeys();
      DropIfEmpty(k);
      assert shape.nodes == WithoutNode(old(shape.nodes), k, i);
      waits := waits[c := waits[c] - {k}];
    }

    lemma MirrorKeys()
      requires Mirror()
      ensures shape.nodes.Keys == lists.Keys
    {
    }

    // A client that cannot be served now goes to the end; its stored node is still its node.
    method RotateHeadToTail(k: Key)
      requires Valid() && k in lists
      modifies `shape, shape.footprint
      ensures Valid() && shape.footprint == old(shape.footprint) && Waiting() == RotateHead(old(Waiting()), k)
    {
      hide Linked, Mirror, CountsOk, Covered, RotateHead, QueuesOf;
      MirrorKeys();
      ghost var s := shape.nodes[k];
      assert NoDuplicates(s) by { LinkedDistinct(shape.nodes, waits, k); }
      RotatedDistinct(s);
      LinkedRotate(shape.nodes, waits, k);
      Rotate(k);
    }

    method Rotate(k: Key)
      requires this !in shape.footprint && Mirror() && k in lists
      modifies `shape, shape.footprint
      ensures Mirror() && shape.footprint == old(shape.footprint) && shape.nodes == old(shape.nodes)[k := Rotated(old(shape.nodes)[k])]
    {
      hide List.Valid, Apart;
      assert ListOk(k);
      var l := lists[k];
      l.RotateHeadToTail();
      shape := shape.(nodes := shape.nodes[k := Rotated(shape.nodes[k])]);
      forall j | j in lists ensures ListOk(j) {
        if j != k {
          assert old(ListOk(j));
          ApartAt(shape.reprs, j, k);
          assert lists[j].Valid();
        }
      }
    }

    method BlockClient(c: Client, r: Reason)
      requires CountsOk() && c !in reasons
      modifies `reasons, `blocked, `blockedByType
      ensures CountsOk() && reasons == old(reasons)[c := r]
    {
      CountAdd(reasons, c, r);
      reasons := reasons[c := r];
      blocked := blocked + 1;
      blockedByType := blockedByType[r := blockedByType[r] + 1];
    }

    method JoinQueues(c: Client, keys: seq<Key>)
      requires this !in shape.footprint && Mirror() && Linked(shape.nodes, waits) && c !in waits && keys != []
      modifies `lists, `shape, `waits, shape.footprint
      ensures this !in shape.footprint && Mirror() && fresh(shape.footprint - old(shape.footprint))
      ensures Linked(shape.nodes, waits) && OnlyChanges(old(waits), waits, c)
      ensures c in waits && waits[c].Keys == Members(keys)
      ensures Waiting() == EnqueueAll(old(Waiting()), keys, c)
    {
      hide Linked, Mirror, QueuesOf, Enqueue, EnqueueAll, Members, OnlyChanges;
      ghost var w0, q0 := waits, Waiting();
      EnqueueFirst(q0, keys, c);
      ChangesSelf(w0, c);
      var j := 0;
      while j < |keys|
        invariant 0 <= j <= |keys|
        invariant this !in shape.footprint && Mirror() && fresh(shape.footprint - old(shape.footprint))
        invariant Linked(shape.nodes, waits) && OnlyChanges(w0, waits, c)
        invariant WaitsOf(waits, c).Keys == Members(keys[..j])
        invariant Waiting() == EnqueueAll(q0, keys[..j], c)
      {
        EnqueueNext(q0, keys, j, c);
        if keys[j] !in WaitsOf(waits, c) {
          ghost var w := waits;
          AddWait(c, keys[j]);
          ChangesTwice(w0, w, waits, c);
        }
        j := j + 1;
      }
      assert keys[..j] == keys;
      NotEmpty(keys);
    }

    /** The client joins, at the end, the queue of each of the keys; a key given twice counts once. */
    method BlockForKeys(c: Client, r: Reason, keys: seq<Key>)
      requires Valid() && c !in reasons && keys != []
      modifies this, shape.footprint
      ensures Valid() && fresh(shape.footprint - old(shape.footprint)) && reasons == old(reasons)[c := r]
      ensures OnlyChanges(old(waits), waits, c) && c in waits && waits[c].Keys == Members(keys)
      ensures Waiting() == EnqueueAll(old(Waiting()), keys, c)
    {
      hide Linked, Mirror, CountsOk, EnqueueAll, OnlyChanges, Members, QueuesOf;
      assert c !in waits;
      JoinQueues(c, keys);
      NotEmpty(keys);
      CoveredAdd(old(waits), waits, reasons, c, r);
      hide Covered;
      BlockClient(c, r);
    }

    /** A client becomes blocked, for keys or without any. */
    method Block(c: Client, r: Reason, keys: seq<Key>)
      requires Valid() && c !in reasons
      modifies this, shape.footprint
      ensures Valid() && fresh(shape.footprint - old(shape.footprint)) && reasons == old(reasons)[c := r]
      ensures OnlyChanges(old(waits), waits, c) && WaitsOf(waits, c).Keys == Members(keys)
      ensures Waiting() == EnqueueAll(old(Waiting()), keys, c)
    {
      hide Linked, Mirror, CountsOk, OnlyChanges, QueuesOf;
      if keys == [] {
        ChangesSelf(waits, c);
        BlockClient(c, r);
      } else {
        hide Covered, EnqueueAll, Members;
        BlockForKeys(c, r, keys);
      }
    }

    method ForgetClient(c: Client)
      requires CountsOk() && c in reasons
      modifies `reasons, `blocked, `blockedByType
      ensures CountsOk() && reasons == old(reasons) - {c}
    {
      var r := reasons[c];
      CountDrop(reasons, c);
      reasons := reasons - {c};
      blocked := blocked - 1;
      blockedByType := blockedByType[r := blockedByType[r] - 1];
    }

    method LeaveQueues(c: Client)
      requires this !in shape.footprint && Mirror() && Linked(shape.nodes, waits) && c in waits
      modifies `lists, `shape, `waits, shape.footprint
      ensures Mirror() && shape.footprint == old(shape.footprint)
      ensures Linked(shape.nodes, waits) && OnlyChanges(old(waits), waits, c) && c !in waits
      ensures Waiting() == DequeueAll(old(Waiting()), old(waits)[c].Keys, c)
    {
      hide Linked, Mirror, QueuesOf, Dequeue, DequeueAll, Dequeued, OnlyChanges;
      ghost var w0, q0 := waits, Waiting();
      DequeueStart(q0, w0[c].Keys, c);
      ChangesSelf(w0, c);
      while waits[c].Keys != {}
        invariant Mirror() && shape.footprint == old(shape.footprint)
        invariant Linked(shape.nodes, waits) && OnlyChanges(w0, waits, c) && c in waits
        invariant waits[c].Keys <= w0[c].Keys
        invariant Waiting() == Dequeued(q0, w0[c].Keys, waits[c].Keys, c)
        decreases |waits[c].Keys|
      {
        var k :| k in waits[c].Keys;
        ghost var w := waits;
        DequeueMore(q0, w0[c].Keys, w[c].Keys, k, c);
        RemoveWait(c, k);
        Smaller(w[c].Keys, k);
        ChangesTwice(w0, w, waits, c);
      }
      DequeueEnd(q0, w0[c].Keys, c);
      assert waits[c] == map[];
      LinkedForget(shape.nodes, waits, c);
      ChangesDrop(w0, waits, c);
      waits := waits - {c};
    }

    /** The client leaves every queue it is in, and no other client moves. */
    method UnblockClient(c: Client)
      requires Valid() && c in reasons
      modifies this, shape.footprint
      ensures Valid() && shape.footprint == old(shape.footprint) && reasons == old(reasons) - {c}
      ensures OnlyChanges(old(waits), waits, c) && c !in waits
      ensures Waiting() == DequeueAll(old(Waiting()), WaitsOf(old(waits), c).Keys, c)
    {
      hide Linked, Mirror, CountsOk, DequeueAll, OnlyChanges, QueuesOf;
      if c in waits {
        LeaveQueues(c);
      } else {
        DequeueNone(Waiting(), c);
        ChangesSelf(waits, c);
        assert WaitsOf(waits, c).Keys == {};
      }
      CoveredDrop(old(waits), waits, reasons, c);
      hide Covered;
      ForgetClient(c);
    }
  }
}
