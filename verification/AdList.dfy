/**
The doubly linked list under the blocked-client tables.  A list is its sequence of nodes; the
operations keep the identity of the nodes they do not remove, so that a pointer to a node
remains good.
*/
module AdList {

  class Node<T> {
    var prev: Node?<T>
    var next: Node?<T>
    const value: T

    constructor (value: T)
      ensures this.value == value && prev == null && next == null
    {
      this.value, prev, next := value, null, null;
    }
  }

  // Element i, or null outside.
  ghost function At<T>(s: seq<Node<T>>, i: int): Node?<T> {
    if 0 <= i < |s| then s[i] else null
  }

  ghost predicate NoDuplicates<T>(s: seq<Node<T>>) {
    forall i, j :: 0 <= i < j < |s| ==> s[i] != s[j]
  }

  // The links of the nodes of s.
  ghost function Nexts<T>(s: seq<Node<T>>): (r: seq<Node?<T>>)
    reads s
    ensures |r| == |s| && forall i {:trigger r[i]} :: 0 <= i < |s| ==> r[i] == s[i].next
  {
    seq(|s|, i requires 0 <= i < |s| reads s => s[i].next)
  }

  ghost function Prevs<T>(s: seq<Node<T>>): (r: seq<Node?<T>>)
    reads s
    ensures |r| == |s| && forall i {:trigger r[i]} :: 0 <= i < |s| ==> r[i] == s[i].prev
  {
    seq(|s|, i requires 0 <= i < |s| reads s => s[i].prev)
  }

  // The links nx and pv make s a doubly linked list.
  ghost predicate Chain<T>(s: seq<Node<T>>, nx: seq<Node?<T>>, pv: seq<Node?<T>>) {
    && |nx| == |s| && |pv| == |s| && NoDuplicates(s)
    && (forall i {:trigger nx[i]} :: 0 <= i < |s| ==> nx[i] == At(s, i + 1))
    && (forall i {:trigger pv[i]} :: 0 <= i < |s| ==> pv[i] == At(s, i - 1))
  }

  // Without position i.
  ghost function Drop<A>(s: seq<A>, i: nat): seq<A>
    requires i < |s|
  {
    s[..i] + s[i + 1..]
  }

  // The value v at position i, if there is such a position.
  ghost function Put<A>(s: seq<A>, i: int, v: A): seq<A> {
    if 0 <= i < |s| then s[i := v] else s
  }

  lemma DropDistinct<T>(s: seq<Node<T>>, i: nat)
    requires i < |s| && NoDuplicates(s)
    ensures NoDuplicates(Drop(s, i)) && s[i] !in Drop(s, i)
  {
    var t := Drop(s, i);
    forall j, k | 0 <= j < k < |t| ensures t[j] != t[k] {
      assert t[j] == s[if j < i then j else j + 1] && t[k] == s[if k < i then k else k + 1];
    }
  }

  // Taking node i out: its neighbours point to each other.
  lemma ChainDrop<T>(s: seq<Node<T>>, nx: seq<Node?<T>>, pv: seq<Node?<T>>, i: nat)
    requires Chain(s, nx, pv) && i < |s|
    ensures Chain(Drop(s, i), Drop(Put(nx, i - 1, nx[i]), i), Drop(Put(pv, i + 1, pv[i]), i))
  {
    DropDistinct(s, i);
    hide NoDuplicates;
    var t, nx1, pv1 := Drop(s, i), Drop(Put(nx, i - 1, nx[i]), i), Drop(Put(pv, i + 1, pv[i]), i);
    forall k | 0 <= k < |t| ensures nx1[k] == At(t, k + 1) && pv1[k] == At(t, k - 1) {
      var k0 := if k < i then k else k + 1;
      assert nx[k0] == At(s, k0 + 1) && pv[k0] == At(s, k0 - 1) && nx[i] == At(s, i + 1) && pv[i] == At(s, i - 1);
      assert nx1[k] == Put(nx, i - 1, nx[i])[k0] && pv1[k] == Put(pv, i + 1, pv[i])[k0];
    }
  }

  ghost function InsertAt<A>(s: seq<A>, k: nat, x: A): seq<A>
    requires k <= |s|
  {
    s[..k] + [x] + s[k..]
  }

  // Putting a node in at position k.
  lemma ChainInsert<T>(s: seq<Node<T>>, nx: seq<Node?<T>>, pv: seq<Node?<T>>, k: nat, n: Node<T>)
    requires Chain(s, nx, pv) && k <= |s| && n !in s
    ensures Chain(InsertAt(s, k, n),
                  InsertAt(Put(nx, k - 1, n), k, At(s, k)),
                  InsertAt(Put(pv, k, n), k, At(s, k - 1)))
  {
    var t := InsertAt(s, k, n);
    forall i, j | 0 <= i < j < |t| ensures t[i] != t[j] {
      if i != k && j != k {
        assert t[i] == s[if i < k then i else i - 1] && t[j] == s[if j < k then j else j - 1];
      } else {
        var o := if i == k then j else i;
        assert t[k] == n && t[o] == s[if o < k then o else o - 1];
      }
    }
    var nx1, pv1 := InsertAt(Put(nx, k - 1, n), k, At(s, k)), InsertAt(Put(pv, k, n), k, At(s, k - 1));
    forall i | 0 <= i < |t| ensures nx1[i] == At(t, i + 1) && pv1[i] == At(t, i - 1) {
      if i != k {
        var i0 := if i < k then i else i - 1;
        assert nx[i0] == At(s, i0 + 1) && pv[i0] == At(s, i0 - 1);
      }
    }
  }

  lemma ChainDistinct<T>(s: seq<Node<T>>, nx: seq<Node?<T>>, pv: seq<Node?<T>>)
    requires Chain(s, nx, pv)
    ensures NoDuplicates(s)
  {
  }

  lemma ChainLinks<T>(s: seq<Node<T>>, nx: seq<Node?<T>>, pv: seq<Node?<T>>, i: nat)
    requires Chain(s, nx, pv) && i < |s|
    ensures nx[i] == At(s, i + 1) && pv[i] == At(s, i - 1)
  {
  }

  lemma Spots<T>(s: seq<Node<T>>, i: nat)
    requires NoDuplicates(s) && i < |s|
    ensures (s[i] == s[0] <==> i == 0) && (s[i] == s[|s| - 1] <==> i == |s| - 1)
    ensures forall j :: 0 <= j < |s| && s[j] == s[i] ==> j == i
  {
  }

  // The last node in front of the others.
  lemma RotatedTailPlain<T>(s: seq<Node<T>>, nx: seq<Node?<T>>, pv: seq<Node?<T>>)
    requires |s| > 1 && Chain(s, nx, pv)
    ensures pv[|s| - 1] == s[|s| - 2] && NoDuplicates(s[..|s| - 1]) && s[|s| - 1] !in s[..|s| - 1]
    ensures var n := |s| - 1; Chain([s[n]] + s[..n], [s[0]] + nx[..n - 1] + [null], [null, s[n]] + pv[1..n])
  {
    var n := |s| - 1;
    var t, nx1, pv1 := [s[n]] + s[..n], [s[0]] + nx[..n - 1] + [null], [null, s[n]] + pv[1..n];
    forall i, j | 0 <= i < j < |t| ensures t[i] != t[j] {
      assert t[i] == s[if i == 0 then n else i - 1] && t[j] == s[j - 1];
    }
    assert pv[n] == At(s, n - 1);
    hide NoDuplicates;
    forall i | 0 <= i < |t| ensures nx1[i] == At(t, i + 1) && pv1[i] == At(t, i - 1) {
      if 0 < i < n { assert nx1[i] == nx[i - 1] == At(s, i); }
      if 1 < i { assert pv1[i] == pv[i - 1] == At(s, i - 2); }
    }
  }

  // The first node behind the others.
  lemma RotatedHeadPlain<T>(s: seq<Node<T>>, nx: seq<Node?<T>>, pv: seq<Node?<T>>)
    requires |s| > 1 && Chain(s, nx, pv)
    ensures nx[0] == s[1] && NoDuplicates(s[1..]) && s[0] !in s[1..]
    ensures var n := |s| - 1; Chain(s[1..] + [s[0]], nx[1..n] + [s[0], null], [null] + pv[2..] + [s[n]])
  {
    var n := |s| - 1;
    var t, nx1, pv1 := s[1..] + [s[0]], nx[1..n] + [s[0], null], [null] + pv[2..] + [s[n]];
    forall i, j | 0 <= i < j < |t| ensures t[i] != t[j] {
      assert t[i] == s[i + 1] && t[j] == s[if j == n then 0 else j + 1];
    }
    assert nx[0] == At(s, 1);
    hide NoDuplicates;
    forall i | 0 <= i < |t| ensures nx1[i] == At(t, i + 1) && pv1[i] == At(t, i - 1) {
      if i < n - 1 { assert nx1[i] == nx[i + 1] == At(s, i + 2); }
      if 0 < i < n { assert pv1[i] == pv[i + 1] == At(s, i); }
    }
  }

  lemma RotatedTail<T>(s: seq<Node<T>>, nx: seq<Node?<T>>, pv: seq<Node?<T>>)
    requires |s| > 1 && Chain(s, nx, pv)
    ensures pv[|s| - 1] == s[|s| - 2] && NoDuplicates(s[..|s| - 1]) && s[|s| - 1] !in s[..|s| - 1]
    ensures var n := |s| - 1;
      Chain(InsertAt(s[..n], 0, s[n]), InsertAt(Put(nx[..n], n - 1, null), 0, s[0]), InsertAt(Put(pv[..n], 0, s[n]), 0, null))
  {
    var n := |s| - 1;
    RotatedTailPlain(s, nx, pv);
    TailForm(nx, pv, s[0], s[n]);
    assert InsertAt(s[..n], 0, s[n]) == [s[n]] + s[..n];
  }

  lemma RotatedHead<T>(s: seq<Node<T>>, nx: seq<Node?<T>>, pv: seq<Node?<T>>)
    requires |s| > 1 && Chain(s, nx, pv)
    ensures nx[0] == s[1] && NoDuplicates(s[1..]) && s[0] !in s[1..]
    ensures var n := |s| - 1;
      Chain(InsertAt(s[1..], n, s[0]), InsertAt(Put(nx[1..], n - 1, s[0]), n, null), InsertAt(Put(pv[1..], 0, null), n, s[n]))
  {
    var n := |s| - 1;
    RotatedHeadPlain(s, nx, pv);
    HeadForm(nx, pv, s[0], s[n]);
    assert InsertAt(s[1..], n, s[0]) == s[1..] + [s[0]];
  }

  // The same links, written as changes to the old ones.
  lemma TailForm<T>(nx: seq<Node?<T>>, pv: seq<Node?<T>>, first: Node<T>, last: Node<T>)
    requires |nx| > 1 && |pv| == |nx|
    ensures var n := |nx| - 1;
      && [first] + nx[..n - 1] + [null] == InsertAt(Put(nx[..n], n - 1, null), 0, first)
      && [null, last] + pv[1..n] == InsertAt(Put(pv[..n], 0, last), 0, null)
  {
  }

  lemma HeadForm<T>(nx: seq<Node?<T>>, pv: seq<Node?<T>>, first: Node<T>, last: Node<T>)
    requires |nx| > 1 && |pv| == |nx|
    ensures var n := |nx| - 1;
      && nx[1..n] + [first, null] == InsertAt(Put(nx[1..], n - 1, first), n, null)
      && [null] + pv[2..] + [last] == InsertAt(Put(pv[1..], 0, null), n, last)
  {
  }

  lemma LinksInsert<T>(s: seq<Node<T>>, k: nat, n: Node<T>)
    requires k <= |s|
    ensures Nexts(InsertAt(s, k, n)) == InsertAt(Nexts(s), k, n.next)
    ensures Prevs(InsertAt(s, k, n)) == InsertAt(Prevs(s), k, n.prev)
  {
  }

  lemma LinksDrop<T>(s: seq<Node<T>>, i: nat)
    requires i < |s|
    ensures Nexts(Drop(s, i)) == Drop(Nexts(s), i) && Prevs(Drop(s, i)) == Drop(Prevs(s), i)
  {
  }

  lemma DropEnds<T>(s: seq<Node<T>>, i: nat)
    requires i < |s|
    ensures var t := Drop(s, i);
      && |t| == |s| - 1
      && At(t, 0) == (if i == 0 then At(s, 1) else s[0])
      && At(t, |t| - 1) == (if i == |s| - 1 then At(s, i - 1) else s[|s| - 1])
      && forall m :: m in t ==> m in s
  {
  }

  lemma InsertEnds<T>(s: seq<Node<T>>, k: nat, n: Node<T>)
    requires k <= |s|
    ensures var t := InsertAt(s, k, n);
      && |t| == |s| + 1
      && At(t, 0) == (if k == 0 then n else s[0])
      && At(t, |t| - 1) == (if k == |s| then n else s[|s| - 1])
      && forall m :: m in t ==> m == n || m in s
  {
  }

  // Only the forward link of node i differs from nx; it is v.
  lemma NextPut<T>(s: seq<Node<T>>, nx: seq<Node?<T>>, i: int, v: Node?<T>)
    requires |nx| == |s| && (0 <= i < |s| ==> s[i].next == v)
    requires forall j :: 0 <= j < |s| && j != i ==> s[j].next == nx[j]
    ensures Nexts(s) == Put(nx, i, v)
  {
  }

  lemma PrevPut<T>(s: seq<Node<T>>, pv: seq<Node?<T>>, i: int, v: Node?<T>)
    requires |pv| == |s| && (0 <= i < |s| ==> s[i].prev == v)
    requires forall j :: 0 <= j < |s| && j != i ==> s[j].prev == pv[j]
    ensures Prevs(s) == Put(pv, i, v)
  {
  }

  // Make two nodes, either of which may be missing, neighbours.
  method Connect<T>(p: Node?<T>, n: Node?<T>)
    modifies (if p == null then {} else {p})`next, (if n == null then {} else {n})`prev
    ensures p != null ==> p.next == n
    ensures n != null ==> n.prev == p
  {
    if p != null { p.next := n; }
    if n != null { n.prev := p; }
  }

  class List<T> {
    var head: Node?<T>
    var tail: Node?<T>
    var len: nat
    ghost var nodes: seq<Node<T>>
    // The list itself and every node it has had.
    ghost var repr: set<object>

    ghost predicate Valid()
      reads this, repr
    {
      && this in repr && (forall n :: n in nodes ==> n in repr)
      && len == |nodes|
      && head == At(nodes, 0)
      && tail == At(nodes, |nodes| - 1)
      && Chain(nodes, Nexts(nodes), Prevs(nodes))
    }

    constructor ()
      ensures Valid() && nodes == [] && repr == {this}
    {
      head, tail, len, nodes, repr := null, null, 0, [], {this};
    }

    method AddNodeHead(value: T) returns (node: Node<T>)
      requires Valid()
      modifies repr
      ensures Valid() && fresh(node) && node.value == value && repr == old(repr) + {node}
      ensures nodes == [node] + old(nodes)
    {
      hide Chain;
      ghost var s, nx, pv := nodes, Nexts(nodes), Prevs(nodes);
      node := new Node(value);
      ChainInsert(s, nx, pv, 0, node);
      assert NoDuplicates(s) by { ChainDistinct(s, nx, pv); }
      if len == 0 {
        head, tail := node, node;
      } else {
        node.next := head;
        head.prev := node;
        head := node;
      }
      len := len + 1;
      nodes, repr := InsertAt(s, 0, node), repr + {node};
      assert Nexts(nodes) == InsertAt(nx, 0, At(s, 0));
      assert Prevs(nodes) == InsertAt(Put(pv, 0, node), 0, null);
    }

    method AddNodeTail(value: T) returns (node: Node<T>)
      requires Valid()
      modifies repr
      ensures Valid() && fresh(node) && node.value == value && repr == old(repr) + {node}
      ensures nodes == old(nodes) + [node]
    {
      hide Chain;
      ghost var s, nx, pv := nodes, Nexts(nodes), Prevs(nodes);
      node := new Node(value);
      ChainInsert(s, nx, pv, |s|, node);
      assert NoDuplicates(s) by { ChainDistinct(s, nx, pv); }
      if len == 0 {
        head, tail := node, node;
      } else {
        node.prev := tail;
        tail.next := node;
        tail := node;
      }
      len := len + 1;
      nodes, repr := InsertAt(s, |s|, node), repr + {node};
      assert Nexts(nodes) == InsertAt(Put(nx, |s| - 1, node), |s|, null);
      assert Prevs(nodes) == InsertAt(pv, |s|, At(s, |s| - 1));
    }

    // A new node before or after the one at position i.
    method InsertNode(oldNode: Node<T>, ghost i: nat, value: T, after: bool) returns (node: Node<T>)
      requires Valid() && i < |nodes| && nodes[i] == oldNode
      modifies repr
      ensures Valid() && fresh(node) && node.value == value && repr == old(repr) + {node}
      ensures nodes == InsertAt(old(nodes), if after then i + 1 else i, node)
    {
      hide Chain, InsertAt, Nexts, Prevs;
      ghost var k := if after then i + 1 else i;
      node := new Node(value);
      ChainDistinct(nodes, Nexts(nodes), Prevs(nodes));
      ChainLinks(nodes, Nexts(nodes), Prevs(nodes), i);
      Spots(nodes, i);
      if after {
        node.prev, node.next := oldNode, oldNode.next;
        if tail == oldNode { tail := node; }
      } else {
        node.next, node.prev := oldNode, oldNode.prev;
        if head == oldNode { head := node; }
      }
      Attach(node, k);
    }

    // A node that points to its neighbours at position k becomes theirs.
    method Attach(node: Node<T>, ghost k: nat)
      requires this in repr && (forall n :: n in nodes ==> n in repr) && Chain(nodes, Nexts(nodes), Prevs(nodes))
      requires len == |nodes| && k <= |nodes| && node !in nodes
      requires node.prev == At(nodes, k - 1) && node.next == At(nodes, k)
      requires head == (if k == 0 then node else At(nodes, 0))
      requires tail == (if k == |nodes| then node else At(nodes, |nodes| - 1))
      modifies repr
      ensures Valid() && nodes == InsertAt(old(nodes), k, node) && repr == old(repr) + {node}
    {
      hide Chain, Put, InsertAt, Nexts, Prevs;
      ghost var s, nx, pv := nodes, Nexts(nodes), Prevs(nodes);
      ChainInsert(s, nx, pv, k, node);
      assert NoDuplicates(s) by { ChainDistinct(s, nx, pv); }
      var p, n := node.prev, node.next;
      assert (p != null ==> p in s) && (n != null ==> n in s);
      if p != null { p.next := node; }
      if n != null { n.prev := node; }
      len := len + 1;
      nodes, repr := InsertAt(s, k, node), repr + {node};
      NextPut(s, nx, k - 1, node);
      PrevPut(s, pv, k, node);
      LinksInsert(s, k, node);
      InsertEnds(s, k, node);
    }

    method DelNode(node: Node<T>, ghost i: nat)
      requires Valid() && i < |nodes| && nodes[i] == node
      modifies repr
      ensures Valid() && nodes == Drop(old(nodes), i) && repr == old(repr)
    {
      hide Chain, Drop, Put, InsertAt, Nexts, Prevs;
      ghost var s, nx, pv := nodes, Nexts(nodes), Prevs(nodes);
      ChainDrop(s, nx, pv, i);
      ChainDistinct(s, nx, pv);
      ChainLinks(s, nx, pv, i);
      var p, n := node.prev, node.next;
      assert (p != null ==> p in s) && (n != null ==> n in s);
      Connect(p, n);
      if p == null { head := n; }
      if n == null { tail := p; }
      len := len - 1;
      nodes := Drop(s, i);
      NextPut(s, nx, i - 1, nx[i]);
      PrevPut(s, pv, i + 1, pv[i]);
      LinksDrop(s, i);
      DropEnds(s, i);
    }

    method RotateTailToHead()
      requires Valid()
      modifies repr
      ensures Valid() && repr == old(repr)
      ensures nodes == if |old(nodes)| <= 1 then old(nodes)
                       else [old(nodes)[|old(nodes)| - 1]] + old(nodes)[..|old(nodes)| - 1]
    {
      if len <= 1 { return; }
      var last := tail;
      hide Chain, Put;
      ghost var s, nx, pv := nodes, Nexts(nodes), Prevs(nodes);
      ghost var n := |s| - 1;
      ghost var t := s[..n];
      RotatedTail(s, nx, pv);
      tail := last.prev;
      tail.next := null;
      head.prev := last;
      last.prev := null;
      last.next := head;
      head := last;
      nodes := [last] + t;
      assert nodes == InsertAt(t, 0, last);
      NextPut(t, nx[..n], n - 1, null);
      PrevPut(t, pv[..n], 0, last);
      LinksInsert(t, 0, last);
    }

    method RotateHeadToTail()
      requires Valid()
      modifies repr
      ensures Valid() && repr == old(repr)
      ensures nodes == if |old(nodes)| <= 1 then old(nodes) else old(nodes)[1..] + [old(nodes)[0]]
    {
      if len <= 1 { return; }
      var first := head;
      hide Chain, Put;
      ghost var s, nx, pv := nodes, Nexts(nodes), Prevs(nodes);
      ghost var n := |s| - 1;
      ghost var t := s[1..];
      RotatedHead(s, nx, pv);
      head := first.next;
      head.prev := null;
      tail.next := first;
      first.next := null;
      first.prev := tail;
      tail := first;
      nodes := t + [first];
      assert nodes == InsertAt(t, n, first);
      NextPut(t, nx[1..], n - 1, first);
      PrevPut(t, pv[1..], 0, null);
      LinksInsert(t, n, first);
    }

    // The first node whose value matches.
    method SearchKey(matches: T -> bool) returns (found: Node?<T>, ghost i: nat)
      requires Valid()
      ensures found == At(nodes, i) && i <= |nodes|
      ensures found != null ==> matches(found.value)
      ensures forall j :: 0 <= j < i ==> !matches(nodes[j].value)
    {
      found, i := head, 0;
      while found != null
        invariant i <= |nodes| && found == At(nodes, i)
        invariant forall j :: 0 <= j < i ==> !matches(nodes[j].value)
        decreases |nodes| - i
      {
        if matches(found.value) { return; }
        ChainLinks(nodes, Nexts(nodes), Prevs(nodes), i);
        found, i := found.next, i + 1;
      }
    }

    // The node at an index counted from the head or, when negative, from the tail.
    method Index(index: int) returns (n: Node?<T>)
      requires Valid()
      ensures n == At(nodes, if index < 0 then |nodes| + index else index)
    {
      if index < 0 {
        var left := -index - 1;
        n := tail;
        while left != 0 && n != null
          invariant 0 <= left <= -index - 1
          invariant n == At(nodes, |nodes| + index + left)
          decreases left
        {
          ghost var at := |nodes| + index + left;
          ChainLinks(nodes, Nexts(nodes), Prevs(nodes), at);
          n, left := n.prev, left - 1;
        }
      } else {
        var left := index;
        n := head;
        while left != 0 && n != null
          invariant 0 <= left <= index
          invariant n == At(nodes, index - left)
          decreases left
        {
          ghost var at := index - left;
          ChainLinks(nodes, Nexts(nodes), Prevs(nodes), at);
          n, left := n.next, left - 1;
        }
      }
    }
  }
}
