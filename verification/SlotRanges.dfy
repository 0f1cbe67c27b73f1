/**
Slots printed as ranges, by one pass over a node's bits or by one pass over the slot table, and
read back.
*/
module SlotRanges {
  import opened Options
  import opened AofFormat

  datatype Range = Range(start: nat, stop: nat)

  type Owners = seq<Option<nat>>

  // ------------------------------------------------------------- what the ranges must be

  // A run of set bits that cannot be made longer.
  ghost predicate Maximal(bits: seq<bool>, r: Range) {
    && r.start <= r.stop < |bits|
    && (forall j :: r.start <= j <= r.stop ==> bits[j])
    && (r.start > 0 ==> !bits[r.start - 1])
    && (r.stop + 1 < |bits| ==> !bits[r.stop + 1])
  }

  // The ranges are the maximal runs that start below m, in order.
  ghost predicate Covers(bits: seq<bool>, rs: seq<Range>, m: nat) {
    && (forall i :: 0 <= i < |rs| ==> Maximal(bits, rs[i]) && rs[i].stop < m)
    && (forall i, k :: 0 <= i < k < |rs| ==> rs[i].stop < rs[k].start)
    && (forall j :: 0 <= j < m && j < |bits| && bits[j] ==> Inside(rs, j))
  }

  predicate Inside(rs: seq<Range>, j: nat) {
    exists i :: 0 <= i < |rs| && rs[i].start <= j <= rs[i].stop
  }

  predicate Bit(bits: seq<bool>, j: int) {
    0 <= j < |bits| && bits[j]
  }

  // Two maximal runs that share a bit are the same.
  lemma SameRun(bits: seq<bool>, a: Range, b: Range, j: nat)
    requires Maximal(bits, a) && Maximal(bits, b) && a.start <= j <= a.stop && b.start <= j <= b.stop
    ensures a == b
  {
    assert a.start <= b.start - 1 <= a.stop ==> Bit(bits, b.start - 1);
    assert b.start <= a.start - 1 <= b.stop ==> Bit(bits, a.start - 1);
    assert b.start <= a.stop + 1 <= b.stop ==> Bit(bits, a.stop + 1);
    assert a.start <= b.stop + 1 <= a.stop ==> Bit(bits, b.stop + 1);
  }

  /** There is only one way to write bits as maximal ranges. */
  lemma {:induction false} OnlyOneWay(bits: seq<bool>, a: seq<Range>, b: seq<Range>, m: nat)
    requires Covers(bits, a, m) && Covers(bits, b, m)
    ensures a == b
    decreases |a|
  {
    if a != [] { NoneForNone(bits, a, b, m); }
    if b != [] { NoneForNone(bits, b, a, m); }
    if a != [] {
      LastSame(bits, a, b, m);
      var x, y := a[..|a| - 1], b[..|b| - 1];
      var n := a[|a| - 1].start;
      CoversFront(bits, a, m);
      CoversFront(bits, b, m);
      OnlyOneWay(bits, x, y, n);
      assert a == x + [a[|a| - 1]] && b == y + [b[|b| - 1]];
    }
  }

  lemma NoneForNone(bits: seq<bool>, a: seq<Range>, b: seq<Range>, m: nat)
    requires Covers(bits, a, m) && Covers(bits, b, m) && a != []
    ensures b != []
  {
    assert bits[a[0].start];
    assert Inside(b, a[0].start);
  }

  lemma LastSame(bits: seq<bool>, a: seq<Range>, b: seq<Range>, m: nat)
    requires Covers(bits, a, m) && Covers(bits, b, m) && a != [] && b != []
    ensures a[|a| - 1] == b[|b| - 1]
  {
    var x, y := a[|a| - 1], b[|b| - 1];
    if x.stop >= y.stop {
      InsideLast(bits, a, b, m);
    } else {
      InsideLast(bits, b, a, m);
    }
  }

  lemma InsideLast(bits: seq<bool>, a: seq<Range>, b: seq<Range>, m: nat)
    requires Covers(bits, a, m) && Covers(bits, b, m) && a != [] && b != []
    requires a[|a| - 1].stop >= b[|b| - 1].stop
    ensures a[|a| - 1] == b[|b| - 1]
  {
    var x := a[|a| - 1];
    assert bits[x.stop];
    assert Inside(b, x.stop);
    var i :| 0 <= i < |b| && b[i].start <= x.stop <= b[i].stop;
    assert i == |b| - 1;
    SameRun(bits, x, b[i], x.stop);
  }

  lemma CoversFront(bits: seq<bool>, a: seq<Range>, m: nat)
    requires Covers(bits, a, m) && a != []
    ensures Covers(bits, a[..|a| - 1], a[|a| - 1].start)
  {
    var x, n := a[..|a| - 1], a[|a| - 1].start;
    forall j | 0 <= j < n && j < |bits| && bits[j] ensures Inside(x, j) {
      assert Inside(a, j);
      var i :| 0 <= i < |a| && a[i].start <= j <= a[i].stop;
      assert x[i] == a[i];
    }
  }

  // ------------------------------------------------------------- one pass over the bits

  lemma CloseRun(bits: seq<bool>, rs: seq<Range>, start: nat, j: nat)
    requires Covers(bits, rs, start) && Maximal(bits, Range(start, j)) 
    ensures Covers(bits, rs + [Range(start, j)], j + 1)
  {
    var rs1 := rs + [Range(start, j)];
    forall i | 0 <= i < j + 1 && i < |bits| && bits[i] ensures Inside(rs1, i) {
      if i < start {
        assert Inside(rs, i);
        var k :| 0 <= k < |rs| && rs[k].start <= i <= rs[k].stop;
        assert rs1[k] == rs[k];
      } else {
        assert rs1[|rs|] == Range(start, j);
      }
    }
  }

  lemma SkipClear(bits: seq<bool>, rs: seq<Range>, j: nat)
    requires Covers(bits, rs, j) && (j < |bits| ==> !bits[j])
    ensures Covers(bits, rs, j + 1)
  {
    assert forall i :: 0 <= i < |rs| ==> rs[i].stop < j + 1;
    forall i | 0 <= i < j + 1 && i < |bits| && bits[i] ensures Inside(rs, i) {
      assert i < j;
    }
  }

  // Below m the bits are written down; from `start`, if there is one, to j they are set.
  ghost predicate Scanned(bits: seq<bool>, rs: seq<Range>, start: int, j: nat) {
    if start < 0 then Covers(bits, rs, j) && (0 < j <= |bits| ==> !bits[j - 1] || j == |bits|)
    else
      && start < j < |bits| && Covers(bits, rs, start)
      && (forall i :: start <= i < j ==> bits[i]) && (start > 0 ==> !bits[start - 1])
  }

  // One more slot.
  lemma ScanStep(bits: seq<bool>, rs: seq<Range>, start: int, j: nat)
    requires j < |bits| && Scanned(bits, rs, start, j)
    ensures var open := if start < 0 && bits[j] then j as int else start;
      && (bits[j] && j < |bits| - 1 ==> Scanned(bits, rs, open, j + 1))
      && (!bits[j] && start < 0 ==> Scanned(bits, rs, start, j + 1))
      && (!bits[j] && start >= 0 ==> Scanned(bits, rs + [Range(start, j - 1)], -1, j + 1))
      && (bits[j] && j == |bits| - 1 ==> Scanned(bits, rs + [Range(open, j)], -1, j + 2))
  {
    if bits[j] {
      if j == |bits| - 1 {
        var open := if start < 0 then j else start;
        assert Maximal(bits, Range(open, j));
        CloseRun(bits, rs, open, j);
        SkipClear(bits, rs + [Range(open, j)], j + 1);
      }
    } else if start < 0 {
      SkipClear(bits, rs, j);
    } else {
      assert Maximal(bits, Range(start, j - 1));
      CloseRun(bits, rs, start, j - 1);
      SkipClear(bits, rs + [Range(start, j - 1)], j);
    }
  }

  lemma ScanDone(bits: seq<bool>, rs: seq<Range>, start: int, j: nat)
    requires j >= |bits| && Scanned(bits, rs, start, j)
    ensures Covers(bits, rs, |bits|)
  {
  }

  /** The loop of one node's description. */
  method NodeRanges(bits: seq<bool>) returns (rs: seq<Range>)
    ensures Covers(bits, rs, |bits|)
  {
    rs := [];
    var start: int := -1;
    var j: nat := 0;
    assert Scanned(bits, rs, start, j);
    hide Scanned, Covers;
    while j < |bits|
      invariant Scanned(bits, rs, start, j) && start >= -1
    {
      ScanStep(bits, rs, start, j);
      var bit := bits[j];
      if bit {
        if start == -1 { start := j; }
      }
      if start != -1 && (!bit || j == |bits| - 1) {
        if bit && j == |bits| - 1 { j := j + 1; }
        rs := rs + [Range(start, j - 1)];
        start := -1;
      }
      j := j + 1;
    }
    ScanDone(bits, rs, start, j);
  }

  // ------------------------------------------------------- one pass over the slot table

  // The slots of one node.
  function BitsOf(slots: Owners, x: nat): (bits: seq<bool>)
    ensures |bits| == |slots| && forall j :: 0 <= j < |slots| ==> bits[j] == (slots[j] == Some(x))
  {
    seq(|slots|, j requires 0 <= j < |slots| => slots[j] == Some(x))
  }

  function InfoOf(info: map<nat, seq<Range>>, x: nat): seq<Range> {
    if x in info then info[x] else []
  }

  // Every node that is shown has its ranges below i.
  ghost predicate Complete(slots: Owners, info: map<nat, seq<Range>>, hidden: set<nat>, i: nat) {
    && (forall x: nat :: x !in hidden ==> Covers(BitsOf(slots, x), InfoOf(info, x), i))
    && (forall x :: x in hidden ==> x !in info)
  }

  // Every node's ranges below i; the run of node n that starts at `start` is still open.
  ghost predicate Swept(slots: Owners, info: map<nat, seq<Range>>, hidden: set<nat>, n: Option<nat>, start: nat, i: nat) {
    && i <= |slots|
    && (forall x: nat :: x !in hidden ==> Covers(BitsOf(slots, x), InfoOf(info, x), if n == Some(x) then start else i))
    && (n.Some? ==>
          && start < i && (forall j :: start <= j < i ==> slots[j] == n)
          && (start > 0 ==> slots[start - 1] != n))
    && (n.None? && i > 0 ==> slots[i - 1] == None)
    && (forall x :: x in hidden ==> x !in info)
  }

  // Whoever does not own slot i has nothing to write there.
  lemma NotMine(slots: Owners, rs: seq<Range>, x: nat, i: nat)
    requires i < |slots| && slots[i] != Some(x) && Covers(BitsOf(slots, x), rs, i)
    ensures Covers(BitsOf(slots, x), rs, i + 1)
  {
    SkipClear(BitsOf(slots, x), rs, i);
  }

  // Slot i opens a run, or belongs to nobody.
  lemma SweepOpen(slots: Owners, info: map<nat, seq<Range>>, hidden: set<nat>, i: nat)
    requires Swept(slots, info, hidden, None, 0, i) && i < |slots|
    ensures Swept(slots, info, hidden, slots[i], i, i + 1)
  {
    forall x: nat | x !in hidden ensures Covers(BitsOf(slots, x), InfoOf(info, x), if slots[i] == Some(x) then i else i + 1) {
      if slots[i] != Some(x) { NotMine(slots, InfoOf(info, x), x, i); }
    }
  }

  // Slot i belongs to the same node as the run.
  lemma SweepSame(slots: Owners, info: map<nat, seq<Range>>, hidden: set<nat>, n: Option<nat>, start: nat, i: nat)
    requires Swept(slots, info, hidden, n, start, i) && n.Some? && i < |slots| && slots[i] == n
    ensures Swept(slots, info, hidden, n, start, i + 1)
  {
    forall x: nat | x !in hidden ensures Covers(BitsOf(slots, x), InfoOf(info, x), if n == Some(x) then start else i + 1) {
      if n != Some(x) { NotMine(slots, InfoOf(info, x), x, i); }
    }
  }

  function Written(info: map<nat, seq<Range>>, hidden: set<nat>, x: nat, r: Range): map<nat, seq<Range>> {
    if x in hidden then info else info[x := InfoOf(info, x) + [r]]
  }

  lemma CloseMine(slots: Owners, rs: seq<Range>, x: nat, start: nat, i: nat)
    requires start < i <= |slots| && Covers(BitsOf(slots, x), rs, start)
    requires forall j :: start <= j < i ==> slots[j] == Some(x)
    requires (start > 0 ==> slots[start - 1] != Some(x)) && (i < |slots| ==> slots[i] != Some(x))
    ensures Covers(BitsOf(slots, x), rs + [Range(start, i - 1)], i)
  {
    assert Maximal(BitsOf(slots, x), Range(start, i - 1));
    CloseRun(BitsOf(slots, x), rs, start, i - 1);
  }

  // The run ends before slot i.
  lemma SweepClose(slots: Owners, info: map<nat, seq<Range>>, hidden: set<nat>, n: Option<nat>, start: nat, i: nat)
    requires Swept(slots, info, hidden, n, start, i) && n.Some? && (i < |slots| ==> slots[i] != n)
    ensures Complete(slots, Written(info, hidden, n.value, Range(start, i - 1)), hidden, i)
  {
    hide Covers, BitsOf;
    var info1 := Written(info, hidden, n.value, Range(start, i - 1));
    forall x: nat | x !in hidden ensures Covers(BitsOf(slots, x), InfoOf(info1, x), i) {
      assert Covers(BitsOf(slots, x), InfoOf(info, x), if n == Some(x) then start else i);
      if n == Some(x) { CloseMine(slots, InfoOf(info, x), x, start, i); }
    }
  }

  // A new run begins where another node's run ended.
  lemma SweepNext(slots: Owners, info: map<nat, seq<Range>>, hidden: set<nat>, n: Option<nat>, i: nat)
    requires i < |slots| && slots[i] != n && (i > 0 ==> slots[i - 1] == n) 
    requires Complete(slots, info, hidden, i)
    ensures Swept(slots, info, hidden, slots[i], i, i + 1)
  {
    forall x: nat | x !in hidden ensures Covers(BitsOf(slots, x), InfoOf(info, x), if slots[i] == Some(x) then i else i + 1) {
      if slots[i] != Some(x) { NotMine(slots, InfoOf(info, x), x, i); }
    }
  }

  lemma SweepEnd(slots: Owners, info: map<nat, seq<Range>>, hidden: set<nat>, i: nat)
    requires Swept(slots, info, hidden, None, 0, i)
    ensures Complete(slots, info, hidden, i)
  {
    hide Covers;
  }

  lemma SweepStart(slots: Owners, hidden: set<nat>)
    ensures Swept(slots, map[], hidden, None, 0, 0)
  {
  }

  /** One pass over the table gives every node that is shown all its ranges. */
  method TableRanges(slots: Owners, hidden: set<nat>) returns (info: map<nat, seq<Range>>)
    ensures Complete(slots, info, hidden, |slots|)
  {
    info := map[];
    var n: Option<nat> := None;
    var start: nat := 0;
    var i: nat := 0;
    SweepStart(slots, hidden);
    hide Complete, Written;
    while i <= |slots|
      invariant i <= |slots| && Swept(slots, info, hidden, n, if n.None? then 0 else start, i)
      decreases |slots| - i
    {
      if n.None? {
        if i == |slots| {
          SweepEnd(slots, info, hidden, i);
          return;
        }
        SweepOpen(slots, info, hidden, i);
        n := slots[i];
        start := i;
        SweptStart(slots, info, hidden, n, start, i + 1);
        i := i + 1;
        continue;
      }
      if i == |slots| || n != slots[i] {
        SweepClose(slots, info, hidden, n, start, i);
        SweptBefore(slots, info, hidden, n, start, i);
        info := Written(info, hidden, n.value, Range(start, i - 1));
        if i == |slots| { return; }
        SweepNext(slots, info, hidden, n, i);
        n := slots[i];
        start := i;
        SweptStart(slots, info, hidden, n, start, i + 1);
      } else {
        SweepSame(slots, info, hidden, n, start, i);
      }
      i := i + 1;
    }
  }

  // Without an open run its start does not matter.
  lemma SweptStart(slots: Owners, info: map<nat, seq<Range>>, hidden: set<nat>, n: Option<nat>, start: nat, i: nat)
    requires Swept(slots, info, hidden, n, start, i)
    ensures Swept(slots, info, hidden, n, if n.None? then 0 else start, i)
  {
    hide Covers;
  }

  lemma SweptBefore(slots: Owners, info: map<nat, seq<Range>>, hidden: set<nat>, n: Option<nat>, start: nat, i: nat)
    requires Swept(slots, info, hidden, n, start, i) && n.Some?
    ensures i > 0 && slots[i - 1] == n
  {
    hide Covers;
  }

  /** Both ways of printing agree. */
  lemma SameRanges(slots: Owners, hidden: set<nat>, info: map<nat, seq<Range>>, x: nat, rs: seq<Range>)
    requires Complete(slots, info, hidden, |slots|) && x !in hidden && Covers(BitsOf(slots, x), rs, |slots|)
    ensures InfoOf(info, x) == rs
  {
    OnlyOneWay(BitsOf(slots, x), InfoOf(info, x), rs, |slots|);
  }

  // ------------------------------------------------------------------------ reading back

  // clusterAddSlot: a slot that has an owner keeps it.
  function AddSlot(slots: Owners, x: nat, j: nat): Owners
    requires j < |slots|
  {
    if slots[j].Some? then slots else slots[j := Some(x)]
  }

  function AddUpTo(slots: Owners, x: nat, start: nat, n: nat): (r: Owners)
    requires n <= |slots|
    ensures |r| == |slots|
    ensures forall j :: 0 <= j < |slots| ==> r[j] == if start <= j < n && slots[j].None? then Some(x) else slots[j]
  {
    if n <= start then slots else AddSlot(AddUpTo(slots, x, start, n - 1), x, n - 1)
  }

  // The ranges of one line of the file; a range outside the table is a format error.
  function AddRanges(slots: Owners, x: nat, rs: seq<Range>): Option<Owners> {
    if rs == [] then Some(slots)
    else
      match AddRanges(slots, x, rs[..|rs| - 1])
      case None => None
      case Some(s) =>
        var r := rs[|rs| - 1];
        if r.start >= |s| || r.stop >= |s| then None else Some(AddUpTo(s, x, r.start, r.stop + 1))
  }

  lemma {:induction false} AddedRanges(slots: Owners, x: nat, rs: seq<Range>)
    requires forall i :: 0 <= i < |rs| ==> rs[i].start < |slots| && rs[i].stop < |slots|
    ensures var r := AddRanges(slots, x, rs);
      && r.Some? && |r.value| == |slots|
      && forall j :: 0 <= j < |slots| ==> r.value[j] == if Inside(rs, j) && slots[j].None? then Some(x) else slots[j]
    decreases |rs|
  {
    if rs != [] {
      var front, last := rs[..|rs| - 1], rs[|rs| - 1];
      AddedRanges(slots, x, front);
      forall j: nat ensures Inside(rs, j) <==> Inside(front, j) || last.start <= j <= last.stop {
        InsideMore(rs, j);
      }
    }
  }

  /** A line is a format error exactly if an end of one of its ranges lies outside the table. */
  lemma {:induction false} RangesRefused(slots: Owners, x: nat, rs: seq<Range>)
    ensures AddRanges(slots, x, rs) == None <==>
      exists i :: 0 <= i < |rs| && (rs[i].start >= |slots| || rs[i].stop >= |slots|)
    ensures AddRanges(slots, x, rs).Some? ==> |AddRanges(slots, x, rs).value| == |slots|
    decreases |rs|
  {
    if rs != [] {
      var front := rs[..|rs| - 1];
      RangesRefused(slots, x, front);
      assert forall i :: 0 <= i < |front| ==> front[i] == rs[i];
    }
  }

  lemma InsideMore(rs: seq<Range>, j: nat)
    requires rs != []
    ensures Inside(rs, j) <==> Inside(rs[..|rs| - 1], j) || rs[|rs| - 1].start <= j <= rs[|rs| - 1].stop
  {
    var front := rs[..|rs| - 1];
    if Inside(front, j) {
      var i :| 0 <= i < |front| && front[i].start <= j <= front[i].stop;
      assert rs[i] == front[i];
    }
    if Inside(rs, j) {
      var i :| 0 <= i < |rs| && rs[i].start <= j <= rs[i].stop;
      assert i < |front| ==> front[i] == rs[i];
    }
  }

  function Unowned(n: nat): Owners {
    seq(n, j => None)
  }

  // All lines of the file.
  function LoadAll(slots: Owners, nodes: seq<nat>, info: map<nat, seq<Range>>): Option<Owners> {
    if nodes == [] then Some(slots)
    else
      match LoadAll(slots, nodes[..|nodes| - 1], info)
      case None => None
      case Some(s) => AddRanges(s, nodes[|nodes| - 1], InfoOf(info, nodes[|nodes| - 1]))
  }

  // The part of the table that belongs to the given nodes.
  function Part(slots: Owners, nodes: seq<nat>): (r: Owners)
    ensures |r| == |slots|
    ensures forall j :: 0 <= j < |slots| ==>
      r[j] == if slots[j].Some? && slots[j].value in nodes then slots[j] else None
  {
    seq(|slots|, j requires 0 <= j < |slots| => if slots[j].Some? && slots[j].value in nodes then slots[j] else None)
  }

  lemma {:induction false} LoadedPart(slots: Owners, nodes: seq<nat>, info: map<nat, seq<Range>>, hidden: set<nat>)
    requires Complete(slots, info, hidden, |slots|) && forall x :: x in nodes ==> x !in hidden
    ensures LoadAll(Part(slots, []), nodes, info) == Some(Part(slots, nodes))
    decreases |nodes|
  {
    hide Covers, AddRanges, Part;
    if nodes != [] {
      var front, x := nodes[..|nodes| - 1], nodes[|nodes| - 1];
      LoadedPart(slots, front, info, hidden);
      LoadedOne(slots, front, x, InfoOf(info, x));
      assert nodes == front + [x];
    }
  }

  lemma LoadedOne(slots: Owners, front: seq<nat>, x: nat, rs: seq<Range>)
    requires Covers(BitsOf(slots, x), rs, |slots|)
    ensures AddRanges(Part(slots, front), x, rs) == Some(Part(slots, front + [x]))
  {
    var s := Part(slots, front);
    AddedRanges(s, x, rs);
    forall j | 0 <= j < |slots| ensures Inside(rs, j) <==> slots[j] == Some(x) {
      if Inside(rs, j) {
        var i :| 0 <= i < |rs| && rs[i].start <= j <= rs[i].stop;
        assert BitsOf(slots, x)[j];
      }
      if slots[j] == Some(x) { assert BitsOf(slots, x)[j]; }
    }
    assert AddRanges(s, x, rs).value == Part(slots, front + [x]);
  }

  /** Printing the slot table as ranges and reading the ranges back gives the slots of every node
      that is shown; so the whole table, exactly when it has no slot of another node. */
  lemma TableRestored(slots: Owners, nodes: seq<nat>, info: map<nat, seq<Range>>, hidden: set<nat>)
    requires Complete(slots, info, hidden, |slots|) && forall x :: x in nodes ==> x !in hidden
    ensures LoadAll(Unowned(|slots|), nodes, info) == Some(Part(slots, nodes))
    ensures Part(slots, nodes) == slots <==> forall j :: 0 <= j < |slots| && slots[j].Some? ==> slots[j].value in nodes
  {
    LoadedPart(slots, nodes, info, hidden);
    assert Part(slots, []) == Unowned(|slots|);
    if Part(slots, nodes) == slots {
      forall j | 0 <= j < |slots| && slots[j].Some? ensures slots[j].value in nodes {
        assert Part(slots, nodes)[j] == slots[j];
      }
    }
  }

  // ------------------------------------------------------------------------- as text

  function PrintRange(r: Range): string {
    if r.start == r.stop then Decimal(r.start) else Decimal(r.start) + "-" + Decimal(r.stop)
  }

  // The position of the first dash, or the length.
  function Dash(s: string): (n: nat)
    ensures n <= |s| && '-' !in s[..n] && (n < |s| ==> s[n] == '-')
  {
    if s == [] || s[0] == '-' then 0 else 1 + Dash(s[1..])
  }

  // The two ends that the loader reads; they are checked against the size of the table later.
  function ParseRange(s: string): (int, int) {
    var n := Dash(s);
    if n < |s| then (ParseInt(s[..n], 0), ParseInt(s, n + 1)) else (ParseInt(s, 0), ParseInt(s, 0))
  }

  lemma {:induction false} DashAt(s: string, n: nat)
    requires n <= |s| && '-' !in s[..n] && (n < |s| ==> s[n] == '-')
    ensures Dash(s) == n
    decreases n
  {
    if n > 0 {
      assert s[..n][0] == s[0];
      assert s[1..][..n - 1] == s[..n][1..];
      DashAt(s[1..], n - 1);
    }
  }

  /** The text of a range is read back as the range. */
  lemma RangeText(r: Range)
    ensures ParseRange(PrintRange(r)) == (r.start as int, r.stop as int)
  {
    var a, b := Decimal(r.start), Decimal(r.stop);
    var s := PrintRange(r);
    if r.start == r.stop {
      assert s[..|s|] == s;
      DashAt(s, |s|);
      ParseDecimal(s, 0, r.start);
    } else {
      assert s[..|a|] == a && s[|a|] == '-' && s[|a| + 1..] == b;
      DashAt(s, |a|);
      assert a[0..|a|] == a && s[|a| + 1..|a| + 1 + |b|] == b;
      ParseDecimal(a, 0, r.start);
      ParseDecimal(s, |a| + 1, r.stop);
    }
  }
}
