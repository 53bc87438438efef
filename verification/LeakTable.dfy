/**
The table of live allocations of cpputest/src/CppUTest/MemoryLeakDetector.cpp: 73 singly linked lists, an allocation in
the list its address hashes to, and enumerations that are resumed from a node.
*/
module LeakTable {
  import opened Common

  datatype Period = All | Disabled | Enabled | Checking

  const HASH_PRIME := 73

  function Hash(memory: nat): (h: nat)
    ensures h < HASH_PRIME
  {
    memory % HASH_PRIME
  }

  // ---------- Sequences ----------

  /** The elements of `s` that are in `c`, in order. */
  function Only<T(==)>(s: seq<T>, c: iset<T>): seq<T> {
    if s == [] then [] else (if s[0] in c then [s[0]] else []) + Only(s[1..], c)
  }

  lemma {:induction false} OnlyConcat<T>(a: seq<T>, b: seq<T>, c: iset<T>)
    ensures Only(a + b, c) == Only(a, c) + Only(b, c)
  {
    if a == [] {
      assert a + b == b;
    } else {
      assert (a + b)[1..] == a[1..] + b && (a + b)[0] == a[0];
      OnlyConcat(a[1..], b, c);
      var head := if a[0] in c then [a[0]] else [];
      assert head + (Only(a[1..], c) + Only(b, c)) == (head + Only(a[1..], c)) + Only(b, c);
    }
  }

  lemma {:induction false} OnlyAll<T>(s: seq<T>, c: iset<T>)
    requires forall x | x in s :: x in c
    ensures Only(s, c) == s
  {
    if s != [] {
      OnlyAll(s[1..], c);
    }
  }

  lemma {:induction false} OnlyNone<T>(s: seq<T>, c: iset<T>)
    requires forall x | x in s :: x !in c
    ensures Only(s, c) == []
  {
    if s != [] {
      OnlyNone(s[1..], c);
    }
  }

  lemma {:induction false} OnlyHas<T>(s: seq<T>, c: iset<T>, x: T)
    requires x in s && x in c
    ensures x in Only(s, c)
  {
    if s[0] != x {
      OnlyHas(s[1..], c, x);
    }
  }

  lemma {:induction false} OnlySame<T>(s: seq<T>, c: iset<T>, d: iset<T>)
    requires forall x | x in s :: x in c <==> x in d
    ensures Only(s, c) == Only(s, d)
  {
    if s != [] {
      OnlySame(s[1..], c, d);
    }
  }

  lemma OnlyWithout<T>(s: seq<T>, i: nat, c: iset<T>)
    requires i < |s| && s[i] !in c
    ensures Only(Without(s, i), c) == Only(s, c)
  {
    assert s == s[..i] + ([s[i]] + s[i + 1..]);
    OnlyConcat(s[..i], [s[i]] + s[i + 1..], c);
    OnlyConcat([s[i]], s[i + 1..], c);
    OnlyConcat(s[..i], s[i + 1..], c);
  }

  /** The sequences one after the other. */
  function Flat<T>(ss: seq<seq<T>>): seq<T> {
    if ss == [] then [] else ss[0] + Flat(ss[1..])
  }

  lemma {:induction false} FlatConcat<T>(a: seq<seq<T>>, b: seq<seq<T>>)
    ensures Flat(a + b) == Flat(a) + Flat(b)
  {
    if a == [] {
      assert a + b == b;
    } else {
      assert (a + b)[1..] == a[1..] + b;
      FlatConcat(a[1..], b);
    }
  }

  lemma {:induction false} FlatEmpty<T>(ss: seq<seq<T>>)
    requires forall b | 0 <= b < |ss| :: ss[b] == []
    ensures Flat(ss) == []
  {
    if ss != [] {
      FlatEmpty(ss[1..]);
    }
  }

  lemma FlatTail<T>(ss: seq<seq<T>>, i: nat)
    requires i < |ss|
    ensures Flat(ss[i..]) == ss[i] + Flat(ss[i + 1..])
  {
    assert ss[i..][0] == ss[i] && ss[i..][1..] == ss[i + 1..];
  }

  lemma FlatParts<T>(ss: seq<seq<T>>, i: nat)
    requires i < |ss|
    ensures Flat(ss) == Flat(ss[..i]) + ss[i] + Flat(ss[i + 1..])
  {
    assert ss == ss[..i] + ss[i..];
    FlatConcat(ss[..i], ss[i..]);
    FlatTail(ss, i);
  }

  /** The sequence, and the place in it, of an element of the whole. */
  lemma {:induction false} Locate<T>(ss: seq<seq<T>>, p: nat) returns (b: nat, at: nat)
    requires p < |Flat(ss)|
    ensures b < |ss| && at < |ss[b]| && ss[b][at] == Flat(ss)[p]
    ensures Flat(ss)[p + 1..] == ss[b][at + 1..] + Flat(ss[b + 1..])
  {
    if p < |ss[0]| {
      b, at := 0, p;
    } else {
      b, at := Locate(ss[1..], p - |ss[0]|);
      assert Flat(ss)[p + 1..] == Flat(ss[1..])[p - |ss[0]| + 1..];
      assert ss[1..][b + 1..] == ss[b + 2..];
      b := b + 1;
    }
  }

  /** What is chosen behind the place `p` of the whole: in the rest of its sequence, and in the sequences behind that. */
  lemma Continued<T>(ss: seq<seq<T>>, p: nat, c: iset<T>) returns (b: nat, at: nat)
    requires p < |Flat(ss)|
    ensures b < |ss| && at < |ss[b]| && ss[b][at] == Flat(ss)[p]
    ensures Only(Flat(ss)[p + 1..], c) == Only(ss[b][at + 1..], c) + OnlyFrom(ss, b + 1, c)
  {
    b, at := Locate(ss, p);
    OnlyConcat(ss[b][at + 1..], Flat(ss[b + 1..]), c);
    OnlyFromIs(ss, b + 1, c);
  }

  lemma {:induction false} InFlat<T>(ss: seq<seq<T>>, x: T)
    ensures x in Flat(ss) <==> exists b :: 0 <= b < |ss| && x in ss[b]
  {
    if ss != [] {
      InFlat(ss[1..], x);
      assert forall b | 0 < b < |ss| :: ss[b] == ss[1..][b - 1];
    }
  }

  lemma FirstChosen(s: seq<Node>, i: nat, c: iset<Node>)
    requires i <= |s| && (forall j | 0 <= j < i :: s[j] !in c) && (i < |s| ==> s[i] in c)
    ensures NodeAt(Only(s, c), 0) == NodeAt(s, i)
    ensures i < |s| ==> Only(s, c) != [] && Only(Without(s, i), c) == Only(s, c)[1..]
    ensures i == |s| ==> Only(s, c) == []
  {
    OnlyNone(s[..i], c);
    if i < |s| {
      assert s == s[..i] + ([s[i]] + s[i + 1..]);
      OnlyConcat(s[..i], [s[i]] + s[i + 1..], c);
      OnlyConcat([s[i]], s[i + 1..], c);
      OnlyConcat(s[..i], s[i + 1..], c);
    } else {
      assert s[..i] == s;
    }
  }

  predicate Differ<T(==)>(s: seq<T>) { forall i, j | 0 <= i < j < |s| :: s[i] != s[j] }

  /** Sequences with no element twice or in common have none twice as a whole. */
  lemma {:induction false} FlatDiffers<T>(ss: seq<seq<T>>)
    requires forall b | 0 <= b < |ss| :: Differ(ss[b])
    requires forall a, b, x | 0 <= a < b < |ss| && x in ss[a] :: x !in ss[b]
    ensures Differ(Flat(ss))
  {
    if ss != [] {
      FlatDiffers(ss[1..]);
      var head, rest := ss[0], Flat(ss[1..]);
      forall x | x in head ensures x !in rest {
        InFlat(ss[1..], x);
      }
      forall i, j | 0 <= i < j < |head + rest| ensures (head + rest)[i] != (head + rest)[j] {
        if i < |head| <= j {
          assert head[i] in head && rest[j - |head|] in rest;
        }
      }
    }
  }

  lemma {:induction false} OnlyDiffers<T>(s: seq<T>, c: iset<T>)
    requires Differ(s)
    ensures Differ(Only(s, c))
  {
    if s != [] {
      var rest := Only(s[1..], c);
      OnlyDiffers(s[1..], c);
      OnlyIn(s[1..], c);
      assert s[0] !in s[1..] && s[0] !in rest;
    }
  }

  /** What is chosen with one more element at the head. */
  lemma OneMore<T>(x: T, was: seq<T>, c: iset<T>, d: iset<T>)
    requires forall y | y in was :: y in c <==> y in d
    ensures Only([x] + was, d) == (if x in d then [x] else []) + Only(was, c)
    ensures Only(was, d) == Only(was, c)
  {
    OnlySame(was, c, d);
    OnlyConcat([x], was, d);
  }

  /** What is chosen without the first one chosen. */
  lemma OneLess(was: seq<Node>, now: seq<Node>, i: nat, c: iset<Node>, d: iset<Node>)
    requires i <= |was| && (forall j | 0 <= j < i :: was[j] !in c) && (i < |was| ==> was[i] in c)
    requires now == (if i < |was| then Without(was, i) else was) && forall n | n in now :: n in c <==> n in d
    ensures Only(now, d) == if Only(was, c) != [] then Only(was, c)[1..] else Only(was, c)
  {
    FirstChosen(was, i, c);
    OnlySame(now, c, d);
  }

  lemma OneOther(was: seq<Node>, now: seq<Node>, i: nat, c: iset<Node>, d: iset<Node>)
    requires i <= |was| && (i < |was| ==> was[i] !in c)
    requires now == (if i < |was| then Without(was, i) else was) && forall n | n in now :: n in c <==> n in d
    ensures Only(now, d) == Only(was, c)
  {
    if i < |was| {
      OnlyWithout(was, i, c);
    }
    OnlySame(now, c, d);
  }

  lemma {:induction false} FlatOnly<T>(ss: seq<seq<T>>, tt: seq<seq<T>>, c: iset<T>)
    requires |ss| == |tt| && forall b | 0 <= b < |ss| :: tt[b] == Only(ss[b], c)
    ensures Flat(tt) == Only(Flat(ss), c)
  {
    if ss != [] {
      OnlyConcat(ss[0], Flat(ss[1..]), c);
      FlatOnly(ss[1..], tt[1..], c);
    }
  }

  lemma {:induction false} OnlyIn<T>(s: seq<T>, c: iset<T>)
    ensures forall x | x in Only(s, c) :: x in s && x in c
  {
    if s != [] {
      OnlyIn(s[1..], c);
    }
  }

  lemma OnlyEmpty<T>(s: seq<T>, c: iset<T>)
    requires Only(s, c) == []
    ensures forall x | x in s :: x !in c
  {
    forall x | x in s && x in c ensures false {
      OnlyHas(s, c, x);
    }
  }

  /** The chosen elements of the sequences from the one at `i` on. */
  function OnlyFrom<T(==)>(ss: seq<seq<T>>, i: nat, c: iset<T>): seq<T>
    requires i <= |ss|
    decreases |ss| - i
  {
    if i == |ss| then [] else Only(ss[i], c) + OnlyFrom(ss, i + 1, c)
  }

  lemma {:induction false} OnlyFromIs<T>(ss: seq<seq<T>>, i: nat, c: iset<T>)
    requires i <= |ss|
    ensures OnlyFrom(ss, i, c) == Only(Flat(ss[i..]), c)
    decreases |ss| - i
  {
    if i < |ss| {
      FlatTail(ss, i);
      OnlyConcat(ss[i], Flat(ss[i + 1..]), c);
      OnlyFromIs(ss, i + 1, c);
    }
  }

  /** Where the first of the chosen elements from `from` on is. */
  lemma {:induction false} FirstPlace<T>(s: seq<T>, from: nat, c: iset<T>) returns (q: nat)
    requires from <= |s|
    ensures from <= q <= |s| && Only(s[from..q], c) == []
    ensures if q == |s| then Only(s[from..], c) == [] else s[q] in c && Only(s[from..], c) != [] && Only(s[from..], c)[0] == s[q]
    decreases |s| - from
  {
    if from == |s| || s[from] in c {
      q := from;
    } else {
      q := FirstPlace(s, from + 1, c);
      assert s[from..][1..] == s[from + 1..] && s[from..q][1..] == s[from + 1..q];
    }
  }

  // ---------- Lists ----------

  /** MemoryLeakDetectorNode. */
  class Node {
    var memory: nat
    var size: nat
    var number: nat
    var period: Period
    var next: Node?

    constructor ()
      ensures next == null
    {
      memory, size, number, period, next := 0, 0, 0, Enabled, null;
    }

    method Init(memory: nat, number: nat, size: nat, period: Period)
      modifies this`memory, this`number, this`size, this`period
      ensures this.memory == memory && this.number == number && this.size == size && this.period == period
    {
      this.memory, this.number, this.size, this.period := memory, number, size, period;
    }
  }

  /** isInPeriod, of the period of a node. */
  predicate IsInPeriod(p: Period, period: Period) {
    period == All || p == period || (p != Disabled && period == Enabled)
  }

  /** The nodes of a period. */
  ghost function In(nodes: seq<Node>, period: Period): iset<Node>
    reads nodes
  {
    iset n | n in nodes && IsInPeriod(n.period, period)
  }

  ghost function Out(nodes: seq<Node>, period: Period): iset<Node>
    reads nodes
  {
    iset n | n in nodes && !IsInPeriod(n.period, period)
  }

  /** The first of some nodes, or null if there is none. */
  ghost predicate IsFirst(leak: Node?, leaks: seq<Node>) { leak == NodeAt(leaks, 0) }

  ghost function NodeAt(nodes: seq<Node>, i: int): Node? {
    if 0 <= i < |nodes| then nodes[i] else null
  }

  /** The nodes follow each other by their links, and the last has none. */
  ghost predicate Chained(nodes: seq<Node>)
    reads nodes
  {
    Differ(nodes) && forall i {:trigger nodes[i].next} | 0 <= i < |nodes| :: nodes[i].next == NodeAt(nodes, i + 1)
  }

  /** The node before the one at `k` passes over it. */
  ghost predicate Passed(nodes: seq<Node>, k: nat)
    reads nodes
  {
    && Differ(nodes)
    && forall j {:trigger nodes[j].next} | 0 <= j < |nodes| && j != k :: nodes[j].next == NodeAt(nodes, if j == k - 1 then k + 1 else j + 1)
  }

  lemma Closed(nodes: seq<Node>, k: nat)
    requires k < |nodes| && Passed(nodes, k)
    ensures Chained(Without(nodes, k))
  {
    var rest := Without(nodes, k);
    forall j | 0 <= j < |rest| ensures rest[j].next == NodeAt(rest, j + 1) {
      var was := if j < k then j else j + 1;
      assert nodes[was].next == NodeAt(nodes, if was == k - 1 then k + 1 else was + 1);
    }
  }

  /** The first node of a sequence of nodes with a given address, or the length. */
  ghost function FirstOf(nodes: seq<Node>, memory: nat): (i: nat)
    reads nodes
    ensures i <= |nodes| && (i < |nodes| ==> nodes[i].memory == memory) && forall j | 0 <= j < i :: nodes[j].memory != memory
  {
    if nodes == [] || nodes[0].memory == memory then 0 else FirstOf(nodes[1..], memory) + 1
  }

  ghost function Removed(nodes: seq<Node>, memory: nat): (r: seq<Node>)
    reads nodes
    ensures forall n | n in r :: n in nodes
  {
    var i := FirstOf(nodes, memory);
    if i < |nodes| then Without(nodes, i) else nodes
  }

  /** MemoryLeakDetectorList. */
  class LeakList {
    var head: Node?
    ghost var nodes: seq<Node>

    ghost predicate Valid()
      reads this, nodes
    {
      head == NodeAt(nodes, 0) && Chained(nodes)
    }

    constructor ()
      ensures Valid() && nodes == []
    {
      head, nodes := null, [];
    }

    method AddNewNode(node: Node)
      requires Valid() && node !in nodes
      modifies this, node`next
      ensures Valid() && nodes == [node] + old(nodes)
    {
      node.next := head;
      head := node;
      nodes := [node] + nodes;
    }

    /** The assignment by which a node leaves the list, with the node before it, if there is one. */
    method Unlink(cur: Node, prev: Node?, ghost k: nat)
      requires Valid() && k < |nodes| && cur == nodes[k] && prev == NodeAt(nodes, k - 1)
      modifies this, nodes`next
      ensures Valid() && nodes == Without(old(nodes), k) && (forall j | 0 <= j < k :: nodes[j] == old(nodes)[j])
      ensures forall j | 0 <= j < |nodes| :: nodes[j] in old(nodes)
    {
      if prev != null {
        prev.next := cur.next;
      } else {
        head := cur.next;
      }
      assert Passed(nodes, k);
      Closed(nodes, k);
      nodes := Without(nodes, k);
    }

    /**
    clearAllAccounting: the nodes of a period go. `k` is the place of the cursor in the list as it has become.
    */
    method ClearAllAccounting(period: Period)
      requires Valid()
      modifies this, nodes`next
      ensures Valid() && nodes == old(Only(nodes, Out(nodes, period)))
    {
      ghost var out := Out(nodes, period);
      ghost var all, k := nodes, 0;
      var cur, prev := head, null;
      while cur != null
        invariant k <= |nodes| && cur == NodeAt(nodes, k) && prev == NodeAt(nodes, k - 1)
        invariant Valid() && ClearedTo(nodes, all, out, k)
        decreases |nodes| - k
      {
        if IsInPeriod(cur.period, period) {
          ClearedMore(nodes, all, out, k);
          Unlink(cur, prev, k);
          if prev != null {
            cur, k := prev, k - 1;
          } else {
            cur := head;
            continue;
          }
        }
        prev := cur;
        cur := cur.next;
        k := k + 1;
      }
      OnlyAll(nodes, out);
    }

    /** What is left is of the nodes there were, has lost none to keep, and has only such up to `k`. */
    static ghost predicate ClearedTo(s: seq<Node>, all: seq<Node>, out: iset<Node>, k: nat) {
      && k <= |s| && (forall j | 0 <= j < |s| :: s[j] in all)
      && Only(s, out) == Only(all, out) && forall j | 0 <= j < k :: s[j] in out
    }

    static lemma ClearedMore(s: seq<Node>, all: seq<Node>, out: iset<Node>, k: nat)
      requires k < |s| && ClearedTo(s, all, out, k) && s[k] !in out
      ensures ClearedTo(Without(s, k), all, out, k)
    {
      OnlyWithout(s, k, out);
    }

    /** removeNode: the first node of an address goes. */
    method RemoveNode(memory: nat) returns (node: Node?)
      requires Valid()
      modifies this, nodes`next
      ensures Valid() && node == old(NodeAt(nodes, FirstOf(nodes, memory))) && nodes == old(Removed(nodes, memory))
    {
      ghost var k := 0;
      var cur, prev := head, null;
      while cur != null
        invariant k <= |nodes| && cur == NodeAt(nodes, k) && prev == NodeAt(nodes, k - 1)
        invariant forall j | 0 <= j < k :: nodes[j].memory != memory
        decreases |nodes| - k
      {
        if cur.memory == memory {
          assert k == FirstOf(nodes, memory);
          Unlink(cur, prev, k);
          return cur;
        }
        prev := cur;
        cur := cur.next;
        k := k + 1;
      }
      return null;
    }

    method RetrieveNode(memory: nat) returns (node: Node?)
      requires Valid()
      ensures node == NodeAt(nodes, FirstOf(nodes, memory))
    {
      ghost var k := 0;
      node := head;
      while node != null
        invariant k <= |nodes| && node == NodeAt(nodes, k)
        invariant forall j | 0 <= j < k :: nodes[j].memory != memory
        decreases |nodes| - k
      {
        if node.memory == memory {
          return;
        }
        node := node.next;
        k := k + 1;
      }
    }

    /** getLeakFrom, from the node at `from`, or from no node. */
    method GetLeakFrom(node: Node?, period: Period, ghost from: nat) returns (leak: Node?)
      requires Valid() && from <= |nodes| && node == NodeAt(nodes, from)
      ensures IsFirst(leak, Only(nodes[from..], In(nodes, period)))
    {
      ghost var k, c := from, In(nodes, period);
      leak := node;
      while leak != null
        invariant from <= k <= |nodes| && leak == NodeAt(nodes, k)
        invariant Only(nodes[from..], c) == Only(nodes[k..], c)
        decreases |nodes| - k
      {
        assert nodes[k..][1..] == nodes[k + 1..];
        if IsInPeriod(leak.period, period) {
          return;
        }
        leak := leak.next;
        k := k + 1;
      }
    }

    method GetFirstLeak(period: Period) returns (leak: Node?)
      requires Valid()
      ensures IsFirst(leak, Only(nodes, In(nodes, period)))
    {
      leak := GetLeakFrom(head, period, 0);
      assert nodes[0..] == nodes;
    }

    /** getNextLeak, after the node at `at`. */
    method GetNextLeak(node: Node, period: Period, ghost at: nat) returns (leak: Node?)
      requires Valid() && at < |nodes| && nodes[at] == node
      ensures IsFirst(leak, Only(nodes[at + 1..], In(nodes, period)))
    {
      leak := GetLeakFrom(node.next, period, at + 1);
    }

    method GetTotalLeaks(period: Period) returns (total: nat)
      requires Valid()
      ensures total == |Only(nodes, In(nodes, period))|
    {
      total := 0;
      ghost var k, c := 0, In(nodes, period);
      assert nodes[0..] == nodes;
      var node := head;
      while node != null
        invariant k <= |nodes| && node == NodeAt(nodes, k)
        invariant total + |Only(nodes[k..], c)| == |Only(nodes, c)|
        decreases |nodes| - k
      {
        assert nodes[k..][1..] == nodes[k + 1..];
        if IsInPeriod(node.period, period) {
          total := total + 1;
        }
        node := node.next;
        k := k + 1;
      }
    }
  }

  // ---------- The table ----------

  method NewLists() returns (lists: seq<LeakList>)
    ensures |lists| == HASH_PRIME && forall a, b | 0 <= a < b < |lists| :: lists[a] != lists[b]
    ensures forall b | 0 <= b < |lists| :: fresh(lists[b]) && lists[b].nodes == [] && lists[b].Valid()
  {
    lists := [];
    while |lists| < HASH_PRIME
      invariant |lists| <= HASH_PRIME && (forall a, b | 0 <= a < b < |lists| :: lists[a] != lists[b])
      invariant forall b | 0 <= b < |lists| :: fresh(lists[b]) && lists[b].nodes == [] && lists[b].Valid()
      decreases HASH_PRIME - |lists|
    {
      var one := new LeakList();
      lists := lists + [one];
    }
  }

  /** MemoryLeakDetectorTable. */
  class Table {
    const table: seq<LeakList>

    ghost function Nodes(): set<Node>
      reads table
    {
      set b, n | 0 <= b < |table| && n in table[b].nodes :: n
    }

    ghost function Buckets(): (r: seq<seq<Node>>)
      reads table
      ensures |r| == |table|
    {
      seq(|table|, b requires 0 <= b < |table| reads table => table[b].nodes)
    }

    /** All nodes, list by list. */
    ghost function Everything(): seq<Node>
      reads table
    {
      Flat(Buckets())
    }

    ghost predicate Shape() {
      |table| == HASH_PRIME && forall a, b | 0 <= a < b < |table| :: table[a] != table[b]
    }

    /** Every node is in the list that its address hashes to. */
    ghost predicate Valid()
      reads this, table, Nodes()
    {
      && Shape()
      && (forall b | 0 <= b < |table| :: assert forall n | n in table[b].nodes :: n in Nodes(); table[b].Valid())
      && (forall b, n | 0 <= b < |table| && n in table[b].nodes :: Hash(n.memory) == b)
    }

    /** The nodes of a period. */
    ghost function Leaks(period: Period): iset<Node>
      reads table, Nodes()
    {
      iset n | n in Nodes() && IsInPeriod(n.period, period)
    }

    constructor ()
      ensures Valid() && Everything() == [] && Nodes() == {}
    {
      var lists := NewLists();
      table := lists;
      new;
      FlatEmpty(Buckets());
    }

    /** A node is in the whole when it is in the list of its address. */
    lemma NodeIn(n: Node)
      requires Valid()
      ensures n in Everything() <==> n in Nodes()
      ensures n in Nodes() <==> n in table[Hash(n.memory)].nodes
    {
      InFlat(Buckets(), n);
      assert forall b | 0 <= b < |table| :: Buckets()[b] == table[b].nodes;
    }

    /** addNewNode; `m` is any address. */
    method AddNewNode(node: Node, ghost m: nat)
      requires Valid() && node !in Nodes()
      modifies table[Hash(node.memory)], node`next
      ensures Valid() && Buckets() == old(Buckets()[Hash(node.memory) := [node] + Buckets()[Hash(node.memory)]])
      ensures Stack(m) == if m == node.memory then [node] + old(Stack(m)) else old(Stack(m))
    {
      ghost var was, c := Buckets()[Hash(m)], With(m);
      forall n | n in was ensures n in Nodes() {
        assert n in table[Hash(m)].nodes;
      }
      Insert(Hash(node.memory), node);
      forall n | n in Buckets()[Hash(m)] ensures n in Nodes() {
        assert n in table[Hash(m)].nodes;
      }
      OneMore(node, was, c, With(m));
    }

    /** The new node, in its list. */
    method Insert(h: nat, node: Node)
      requires Valid() && node !in Nodes() && h == Hash(node.memory)
      modifies table[h], node`next
      ensures Valid() && Buckets() == old(Buckets()[h := [node] + Buckets()[h]])
    {
      table[h].AddNewNode(node);
      OthersKept(h);
    }

    /** The first node of the address, out of its list. */
    method Take(memory: nat) returns (node: Node?)
      requires Valid()
      modifies table[Hash(memory)], table[Hash(memory)].nodes`next
      ensures Valid() && node == old(NodeAt(Buckets()[Hash(memory)], FirstOf(Buckets()[Hash(memory)], memory)))
      ensures Buckets() == old(Buckets()[Hash(memory) := Removed(Buckets()[Hash(memory)], memory)])
    {
      node := table[Hash(memory)].RemoveNode(memory);
      OthersKept(Hash(memory));
    }

    /** removeNode; `m` is any address. */
    method RemoveNode(memory: nat, ghost m: nat) returns (node: Node?)
      requires Valid()
      modifies table[Hash(memory)], table[Hash(memory)].nodes`next
      ensures Valid() && node == old(NodeAt(Buckets()[Hash(memory)], FirstOf(Buckets()[Hash(memory)], memory)))
      ensures Buckets() == old(Buckets()[Hash(memory) := Removed(Buckets()[Hash(memory)], memory)])
      ensures node == NodeAt(old(Stack(memory)), 0)
      ensures Stack(m) == if m == memory && old(Stack(m)) != [] then old(Stack(m))[1..] else old(Stack(m))
    {
      StackStarts(memory);
      ghost var was, c, i := Buckets()[Hash(m)], With(m), FirstOf(Buckets()[Hash(m)], memory);
      forall n | n in was ensures n in Nodes() {
        assert n in table[Hash(m)].nodes;
      }
      assert i < |was| ==> was[i] in was;
      node := Take(memory);
      ghost var now := Buckets()[Hash(m)];
      forall n | n in now ensures n in Nodes() {
        assert n in table[Hash(m)].nodes;
      }
      if m == memory {
        OneLess(was, now, i, c, With(m));
      } else if Hash(m) == Hash(memory) {
        OneOther(was, now, i, c, With(m));
      } else {
        OnlySame(was, c, With(m));
      }
    }

    /** The newest node of an address is the first in its list. */
    lemma StackStarts(memory: nat)
      requires Valid()
      ensures NodeAt(Buckets()[Hash(memory)], FirstOf(Buckets()[Hash(memory)], memory)) == NodeAt(Stack(memory), 0)
    {
      var nodes := Buckets()[Hash(memory)];
      forall n | n in nodes ensures n in Nodes() {
        assert n in table[Hash(memory)].nodes;
      }
      var i := FirstOf(nodes, memory);
      assert i < |nodes| ==> nodes[i] in nodes;
      FirstChosen(nodes, FirstOf(nodes, memory), With(memory));
    }

    /** A change of one list keeps the others. */
    twostate lemma OthersKept(h: nat)
      requires old(Valid()) && h < HASH_PRIME && forall b | 0 <= b < |table| && b != h :: unchanged(table[b])
      requires forall n | n in old(Nodes()) && n !in old(table[h].nodes) :: unchanged(n)
      requires table[h].Valid() && forall n | n in table[h].nodes :: Hash(n.memory) == h
      ensures Valid() && Buckets() == old(Buckets())[h := table[h].nodes]
    {
      forall b | 0 <= b < |table| && b != h ensures table[b].Valid() && table[b].nodes == old(table[b].nodes) {
        var nodes := table[b].nodes;
        forall i | 0 <= i < |nodes| ensures unchanged(nodes[i]) {
          assert nodes[i] in old(table[b].nodes) && old(Hash(nodes[i].memory)) == b;
        }
        assert old(table[b].Valid());
      }
      forall b, n | 0 <= b < |table| && b != h && n in table[b].nodes ensures Hash(n.memory) == b {
        assert n in old(table[b].nodes) && old(Hash(n.memory)) == b && unchanged(n);
      }
      assert Buckets() == old(Buckets())[h := table[h].nodes];
    }

    method RetrieveNode(memory: nat) returns (node: Node?)
      requires Valid()
      ensures node == NodeAt(Stack(memory), 0)
    {
      node := table[Hash(memory)].RetrieveNode(memory);
      StackStarts(memory);
    }

    /** The nodes of an address, the newest first: the table as a map. */
    ghost function Stack(memory: nat): seq<Node>
      requires Shape()
      reads table, Nodes()
    {
      Only(Buckets()[Hash(memory)], With(memory))
    }

    /** The nodes of an address. */
    ghost function With(memory: nat): iset<Node>
      reads table, Nodes()
    {
      iset n | n in Nodes() && n.memory == memory
    }

    /** No other list has nodes of the address. */
    lemma StackIsAll(memory: nat)
      requires Valid()
      ensures Stack(memory) == Only(Everything(), With(memory))
    {
      var lists, h, c := Buckets(), Hash(memory), With(memory);
      FlatParts(lists, h);
      NoneIn(memory, 0, h);
      NoneIn(memory, h + 1, |lists|);
      assert lists[0..h] == lists[..h] && lists[h + 1..|lists|] == lists[h + 1..];
      OnlyConcat(Flat(lists[..h]) + lists[h], Flat(lists[h + 1..]), c);
      OnlyConcat(Flat(lists[..h]), lists[h], c);
    }

    lemma NoneIn(memory: nat, from: nat, to: nat)
      requires Valid() && from <= to <= |table| && !(from <= Hash(memory) < to)
      ensures Only(Flat(Buckets()[from..to]), With(memory)) == []
    {
      var some := Buckets()[from..to];
      forall n | n in Flat(some) ensures n !in With(memory) {
        InFlat(some, n);
        var b :| 0 <= b < |some| && n in some[b];
        assert n in table[from + b].nodes;
      }
      OnlyNone(Flat(some), With(memory));
    }

    lemma EverythingDiffers()
      requires Valid()
      ensures Differ(Everything())
    {
      forall a, b, n | 0 <= a < b < |table| && n in Buckets()[a] ensures n !in Buckets()[b] {
        assert n in table[a].nodes && Hash(n.memory) == a;
        assert Buckets()[b] == table[b].nodes;
      }
      forall b | 0 <= b < |table| ensures Differ(Buckets()[b]) {
        assert table[b].Valid();
      }
      FlatDiffers(Buckets());
    }

    /** The nodes that are not of a period. */
    ghost function Others(period: Period): iset<Node>
      reads table, Nodes()
    {
      iset n | n in Nodes() && !IsInPeriod(n.period, period)
    }

    /** clearAllAccounting: the nodes of the period go, and the others stay, in order. */
    method ClearAllAccounting(period: Period)
      requires Valid()
      modifies table, Nodes()`next
      ensures Valid() && Everything() == old(Only(Everything(), Others(period)))
    {
      ghost var out, lists, nodes := Others(period), Buckets(), Nodes();
      var i := 0;
      while i < HASH_PRIME
        invariant 0 <= i <= HASH_PRIME && Valid()
        invariant forall b | 0 <= b < |table| :: Buckets()[b] == if b < i then Only(lists[b], out) else lists[b]
        invariant forall b, n | 0 <= b < |table| && n in lists[b] :: n in nodes
        invariant forall n | n in nodes :: n in out <==> !IsInPeriod(n.period, period)
      {
        assert table[i].nodes == Buckets()[i] == lists[i];
        ClearOne(i, period, out);
        i := i + 1;
      }
      FlatOnly(lists, Buckets(), out);
    }

    /** List `b`. */
    method ClearOne(b: nat, period: Period, ghost out: iset<Node>)
      requires Valid() && b < |table| && forall n | n in table[b].nodes :: n in out <==> !IsInPeriod(n.period, period)
      modifies table[b], table[b].nodes`next
      ensures Valid() && Buckets() == old(Buckets()[b := Only(Buckets()[b], out)])
    {
      OnlySame(table[b].nodes, Out(table[b].nodes, period), out);
      OnlyIn(table[b].nodes, out);
      table[b].ClearAllAccounting(period);
      OthersKept(b);
    }

    /** What list `b` has of a period is what the table has of it there. */
    lemma LeaksOf(b: nat, period: Period, s: seq<Node>)
      requires b < |table| && forall n | n in s :: n in table[b].nodes
      ensures Only(s, In(table[b].nodes, period)) == Only(s, Leaks(period))
    {
      OnlySame(s, In(table[b].nodes, period), Leaks(period));
    }

    /** Of list `b`. */
    method TotalOf(b: nat, period: Period) returns (total: nat)
      requires Valid() && b < |table|
      ensures total == |Only(Buckets()[b], Leaks(period))|
    {
      total := table[b].GetTotalLeaks(period);
      LeaksOf(b, period, table[b].nodes);
    }

    /** Of list `b`. */
    method FirstIn(b: nat, period: Period) returns (leak: Node?)
      requires Valid() && b < |table|
      ensures IsFirst(leak, Only(Buckets()[b], Leaks(period)))
    {
      leak := table[b].GetFirstLeak(period);
      LeaksOf(b, period, table[b].nodes);
    }

    method GetTotalLeaks(period: Period) returns (total: nat)
      requires Valid()
      ensures total == |Only(Everything(), Leaks(period))|
    {
      total := 0;
      ghost var c, lists := Leaks(period), Buckets();
      OnlyFromIs(lists, 0, c);
      assert lists[0..] == lists;
      var i := 0;
      while i < HASH_PRIME
        invariant Valid() && lists == Buckets() && c == Leaks(period)
        invariant 0 <= i <= HASH_PRIME && total + |OnlyFrom(lists, i, c)| == |OnlyFrom(lists, 0, c)|
      {
        var n := TotalOf(i, period);
        total := total + n;
        i := i + 1;
      }
    }

    /** The first leak in the lists from `from` on. */
    method FirstFrom(from: nat, period: Period) returns (leak: Node?)
      requires Valid() && from <= HASH_PRIME
      ensures IsFirst(leak, OnlyFrom(Buckets(), from, Leaks(period)))
    {
      ghost var c, lists := Leaks(period), Buckets();
      var i := from;
      while i < HASH_PRIME
        invariant Valid() && lists == Buckets() && c == Leaks(period)
        invariant from <= i <= HASH_PRIME && OnlyFrom(lists, from, c) == OnlyFrom(lists, i, c)
      {
        leak := FirstIn(i, period);
        if leak != null {
          return;
        }
        i := i + 1;
      }
      leak := null;
    }

    method GetFirstLeak(period: Period) returns (leak: Node?)
      requires Valid()
      ensures IsFirst(leak, Only(Everything(), Leaks(period)))
    {
      leak := FirstFrom(0, period);
      OnlyFromIs(Buckets(), 0, Leaks(period));
      assert Buckets()[0..] == Buckets();
    }

    /** getNextLeak, after the node at `p` of all nodes, whatever the period of that one has become. */
    method GetNextLeak(leak: Node, period: Period, ghost p: nat) returns (next: Node?)
      requires Valid() && p < |Everything()| && Everything()[p] == leak
      ensures IsFirst(next, Only(Everything()[p + 1..], Leaks(period)))
    {
      var i := Hash(leak.memory);
      ghost var c, lists := Leaks(period), Buckets();
      ghost var at := PlaceOf(leak, period, p);
      next := NextIn(i, leak, period, at);
      assert lists == Buckets() && c == Leaks(period);
      ghost var here := Only(lists[i][at + 1..], c);
      assert IsFirst(next, here);
      if next == null {
        next := FirstFrom(i + 1, period);
        assert lists == Buckets() && c == Leaks(period);
        assert IsFirst(next, here + OnlyFrom(lists, i + 1, c));
      }
    }

    /** Where the node at `p` of all nodes stands in its list, and what follows it. */
    lemma PlaceOf(leak: Node, period: Period, p: nat) returns (at: nat)
      requires Valid() && p < |Everything()| && Everything()[p] == leak
      ensures Hash(leak.memory) < |table| && at < |Buckets()[Hash(leak.memory)]| && Buckets()[Hash(leak.memory)][at] == leak
      ensures Only(Everything()[p + 1..], Leaks(period))
           == Only(Buckets()[Hash(leak.memory)][at + 1..], Leaks(period)) + OnlyFrom(Buckets(), Hash(leak.memory) + 1, Leaks(period))
    {
      var b;
      b, at := Continued(Buckets(), p, Leaks(period));
      assert leak in table[b].nodes;
    }

    /** In list `b`, behind the place `at`. */
    method NextIn(b: nat, leak: Node, period: Period, ghost at: nat) returns (next: Node?)
      requires Valid() && b < |table| && at < |Buckets()[b]| && Buckets()[b][at] == leak
      ensures IsFirst(next, Only(Buckets()[b][at + 1..], Leaks(period)))
    {
      next := table[b].GetNextLeak(leak, period, at);
      LeaksOf(b, period, table[b].nodes[at + 1..]);
    }
  }

  // ---------- What the periods select ----------

  /** Theorem: All selects every node, Enabled those that are not Disabled, and the two others only their own. */
  lemma PeriodsSelect(t: Table)
    requires t.Valid()
    ensures t.Leaks(All) == iset n | n in t.Nodes()
    ensures t.Leaks(Enabled) == iset n | n in t.Nodes() && n.period != Disabled
    ensures t.Leaks(Disabled) == iset n | n in t.Nodes() && n.period == Disabled
    ensures t.Leaks(Checking) == iset n | n in t.Nodes() && n.period == Checking
    ensures forall p :: t.Others(p) == iset n | n in t.Nodes() && n !in t.Leaks(p)
  {
  }

  /** Two choices that split a sequence split its length. */
  lemma {:induction false} OnlySplits<T>(s: seq<T>, c: iset<T>, d: iset<T>)
    requires forall x | x in s :: x in c <==> x !in d
    ensures |Only(s, c)| + |Only(s, d)| == |s|
  {
    if s != [] {
      OnlySplits(s[1..], c, d);
    }
  }

  /** Theorem: All counts every node, and the totals of Enabled and of Disabled add up to that of All. */
  lemma TotalsAdd(t: Table)
    requires t.Valid()
    ensures Only(t.Everything(), t.Leaks(All)) == t.Everything()
    ensures |Only(t.Everything(), t.Leaks(Enabled))| + |Only(t.Everything(), t.Leaks(Disabled))| == |t.Everything()|
  {
    var all := t.Everything();
    forall n | n in all ensures n in t.Nodes() {
      t.NodeIn(n);
    }
    OnlyAll(all, t.Leaks(All));
    OnlySplits(all, t.Leaks(Enabled), t.Leaks(Disabled));
  }

  /** Theorem: a node is in the table exactly if it is in the list numbered by its address modulo 73. */
  lemma InItsList(t: Table, n: Node)
    requires t.Valid()
    ensures |t.table| == 73 && (n in t.Nodes() <==> n in t.table[n.memory % 73].nodes)
  {
    t.NodeIn(n);
  }

  /** The nodes that a report of a period lists. */
  lemma ReportedNodes(t: Table, period: Period, leaks: seq<Node>)
    requires t.Valid() && leaks == Only(t.Everything(), t.Leaks(period))
    ensures period == All ==> forall n :: n in leaks <==> n in t.Nodes()
    ensures period == Enabled ==> forall n :: n in leaks <==> n in t.Nodes() && n.period != Disabled
    ensures period == Disabled || period == Checking ==> forall n :: n in leaks <==> n in t.Nodes() && n.period == period
  {
    PeriodsSelect(t);
    OnlyIn(t.Everything(), t.Leaks(period));
    forall n | n in t.Leaks(period) ensures n in leaks {
      t.NodeIn(n);
      OnlyHas(t.Everything(), t.Leaks(period), n);
    }
  }

  // ---------- Clearing and marking ----------

  /** The loop of ConstructMemoryLeakReport: from the first leak to the next, until there is none. */
  method Report(t: Table, period: Period) returns (leaks: seq<Node>)
    requires t.Valid()
    ensures leaks == Only(t.Everything(), t.Leaks(period)) && Differ(leaks)
    ensures period == All ==> forall n :: n in leaks <==> n in t.Nodes()
    ensures period == Enabled ==> forall n :: n in leaks <==> n in t.Nodes() && n.period != Disabled
    ensures period == Disabled || period == Checking ==> forall n :: n in leaks <==> n in t.Nodes() && n.period == period
  {
    leaks := [];
    ghost var all, c, lists, nodes := t.Everything(), t.Leaks(period), t.Buckets(), t.Nodes();
    t.EverythingDiffers();
    OnlyDiffers(all, c);
    var leak := t.GetFirstLeak(period);
    assert Intact(t, lists, nodes) && c == t.Leaks(period);
    ghost var p := Start(all, c, leak);
    while leak != null
      invariant Intact(t, lists, nodes) && c == t.Leaks(period)
      invariant Stands(all, c, leak, p) && leaks == Only(all[..p], c)
      decreases |all| - p
    {
      leaks := leaks + [leak];
      leak, p := Advance(t, leak, period, p, all);
    }
    assert all[..p] == all;
    ReportedNodes(t, period, leaks);
  }

  function Marked(p: Period): Period { if p == Checking then Enabled else p }

  /**
  markCheckingPeriodLeaksAsNonCheckingPeriod: after it no node is of the checking period, and the enabled period, which
  takes in the checking one, has the nodes that it had.
  */
  method MarkCheckingLeaks(t: Table)
    requires t.Valid()
    modifies t.Nodes()`period
    ensures t.Valid() && t.Buckets() == old(t.Buckets())
    ensures forall n | n in t.Nodes() :: n.period == Marked(old(n.period))
    ensures t.Leaks(Checking) == iset{} && t.Leaks(Enabled) == old(t.Leaks(Enabled))
    ensures t.Leaks(Disabled) == old(t.Leaks(Disabled)) && t.Leaks(All) == old(t.Leaks(All))
  {
    ghost var all := t.Everything();
    t.EverythingDiffers();
    AllIn(t);
    MarkAll(t, all);
    forall n | n in t.Nodes() ensures n.period == Marked(old(n.period)) {
      assert n in all;
    }
    SameLeaks(t);
  }

  /** The nodes are marked up to `p`. */
  ghost predicate MarkedTo(all: seq<Node>, periods: seq<Period>, p: nat)
    reads all
  {
    p <= |all| == |periods| && forall j | 0 <= j < |all| :: all[j].period == if j < p then Marked(periods[j]) else periods[j]
  }

  /** The loop, on all nodes in their order. */
  method MarkAll(t: Table, ghost all: seq<Node>)
    requires t.Valid() && all == t.Everything() && Differ(all) && forall j | 0 <= j < |all| :: all[j] in t.Nodes()
    modifies t.Nodes()`period
    ensures Intact(t, old(t.Buckets()), old(t.Nodes()))
    ensures forall j | 0 <= j < |all| :: all[j].period == Marked(old(all[j].period))
  {
    ghost var lists, nodes := t.Buckets(), t.Nodes();
    ghost var periods := seq(|all|, j requires 0 <= j < |all| reads all => all[j].period);
    var leak := t.GetFirstLeak(Checking);
    assert Intact(t, lists, nodes);
    ghost var p := Start(all, t.Leaks(Checking), leak);
    NotChecking(t, all, 0, p);
    while leak != null
      invariant Intact(t, lists, nodes) && leak == NodeAt(all, p)
      invariant MarkedTo(all, periods, p)
      decreases |all| - p
    {
      leak, p := MarkOne(t, leak, p, all, periods);
    }
  }

  /** Marking changes the nodes of the checking period only. */
  twostate lemma SameLeaks(t: Table)
    requires old(t.Nodes()) == t.Nodes() && forall n | n in t.Nodes() :: n.period == Marked(old(n.period))
    ensures t.Leaks(Checking) == iset{} && t.Leaks(Enabled) == old(t.Leaks(Enabled))
    ensures t.Leaks(Disabled) == old(t.Leaks(Disabled)) && t.Leaks(All) == old(t.Leaks(All))
  {
  }

  /** The lists are as they were. */
  ghost predicate Intact(t: Table, lists: seq<seq<Node>>, nodes: set<Node>)
    reads t, t.table, t.Nodes()
  {
    t.Valid() && lists == t.Buckets() && nodes == t.Nodes()
  }

  /** One turn of the loop: the leak is marked, and the next one found. */
  method MarkOne(t: Table, leak: Node, ghost p: nat, ghost all: seq<Node>, ghost periods: seq<Period>)
      returns (next: Node?, ghost q: nat)
    requires t.Valid() && all == t.Everything() && p < |all| && all[p] == leak && Differ(all) && MarkedTo(all, periods, p)
    modifies leak`period
    ensures Intact(t, old(t.Buckets()), old(t.Nodes()))
    ensures p < q && q <= |all| && next == NodeAt(all, q) && MarkedTo(all, periods, q)
  {
    SetMarked(t, leak, p, all);
    AllIn(t);
    next, q := Advance(t, leak, Checking, p, all);
    NotChecking(t, all, p + 1, q);
  }

  /** The assignment of the loop. */
  method SetMarked(t: Table, leak: Node, ghost p: nat, ghost all: seq<Node>)
    requires t.Valid() && p < |all| && all[p] == leak && Differ(all)
    modifies leak`period
    ensures Intact(t, old(t.Buckets()), old(t.Nodes()))
    ensures forall j | 0 <= j < |all| :: all[j].period == if j == p then Marked(old(all[j].period)) else old(all[j].period)
  {
    if leak.period == Checking {
      leak.period := Enabled;
    }
  }

  /** From the leak at `p` to the next. */
  method Advance(t: Table, leak: Node, period: Period, ghost p: nat, ghost all: seq<Node>) returns (next: Node?, ghost q: nat)
    requires t.Valid() && all == t.Everything() && p < |all| && all[p] == leak
    ensures Intact(t, old(t.Buckets()), old(t.Nodes())) && t.Leaks(period) == old(t.Leaks(period))
    ensures p < q && Stands(all, t.Leaks(period), next, q) && Only(all[p + 1..q], t.Leaks(period)) == []
    ensures leak in t.Leaks(period) ==> Only(all[..q], t.Leaks(period)) == Only(all[..p], t.Leaks(period)) + [leak]
  {
    ghost var lists, nodes, c := t.Buckets(), t.Nodes(), t.Leaks(period);
    next := t.GetNextLeak(leak, period, p);
    assert Intact(t, lists, nodes) && c == t.Leaks(period);
    q := Next(all, c, p, next);
  }

  lemma AllIn(t: Table)
    requires t.Valid()
    ensures forall j | 0 <= j < |t.Everything()| :: t.Everything()[j] in t.Nodes()
    ensures forall n | n in t.Nodes() :: n in t.Everything()
  {
    var all := t.Everything();
    forall j | 0 <= j < |all| ensures all[j] in t.Nodes() {
      assert all[j] in all;
      t.NodeIn(all[j]);
    }
    forall n | n in t.Nodes() ensures n in all {
      t.NodeIn(n);
    }
  }

  lemma NotChecking(t: Table, s: seq<Node>, from: nat, to: nat)
    requires from <= to <= |s| && Only(s[from..to], t.Leaks(Checking)) == [] && forall j | 0 <= j < |s| :: s[j] in t.Nodes()
    ensures forall j | from <= j < to :: s[j].period != Checking
  {
    OnlyEmpty(s[from..to], t.Leaks(Checking));
    forall j | from <= j < to ensures s[j].period != Checking {
      assert s[from..to][j - from] == s[j] && s[j] in s[from..to];
    }
  }

  /** The enumeration stands at the chosen node at `p`, or behind the last. */
  ghost predicate Stands(s: seq<Node>, c: iset<Node>, leak: Node?, p: nat) {
    p <= |s| && leak == NodeAt(s, p) && (p < |s| ==> s[p] in c)
  }

  lemma Start(s: seq<Node>, c: iset<Node>, leak: Node?) returns (p: nat)
    requires IsFirst(leak, Only(s, c))
    ensures Stands(s, c, leak, p) && Only(s[..p], c) == [] && Only(s[0..p], c) == []
  {
    assert s[0..] == s;
    p := FirstPlace(s, 0, c);
    assert s[0..p] == s[..p];
  }

  lemma Next(s: seq<Node>, c: iset<Node>, p: nat, leak: Node?) returns (q: nat)
    requires p < |s| && IsFirst(leak, Only(s[p + 1..], c))
    ensures p < q && Stands(s, c, leak, q) && Only(s[p + 1..q], c) == []
    ensures s[p] in c ==> Only(s[..q], c) == Only(s[..p], c) + [s[p]]
  {
    q := FirstPlace(s, p + 1, c);
    OnlyParts(s, p + 1, q, c);
    if s[p] in c {
      OnlyNext(s, p, c);
    }
  }

  lemma OnlyParts<T>(s: seq<T>, from: nat, q: nat, c: iset<T>)
    requires from <= q <= |s| && Only(s[from..q], c) == []
    ensures Only(s[..q], c) == Only(s[..from], c)
  {
    assert s[..q] == s[..from] + s[from..q];
    OnlyConcat(s[..from], s[from..q], c);
  }

  lemma OnlyNext<T>(s: seq<T>, p: nat, c: iset<T>)
    requires p < |s| && s[p] in c
    ensures Only(s[..p + 1], c) == Only(s[..p], c) + [s[p]]
  {
    assert s[..p + 1] == s[..p] + [s[p]];
    OnlyConcat(s[..p], [s[p]], c);
  }

  // ---------- The detector ----------

  /** The parts of MemoryLeakDetector that keep the accounts. */
  class Detector {
    const memoryTable: Table
    var currentPeriod: Period
    var allocationNumber: nat

    constructor ()
      ensures memoryTable.Valid() && memoryTable.Nodes() == {} && currentPeriod == Disabled && allocationNumber == 1
    {
      memoryTable := new Table();
      currentPeriod, allocationNumber := Disabled, 1;
    }

    /** startChecking, stopChecking, enable and disable set the period of the nodes to come. */
    method StartChecking()
      modifies this`currentPeriod
      ensures currentPeriod == Checking
    {
      currentPeriod := Checking;
    }

    method StopChecking()
      modifies this`currentPeriod
      ensures currentPeriod == Enabled
    {
      currentPeriod := Enabled;
    }

    /** storeLeakInformation: a node for new memory; `m` is any address. */
    method StoreLeakInformation(node: Node, memory: nat, size: nat, ghost m: nat)
      requires memoryTable.Valid() && node !in memoryTable.Nodes()
      modifies this`allocationNumber, node, memoryTable.table[Hash(memory)]
      ensures memoryTable.Valid() && allocationNumber == old(allocationNumber) + 1
      ensures node.memory == memory && node.size == size && node.period == currentPeriod && node.number == old(allocationNumber)
      ensures memoryTable.Stack(m) == if m == memory then [node] + old(memoryTable.Stack(m)) else old(memoryTable.Stack(m))
    {
      ghost var was, nodes := memoryTable.Stack(m), memoryTable.Nodes();
      node.Init(memory, allocationNumber, size, currentPeriod);
      assert memoryTable.Valid() && nodes == memoryTable.Nodes() && was == memoryTable.Stack(m);
      allocationNumber := allocationNumber + 1;
      memoryTable.AddNewNode(node, m);
    }
  }
}
