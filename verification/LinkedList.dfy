/**
The doubly linked list of utils/list: a handle is the variable of type t_list* that the functions are given the address
of, and is NULL when the list is empty. Data may be NULL.
*/
module LinkedList {
  import opened Common

  datatype Pointer<+D> = Null | To(data: D)

  // ---------- What the functions do to the data in a list ----------

  /** The first element that matches, or the length. */
  function FirstMatch<D>(s: seq<Pointer<D>>, m: Pointer<D> -> bool): (i: nat)
    ensures i <= |s| && (i < |s| ==> m(s[i])) && forall k | 0 <= k < i :: !m(s[k])
  {
    if s == [] || m(s[0]) then 0 else FirstMatch(s[1..], m) + 1
  }

  lemma FirstMatchIs<D>(s: seq<Pointer<D>>, m: Pointer<D> -> bool, i: nat)
    requires i <= |s| && (i < |s| ==> m(s[i])) && forall k | 0 <= k < i :: !m(s[k])
    ensures FirstMatch(s, m) == i
  {
  }

  /** del_all_node_as: matches go one at a time, until there is none, or the data of one is NULL. */
  function DeletedAll<D>(s: seq<Pointer<D>>, m: Pointer<D> -> bool): seq<Pointer<D>>
    decreases |s|
  {
    var i := FirstMatch(s, m);
    if i == |s| then s
    else if s[i].Null? then Without(s, i)
    else DeletedAll(Without(s, i), m)
  }

  function Keep<D>(s: seq<Pointer<D>>, m: Pointer<D> -> bool): seq<Pointer<D>> {
    if s == [] then [] else (if m(s[0]) then [] else [s[0]]) + Keep(s[1..], m)
  }

  lemma {:induction false} KeepConcat<D>(a: seq<Pointer<D>>, b: seq<Pointer<D>>, m: Pointer<D> -> bool)
    ensures Keep(a + b, m) == Keep(a, m) + Keep(b, m)
  {
    if a == [] {
      assert a + b == b;
    } else {
      assert (a + b)[1..] == a[1..] + b;
      KeepConcat(a[1..], b, m);
    }
  }

  lemma {:induction false} KeepAll<D>(s: seq<Pointer<D>>, m: Pointer<D> -> bool)
    ensures |Keep(s, m)| <= |s|
    ensures (forall k | 0 <= k < |s| :: !m(s[k])) <==> |Keep(s, m)| == |s|
    ensures (forall k | 0 <= k < |s| :: !m(s[k])) ==> Keep(s, m) == s
  {
    if s != [] {
      KeepAll(s[1..], m);
      assert forall k | 1 <= k < |s| :: s[k] == s[1..][k - 1];
      assert s == [s[0]] + s[1..];
    }
  }

  /** The match at which deleting stops: the first with no data, or the length. */
  function FirstNull<D>(s: seq<Pointer<D>>, m: Pointer<D> -> bool): (i: nat)
    ensures i <= |s| && (i < |s| ==> s[i].Null? && m(s[i])) && forall k | 0 <= k < i :: s[k].Null? ==> !m(s[k])
  {
    if s == [] || (s[0].Null? && m(s[0])) then 0 else FirstNull(s[1..], m) + 1
  }

  /** The data that del_all_node_as hands to its destructor. */
  function Destroyed<D>(s: seq<Pointer<D>>, m: Pointer<D> -> bool): seq<D>
    decreases |s|
  {
    var i := FirstMatch(s, m);
    if i == |s| || s[i].Null? then [] else [s[i].data] + Destroyed(Without(s, i), m)
  }

  /** The data of the matches. */
  function Matches<D>(s: seq<Pointer<D>>, m: Pointer<D> -> bool): seq<D> {
    if s == [] then [] else (if m(s[0]) && s[0].To? then [s[0].data] else []) + Matches(s[1..], m)
  }

  lemma {:induction false} MatchesConcat<D>(a: seq<Pointer<D>>, b: seq<Pointer<D>>, m: Pointer<D> -> bool)
    ensures Matches(a + b, m) == Matches(a, m) + Matches(b, m)
  {
    if a == [] {
      assert a + b == b;
    } else {
      assert (a + b)[1..] == a[1..] + b;
      MatchesConcat(a[1..], b, m);
    }
  }

  lemma {:induction false} NoMatches<D>(s: seq<Pointer<D>>, m: Pointer<D> -> bool)
    requires forall k | 0 <= k < |s| :: !m(s[k])
    ensures Matches(s, m) == []
  {
    if s != [] {
      assert !m(s[0]);
      NoMatches(s[1..], m);
    }
  }

  /** One turn of the loop of del_all_node_as. */
  lemma OneTaken<D>(s: seq<Pointer<D>>, m: Pointer<D> -> bool, data: Pointer<D>, next: seq<Pointer<D>>)
    requires var i := FirstMatch(s, m);
      if i < |s| then data == s[i] && next == Without(s, i) else data == Null && next == s
    ensures DeletedAll(s, m) == if data.To? then DeletedAll(next, m) else next
    ensures Destroyed(s, m) == if data.To? then [data.data] + Destroyed(next, m) else []
    ensures data.To? ==> |next| < |s|
  {
  }

  /** After one deletion of a match with data the place where deleting stops is one nearer. */
  lemma {:induction false} NullMoves<D>(s: seq<Pointer<D>>, m: Pointer<D> -> bool, i: nat, k: nat)
    requires i == FirstMatch(s, m) < |s| && s[i].To? && k == FirstNull(s, m)
    ensures i < k && FirstNull(Without(s, i), m) == k - 1
    decreases i
  {
    if i == 0 {
      assert Without(s, 0) == s[1..];
    } else {
      NullMoves(s[1..], m, i - 1, k - 1);
      var rest := Without(s[1..], i - 1);
      assert Without(s, i) == [s[0]] + rest && ([s[0]] + rest)[1..] == rest;
      assert !m(s[0]);
    }
  }

  lemma Parts<T>(s: seq<T>, i: nat, k: nat)
    requires i < k <= |s|
    ensures s[..k] == s[..i] + [s[i]] + s[i + 1..k] && Without(s, i)[..k - 1] == s[..i] + s[i + 1..k]
    ensures k < |s| ==> Without(s, i)[k..] == s[k + 1..]
  {
  }

  lemma KeepLess<D>(a: seq<Pointer<D>>, p: Pointer<D>, b: seq<Pointer<D>>, m: Pointer<D> -> bool)
    requires m(p)
    ensures Keep(a + [p] + b, m) == Keep(a + b, m)
  {
    KeepConcat(a + [p], b, m);
    KeepConcat(a, [p], m);
    KeepConcat(a, b, m);
    assert Keep([p], m) == [];
  }

  lemma MatchesLess<D>(a: seq<Pointer<D>>, p: Pointer<D>, b: seq<Pointer<D>>, m: Pointer<D> -> bool)
    requires m(p) && p.To? && forall k | 0 <= k < |a| :: !m(a[k])
    ensures Matches(a + [p] + b, m) == [p.data] + Matches(a + b, m)
  {
    MatchesConcat(a + [p], b, m);
    MatchesConcat(a, [p], m);
    MatchesConcat(a, b, m);
    NoMatches(a, m);
    assert Matches([p], m) == [p.data];
  }

  /**
  Theorem: up to the first match without data exactly the elements that do not match are left, in order; that match goes,
  and everything behind it stays. The destructor gets the data of the matches, in order.
  */
  lemma {:induction false} DeletedAllIs<D>(s: seq<Pointer<D>>, m: Pointer<D> -> bool)
    ensures var k := FirstNull(s, m);
      && DeletedAll(s, m) == Keep(s[..k], m) + (if k == |s| then [] else s[k + 1..])
      && Destroyed(s, m) == Matches(s[..k], m)
    decreases |s|
  {
    var i, k := FirstMatch(s, m), FirstNull(s, m);
    if i == |s| {
      assert s[..k] == s;
      KeepAll(s, m);
      NoMatches(s, m);
    } else if s[i].Null? {
      assert k == i;
      KeepAll(s[..i], m);
      NoMatches(s[..i], m);
    } else {
      NullMoves(s, m, i, k);
      Parts(s, i, k);
      KeepLess(s[..i], s[i], s[i + 1..k], m);
      MatchesLess(s[..i], s[i], s[i + 1..k], m);
      DeletedAllIs(Without(s, i), m);
    }
  }

  /** Theorem: all matches are deleted exactly when none follows a match without data. */
  lemma DeletesAllMatches<D>(s: seq<Pointer<D>>, m: Pointer<D> -> bool)
    ensures DeletedAll(s, m) == Keep(s, m) <==> forall j | FirstNull(s, m) < j < |s| :: !m(s[j])
  {
    DeletedAllIs(s, m);
    var k := FirstNull(s, m);
    if k < |s| {
      KeepSplit(s, m, k);
      KeepAll(s[k + 1..], m);
      assert forall j | k < j < |s| :: s[j] == s[k + 1..][j - k - 1];
    } else {
      assert s[..k] == s;
    }
  }

  lemma KeepSplit<D>(s: seq<Pointer<D>>, m: Pointer<D> -> bool, k: nat)
    requires k < |s| && m(s[k])
    ensures Keep(s, m) == Keep(s[..k], m) + Keep(s[k + 1..], m)
  {
    var a, b := s[..k], s[k + 1..];
    assert s == a + [s[k]] + b;
    KeepLess(a, s[k], b, m);
    KeepConcat(a, b, m);
  }

  // ---------- The list ----------

  /** t_node. */
  class Node<D> {
    var data: Pointer<D>
    var next: Node?<D>
    var prev: Node?<D>

    /** new_node. */
    constructor (data: Pointer<D>)
      ensures this.data == data && next == null && prev == null
    {
      this.data, next, prev := data, null, null;
    }
  }

  /** t_list. */
  class List<D> {
    var begin: Node?<D>
    var end: Node?<D>
    var cur: Node?<D>
    var len: nat

    constructor (node: Node<D>)
      ensures begin == node && end == node && cur == null && len == 1
    {
      begin, end, cur, len := node, node, null, 1;
    }
  }

  ghost predicate AllDiffer<D>(nodes: seq<Node<D>>) {
    forall i, j | 0 <= i < j < |nodes| :: nodes[i] != nodes[j]
  }

  ghost function NodeAt<D>(nodes: seq<Node<D>>, i: int): Node?<D> {
    if 0 <= i < |nodes| then nodes[i] else null
  }

  /** The nodes are linked in both directions in their order. */
  ghost predicate Linked<D>(nodes: seq<Node<D>>)
    reads nodes
  {
    && AllDiffer(nodes)
    && (forall i {:trigger nodes[i].prev} | 0 <= i < |nodes| :: nodes[i].prev == NodeAt(nodes, i - 1))
    && (forall i {:trigger nodes[i].next} | 0 <= i < |nodes| :: nodes[i].next == NodeAt(nodes, i + 1))
  }

  /** The nodes around the one at `i` pass over it. */
  ghost predicate Passed<D>(nodes: seq<Node<D>>, i: nat)
    requires i < |nodes|
    reads nodes
  {
    && AllDiffer(nodes)
    && (forall j {:trigger nodes[j].prev} | 0 <= j < |nodes| && j != i :: nodes[j].prev == NodeAt(nodes, if j == i + 1 then i - 1 else j - 1))
    && (forall j {:trigger nodes[j].next} | 0 <= j < |nodes| && j != i :: nodes[j].next == NodeAt(nodes, if j == i - 1 then i + 1 else j + 1))
  }

  lemma Closed<D>(nodes: seq<Node<D>>, i: nat)
    requires i < |nodes| && Passed(nodes, i)
    ensures Linked(Without(nodes, i))
  {
    var rest := Without(nodes, i);
    forall j | 0 <= j < |rest| ensures rest[j].prev == NodeAt(rest, j - 1) && rest[j].next == NodeAt(rest, j + 1) {
      OneClosed(nodes, i, j);
    }
    StillDiffer(nodes, i);
  }

  lemma StillDiffer<D>(nodes: seq<Node<D>>, i: nat)
    requires i < |nodes| && AllDiffer(nodes)
    ensures AllDiffer(Without(nodes, i))
  {
  }

  lemma OneClosed<D>(nodes: seq<Node<D>>, i: nat, j: nat)
    requires i < |nodes| && Passed(nodes, i) && j < |nodes| - 1
    ensures var rest := Without(nodes, i);
      rest[j].prev == NodeAt(rest, j - 1) && rest[j].next == NodeAt(rest, j + 1)
  {
    var rest, was := Without(nodes, i), if j < i then j else j + 1;
    assert rest[j] == nodes[was];
    assert nodes[was].prev == NodeAt(nodes, if was == i + 1 then i - 1 else was - 1);
    assert nodes[was].next == NodeAt(nodes, if was == i - 1 then i + 1 else was + 1);
  }

  ghost function DataOf<D>(nodes: seq<Node<D>>): (r: seq<Pointer<D>>)
    reads nodes
    ensures |r| == |nodes| && forall k | 0 <= k < |nodes| :: r[k] == nodes[k].data
  {
    seq(|nodes|, k requires 0 <= k < |nodes| reads nodes => nodes[k].data)
  }

  lemma DataWithout<D>(nodes: seq<Node<D>>, i: nat)
    requires i < |nodes|
    ensures DataOf(Without(nodes, i)) == Without(DataOf(nodes), i)
  {
  }

  class Handle<D> {
    var list: List?<D>
    ghost var nodes: seq<Node<D>>

    ghost predicate Valid()
      reads this, list, nodes
    {
      && (list == null <==> nodes == [])
      && (list != null ==> list.begin == NodeAt(nodes, 0) && list.end == NodeAt(nodes, |nodes| - 1) && list.len == |nodes|)
      && Linked(nodes)
    }

    ghost function Contents(): seq<Pointer<D>>
      reads this, nodes
    {
      DataOf(nodes)
    }

    constructor ()
      ensures Valid() && Contents() == []
    {
      list, nodes := null, [];
    }

    /** put_in_list. */
    method PutInList(data: Pointer<D>)
      requires Valid()
      modifies this, list, nodes
      ensures Valid() && Contents() == old(Contents()) + [data]
      ensures |nodes| == |old(nodes)| + 1 && nodes[..|old(nodes)|] == old(nodes) && fresh(nodes[|old(nodes)|])
    {
      var node := new Node(data);
      if list == null {
        list := new List(node);
        nodes := [node];
        return;
      }
      assert list.end == nodes[|nodes| - 1] && node !in nodes;
      list.end.next := node;
      node.prev := list.end;
      list.end := node;
      list.len := list.len + 1;
      nodes := nodes + [node];
    }

    /** del_node, of the node at `i`, which the list has. */
    method DelNode(node: Node?<D>, ghost i: nat) returns (data: Pointer<D>)
      requires Valid() && (node != null && list != null ==> i < |nodes| && nodes[i] == node)
      modifies this, list, nodes
      ensures Valid() && (list == null || list == old(list))
      ensures node == null || old(list) == null ==> data == Null && nodes == old(nodes) && Contents() == old(Contents())
      ensures node != null && old(list) != null ==>
        data == old(Contents()[i]) && nodes == Without(old(nodes), i) && Contents() == Without(old(Contents()), i)
    {
      if list == null || node == null {
        return Null;
      }
      Unlink(node, i);
      data := node.data;
      list.len := list.len - 1;
      if list.len == 0 {
        list := null;
      }
    }

    /** The node leaves the list. */
    method Unlink(node: Node<D>, ghost i: nat)
      requires Valid() && list != null && i < |nodes| && nodes[i] == node
      modifies this`nodes, list`begin, list`end, nodes
      ensures Linked(nodes) && nodes == Without(old(nodes), i) && Contents() == Without(old(Contents()), i)
      ensures list.begin == NodeAt(nodes, 0) && list.end == NodeAt(nodes, |nodes| - 1) && node.data == old(node.data)
    {
      ghost var all, contents := nodes, Contents();
      Relink(node, i);
      assert DataOf(all) == contents;
      Closed(all, i);
      DataWithout(all, i);
      nodes := Without(all, i);
    }

    /** The part of del_node that relinks the neighbours. */
    method Relink(node: Node<D>, ghost i: nat)
      requires Valid() && list != null && i < |nodes| && nodes[i] == node
      modifies list`begin, list`end, nodes
      ensures Passed(nodes, i) && forall j | 0 <= j < |nodes| :: nodes[j].data == old(nodes[j].data)
      ensures list.begin == (if i == 0 then NodeAt(nodes, 1) else nodes[0])
      ensures list.end == (if i == |nodes| - 1 then NodeAt(nodes, i - 1) else nodes[|nodes| - 1])
    {
      ghost var before, after := node.prev, node.next;
      assert before == NodeAt(nodes, i - 1) && after == NodeAt(nodes, i + 1);
      if node.prev != null {
        node.prev.next := node.next;
      } else {
        list.begin := node.next;
      }
      if node.next != null {
        node.next.prev := node.prev;
      } else {
        list.end := node.prev;
      }
    }

    /** get_data_at. */
    method GetDataAt(pos: nat) returns (data: Pointer<D>)
      requires Valid()
      modifies list
      ensures Valid() && nodes == old(nodes) && Contents() == old(Contents())
      ensures data == if pos < |Contents()| then Contents()[pos] else Null
    {
      if list == null || list.len <= pos {
        return Null;
      }
      list.cur := list.begin;
      var i := 0;
      while list.cur != null && i < pos
        invariant 0 <= i <= pos && list.cur == NodeAt(nodes, i) && Valid()
      {
        list.cur := list.cur.next;
        i := i + 1;
      }
      data := list.cur.data;
    }

    /** del_node_as: the first element that matches goes. */
    method DelNodeAs(m: Pointer<D> -> bool) returns (data: Pointer<D>)
      requires Valid()
      modifies this, list, nodes
      ensures Valid() && (list == null || list == old(list))
      ensures forall j | 0 <= j < |nodes| :: nodes[j] in old(nodes)
      ensures var was, i := old(Contents()), FirstMatch(old(Contents()), m);
        if i < |was| then data == was[i] && nodes == Without(old(nodes), i) && Contents() == Without(was, i)
        else data == Null && nodes == old(nodes) && Contents() == was
    {
      if list == null {
        return Null;
      }
      ghost var i := Scan(m);
      if list.cur == null {
        return Null;
      }
      data := DelNode(list.cur, i);
    }

    /** The loop of del_node_as: the cursor goes to the first element that matches, or past the end. */
    method Scan(m: Pointer<D> -> bool) returns (ghost i: nat)
      requires Valid() && list != null
      modifies list`cur
      ensures Valid() && i == FirstMatch(Contents(), m) && Contents() == old(Contents()) && list.cur == NodeAt(nodes, i)
    {
      list.cur := list.begin;
      i := 0;
      ghost var s := Contents();
      while list.cur != null
        invariant i <= |nodes| && list.cur == NodeAt(nodes, i)
        invariant forall k | 0 <= k < i :: !m(s[k])
        decreases |nodes| - i
      {
        assert list.cur.data == s[i];
        if m(list.cur.data) {
          FirstMatchIs(s, m, i);
          return;
        }
        list.cur := list.cur.next;
        i := i + 1;
      }
      FirstMatchIs(s, m, i);
    }

    /**
    del_all_node_as: the data that the destructor is called with is `destroyed`. Data is taken off while there is any, so
    that a match whose data is NULL ends the loop.
    */
    method DelAllNodeAs(m: Pointer<D> -> bool) returns (destroyed: seq<D>)
      requires Valid()
      modifies this, list, nodes
      ensures Valid() && Contents() == DeletedAll(old(Contents()), m) && destroyed == Destroyed(old(Contents()), m)
      ensures list == null <==> Contents() == []
    {
      destroyed := [];
      ghost var was, all, whole := Contents(), nodes, list;
      var data := TakeOne(m);
      while data.To?
        invariant Valid() && (list == null || list == whole) && forall j | 0 <= j < |nodes| :: nodes[j] in all
        invariant Progress(was, m, destroyed, data)
        decreases |nodes| + (if data.To? then 1 else 0)
      {
        destroyed, data := TakeNext(was, m, destroyed, data.data);
      }
    }

    /** What is still to be done for `was`, when `destroyed` is done and `data` has been taken off. */
    ghost predicate Progress(was: seq<Pointer<D>>, m: Pointer<D> -> bool, destroyed: seq<D>, data: Pointer<D>)
      reads this, nodes
    {
      && DeletedAll(was, m) == (if data.To? then DeletedAll(Contents(), m) else Contents())
      && Destroyed(was, m) == destroyed + (if data.To? then [data.data] + Destroyed(Contents(), m) else [])
    }

    /** The destructor is called for the data taken off, and the next taken off. */
    method TakeNext(ghost was: seq<Pointer<D>>, m: Pointer<D> -> bool, destroyed: seq<D>, data: D) returns (more: seq<D>, next: Pointer<D>)
      requires Valid() && Progress(was, m, destroyed, To(data))
      modifies this, list, nodes
      ensures Valid() && (list == null || list == old(list)) && forall j | 0 <= j < |nodes| :: nodes[j] in old(nodes)
      ensures Progress(was, m, more, next) && |nodes| + (if next.To? then 1 else 0) <= |old(nodes)|
    {
      Regrouped(destroyed, [data], Destroyed(Contents(), m));
      more := destroyed + [data];
      next := TakeOne(m);
    }

    /** One turn of the loop of del_all_node_as. */
    method TakeOne(m: Pointer<D> -> bool) returns (data: Pointer<D>)
      requires Valid()
      modifies this, list, nodes
      ensures Valid() && (list == null || list == old(list)) && forall j | 0 <= j < |nodes| :: nodes[j] in old(nodes)
      ensures DeletedAll(old(Contents()), m) == if data.To? then DeletedAll(Contents(), m) else Contents()
      ensures Destroyed(old(Contents()), m) == if data.To? then [data.data] + Destroyed(Contents(), m) else []
      ensures |nodes| + (if data.To? then 1 else 0) <= |old(nodes)|
    {
      ghost var was := Contents();
      data := DelNodeAs(m);
      OneTaken(was, m, data, Contents());
    }
  }
}
