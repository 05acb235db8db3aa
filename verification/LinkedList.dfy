// The intrusive doubly linked list of src/utils/linked_list.rs.  The list owns no memory: it
// rewrites the `prev` and `next` pointers of nodes it is handed.  A ghost sequence gives the
// nodes from head to tail, and every operation is a plain operation on that sequence.
module LinkedList {
  import opened Sequences

  class Node<T> {
    var prev: Node?<T>
    var next: Node?<T>
    const value: T

    constructor (value: T)
      ensures this.value == value && Clean()
    {
      this.value := value;
      prev, next := null, null;
    }

    ghost predicate Clean()
      reads this
    {
      prev == null && next == null
    }
  }

  ghost predicate Distinct<T>(s: seq<T>) {
    forall i, j :: 0 <= i < j < |s| ==> s[i] != s[j]
  }

  // Each node points to its neighbours, in both directions.
  ghost predicate Linked<T>(s: seq<Node<T>>)
    reads s
  {
    && (forall i {:trigger s[i].prev} :: 0 <= i < |s| ==> s[i].prev == if i == 0 then null else s[i - 1])
    && (forall i {:trigger s[i].next} :: 0 <= i < |s| ==> s[i].next == if i == |s| - 1 then null else s[i + 1])
  }

  // The `next` pointers, and the `prev` pointers, of a list in which the node at `k` is bypassed.
  ghost predicate NextBypassed<T>(s: seq<Node<T>>, k: nat)
    requires k < |s|
    reads s
  {
    forall i {:trigger s[i].next} :: 0 <= i < |s| && i != k ==>
      s[i].next == if i == k - 1 then (if k == |s| - 1 then null else s[k + 1])
                   else if i == |s| - 1 then null else s[i + 1]
  }

  ghost predicate PrevBypassed<T>(s: seq<Node<T>>, k: nat)
    requires k < |s|
    reads s
  {
    forall i {:trigger s[i].prev} :: 0 <= i < |s| && i != k ==>
      s[i].prev == if i == k + 1 then (if k == 0 then null else s[k - 1]) else if i == 0 then null else s[i - 1]
  }

  lemma BypassedIsLinked<T>(s: seq<Node<T>>, k: nat)
    requires Distinct(s) && k < |s| && NextBypassed(s, k) && PrevBypassed(s, k)
    ensures var r := s[..k] + s[k + 1..]; Distinct(r) && Linked(r)
  {
    var r := s[..k] + s[k + 1..];
    assert forall i :: 0 <= i < |r| ==> r[i] == s[if i < k then i else i + 1];
  }

  ghost predicate Among<T>(s: seq<T>, region: set<T>) {
    forall i :: 0 <= i < |s| ==> s[i] in region
  }

  ghost function Elements<T>(s: seq<T>): (region: set<T>)
    ensures Among(s, region) && forall x :: x in region ==> x in s
  {
    set x | x in s
  }

  // Position of the first occurrence; the length if there is none.
  ghost function IndexOf<T>(s: seq<T>, x: T): (k: nat)
    ensures k <= |s| && (k < |s| <==> x in s)
    ensures k < |s| ==> s[k] == x
  {
    if |s| == 0 then 0 else if s[0] == x then 0 else 1 + IndexOf(s[1..], x)
  }

  ghost function Without<T>(s: seq<T>, x: T): seq<T> {
    var k := IndexOf(s, x);
    if k < |s| then s[..k] + s[k + 1..] else s
  }

  class LinkedList<T> {
    var head: Node?<T>
    var tail: Node?<T>
    ghost var nodes: seq<Node<T>>

    ghost predicate Valid()
      reads this, nodes
    {
      && Distinct(nodes)
      && Linked(nodes)
      && head == (if nodes == [] then null else nodes[0])
      && tail == (if nodes == [] then null else nodes[|nodes| - 1])
    }

    constructor ()
      ensures Valid() && nodes == []
    {
      head, tail := null, null;
      nodes := [];
    }

    method PushFront(node: Node<T>)
      requires Valid() && node !in nodes
      modifies this, nodes, node
      ensures Valid() && nodes == [node] + old(nodes)
    {
      assert head != node;
      node.next := head;
      node.prev := null;
      if head != null {
        head.prev := node;
      }
      head := node;
      if tail == null {
        tail := node;
      }
      nodes := [node] + nodes;
    }

    method PopBack() returns (last: Node?<T>)
      requires Valid()
      modifies this, nodes
      ensures Valid()
      ensures old(nodes) == [] ==> last == null && nodes == []
      ensures old(nodes) != [] ==> last != null && last.Clean() && nodes + [last] == old(nodes)
    {
      last := tail;
      if last == null {
        return;
      }
      tail := last.prev;
      if last.prev != null {
        last.prev.next := null;
      } else {
        head := null;
      }
      last.prev := null;
      last.next := null;
      nodes := nodes[..|nodes| - 1];
    }

    predicate IsEmpty()
      requires Valid()
      reads this, nodes
      ensures IsEmpty() <==> nodes == []
    {
      head == null
    }

    function Last(): (last: Node?<T>)
      requires Valid()
      reads this, nodes
      ensures nodes == [] ==> last == null
      ensures nodes != [] ==> last == nodes[|nodes| - 1]
    {
      tail
    }

    // The caller promises that the node is in this list or in no list at all.
    method Remove(node: Node<T>) returns (removed: Node?<T>)
      requires Valid()
      requires node in nodes || node.Clean()
      modifies this, nodes, node
      ensures Valid() && nodes == Without(old(nodes), node)
      ensures node in old(nodes) ==> removed == node && node.Clean()
      ensures node !in old(nodes) ==> removed == null && unchanged(this, nodes, node)
    {
      ghost var k := IndexOf(nodes, node);
      if node.prev == null && head != node {
        return null;
      }
      assert node in nodes;
      BypassForward(node, k);
      BypassBackward(node, k);
      Detach(node, k);
      removed := node;
    }

    method Detach(node: Node<T>, ghost k: nat)
      requires Distinct(nodes) && k < |nodes| && nodes[k] == node
      requires NextBypassed(nodes, k) && PrevBypassed(nodes, k)
      modifies this`nodes, node
      ensures node.Clean() && nodes == old(nodes)[..k] + old(nodes)[k + 1..]
      ensures Distinct(nodes) && Linked(nodes)
    {
      node.next := null;
      node.prev := null;
      BypassedIsLinked(nodes, k);
      nodes := nodes[..k] + nodes[k + 1..];
    }

    // What precedes the node now points past it.
    method BypassForward(node: Node<T>, ghost k: nat)
      requires Valid() && k < |nodes| && nodes[k] == node
      modifies this`head, nodes`next
      ensures NextBypassed(nodes, k) && node.next == old(node.next)
      ensures head == if k > 0 then nodes[0] else if |nodes| == 1 then null else nodes[1]
    {
      if node.prev != null {
        assert node.prev == nodes[k - 1] && node.prev.next == node;
        node.prev.next := node.next;
      } else {
        assert head == node;
        head := node.next;
      }
    }

    // What follows the node now points back past it.
    method BypassBackward(node: Node<T>, ghost k: nat)
      requires Distinct(nodes) && k < |nodes| && nodes[k] == node
      requires tail == nodes[|nodes| - 1]
      requires forall i {:trigger nodes[i].prev} :: 0 <= i < |nodes| ==> nodes[i].prev == if i == 0 then null else nodes[i - 1]
      requires node.next == if k == |nodes| - 1 then null else nodes[k + 1]
      modifies this`tail, nodes`prev
      ensures PrevBypassed(nodes, k)
      ensures tail == if k < |nodes| - 1 then nodes[|nodes| - 1] else if k == 0 then null else nodes[k - 1]
    {
      if node.next != null {
        assert node.next.prev == node;
        node.next.prev := node.prev;
      } else {
        assert tail == node;
        tail := node.prev;
      }
    }
  }

  // ---------- the two chains ----------

  // The nodes met from `start` by following `next`, for at most `limit` nodes.
  ghost function Forward<T>(start: Node?<T>, limit: nat, region: set<Node<T>>): seq<Node<T>>
    reads region
  {
    if start == null || limit == 0 || start !in region then [] else [start] + Forward(start.next, limit - 1, region)
  }

  // The nodes met from `start` by following `prev`.
  ghost function Backward<T>(start: Node?<T>, limit: nat, region: set<Node<T>>): seq<Node<T>>
    reads region
  {
    if start == null || limit == 0 || start !in region then [] else [start] + Backward(start.prev, limit - 1, region)
  }

  ghost function Reversed<T>(s: seq<T>): seq<T> {
    seq(|s|, i requires 0 <= i < |s| => s[|s| - 1 - i])
  }

  lemma {:induction false} ForwardFrom<T>(s: seq<Node<T>>, i: nat, limit: nat, region: set<Node<T>>)
    requires Linked(s) && i <= |s| && limit >= |s| - i && forall n :: n in s ==> n in region
    ensures Forward(if i < |s| then s[i] else null, limit, region) == s[i..]
    decreases |s| - i
  {
    if i < |s| {
      ForwardFrom(s, i + 1, limit - 1, region);
    }
  }

  lemma {:induction false} BackwardFrom<T>(s: seq<Node<T>>, i: nat, limit: nat, region: set<Node<T>>)
    requires Linked(s) && i <= |s| && limit >= i && forall n :: n in s ==> n in region
    ensures Backward(if i > 0 then s[i - 1] else null, limit, region) == Reversed(s[..i])
    decreases i
  {
    if i > 0 {
      BackwardFrom(s, i - 1, limit - 1, region);
    }
  }

  // From head to tail and from tail to head the pointers visit the same nodes, in opposite
  // order, each once, and then end.
  lemma {:induction false} ChainsAgree<T>(list: LinkedList<T>, limit: nat, region: set<Node<T>>)
    requires list.Valid() && limit >= |list.nodes| && forall n :: n in list.nodes ==> n in region
    ensures Forward(list.head, limit, region) == list.nodes
    ensures Backward(list.tail, limit, region) == Reversed(Forward(list.head, limit, region))
  {
    ForwardFrom(list.nodes, 0, limit, region);
    BackwardFrom(list.nodes, |list.nodes|, limit, region);
    assert list.nodes[..|list.nodes|] == list.nodes;
  }

  // ---------- draining ----------

  // A filter is a closure with a state of its own: it is given the state and a value, and gives
  // back the new state and its verdict.
  type Filter<!S, !T> = (S, T) -> (S, bool)

  // The filter's state after it has judged the nodes in order.
  ghost function StateAfter<S, T>(f: Filter<S, T>, s: S, nodes: seq<Node<T>>): S {
    if nodes == [] then s else StateAfter(f, f(s, nodes[0].value).0, nodes[1..])
  }

  // The nodes the filter accepts, and those it rejects, in order.
  ghost function Matching<S, T>(f: Filter<S, T>, s: S, nodes: seq<Node<T>>): seq<Node<T>> {
    if nodes == [] then []
    else
      var judged := f(s, nodes[0].value);
      (if judged.1 then [nodes[0]] else []) + Matching(f, judged.0, nodes[1..])
  }

  ghost function Rejected<S, T>(f: Filter<S, T>, s: S, nodes: seq<Node<T>>): seq<Node<T>> {
    if nodes == [] then []
    else
      var judged := f(s, nodes[0].value);
      (if judged.1 then [] else [nodes[0]]) + Rejected(f, judged.0, nodes[1..])
  }

  lemma {:induction false} StateAppend<S, T>(f: Filter<S, T>, s: S, xs: seq<Node<T>>, ys: seq<Node<T>>)
    ensures StateAfter(f, s, xs + ys) == StateAfter(f, StateAfter(f, s, xs), ys)
  {
    if xs == [] {
      assert xs + ys == ys;
    } else {
      assert (xs + ys)[1..] == xs[1..] + ys;
      StateAppend(f, f(s, xs[0].value).0, xs[1..], ys);
    }
  }

  lemma {:induction false} MatchingAppend<S, T>(f: Filter<S, T>, s: S, xs: seq<Node<T>>, ys: seq<Node<T>>)
    ensures Matching(f, s, xs + ys) == Matching(f, s, xs) + Matching(f, StateAfter(f, s, xs), ys)
  {
    if xs == [] {
      assert xs + ys == ys;
    } else {
      var s' := f(s, xs[0].value).0;
      assert (xs + ys)[1..] == xs[1..] + ys;
      MatchingAppend(f, s', xs[1..], ys);
      Regroup(if f(s, xs[0].value).1 then [xs[0]] else [], Matching(f, s', xs[1..]), Matching(f, StateAfter(f, s, xs), ys));
    }
  }

  lemma {:induction false} RejectedAppend<S, T>(f: Filter<S, T>, s: S, xs: seq<Node<T>>, ys: seq<Node<T>>)
    ensures Rejected(f, s, xs + ys) == Rejected(f, s, xs) + Rejected(f, StateAfter(f, s, xs), ys)
  {
    if xs == [] {
      assert xs + ys == ys;
    } else {
      var s' := f(s, xs[0].value).0;
      assert (xs + ys)[1..] == xs[1..] + ys;
      RejectedAppend(f, s', xs[1..], ys);
      Regroup(if f(s, xs[0].value).1 then [] else [xs[0]], Rejected(f, s', xs[1..]), Rejected(f, StateAfter(f, s, xs), ys));
    }
  }

  // Every node is judged once: the accepted and the rejected nodes together are all of them.
  lemma {:induction false} MatchingPartitions<S, T>(f: Filter<S, T>, s: S, nodes: seq<Node<T>>)
    ensures multiset(Matching(f, s, nodes)) + multiset(Rejected(f, s, nodes)) == multiset(nodes)
  {
    if nodes != [] {
      assert nodes == [nodes[0]] + nodes[1..];
      MatchingPartitions(f, f(s, nodes[0].value).0, nodes[1..]);
    }
  }

  // With a filter whose verdict depends on the value alone, the accepted nodes are those whose
  // value it accepts, and the rejected nodes the others.
  lemma {:induction false} MatchingByValue<S, T>(f: Filter<S, T>, s: S, nodes: seq<Node<T>>, accepts: T -> bool)
    requires forall t: S, x: T :: f(t, x).1 == accepts(x)
    ensures forall n :: n in Matching(f, s, nodes) <==> n in nodes && accepts(n.value)
    ensures forall n :: n in Rejected(f, s, nodes) <==> n in nodes && !accepts(n.value)
  {
    if nodes != [] {
      MatchingByValue(f, f(s, nodes[0].value).0, nodes[1..], accepts);
      assert nodes == [nodes[0]] + nodes[1..];
    }
  }

  lemma {:induction false} WithoutAt<T>(xs: seq<T>, x: T, ys: seq<T>)
    requires Distinct(xs + [x] + ys)
    ensures Without(xs + [x] + ys, x) == xs + ys
  {
    var s := xs + [x] + ys;
    IndexOfAt(s, |xs|);
    assert s[..|xs|] == xs && s[|xs| + 1..] == ys;
  }

  lemma {:induction false} IndexOfAt<T>(s: seq<T>, i: nat)
    requires Distinct(s) && i < |s|
    ensures IndexOf(s, s[i]) == i
  {
    if i > 0 {
      IndexOfAt(s[1..], i - 1);
    }
  }

  lemma {:induction false} JudgedOne<S, T>(f: Filter<S, T>, s: S, node: Node<T>)
    ensures StateAfter(f, s, [node]) == f(s, node.value).0
    ensures Matching(f, s, [node]) == if f(s, node.value).1 then [node] else []
    ensures Rejected(f, s, [node]) == if f(s, node.value).1 then [] else [node]
  {
    var s' := f(s, node.value).0;
    assert StateAfter(f, s', []) == s' && Matching(f, s', []) == [] && Rejected(f, s', []) == [];
    assert [node][1..] == [];
  }

  // Where a walk stands: the filter's state, the nodes kept so far, and the nodes not yet visited.
  datatype Position<S, T> = Position(state: S, kept: seq<Node<T>>, rest: seq<Node<T>>)

  // The walk got from `p` to `q` by judging exactly the nodes `visited`.
  ghost predicate Visited<S, T>(f: Filter<S, T>, p: Position<S, T>, q: Position<S, T>, visited: seq<Node<T>>) {
    && visited + q.rest == p.rest
    && q.state == StateAfter(f, p.state, visited)
    && q.kept == p.kept + Rejected(f, p.state, visited)
  }

  lemma {:induction false} VisitedTwice<S, T>(
    f: Filter<S, T>, p: Position<S, T>, q: Position<S, T>, r: Position<S, T>, first: seq<Node<T>>, second: seq<Node<T>>)
    requires Visited(f, p, q, first) && Visited(f, q, r, second)
    ensures Visited(f, p, r, first + second)
    ensures Matching(f, p.state, first + second) == Matching(f, p.state, first) + Matching(f, q.state, second)
  {
    StateAppend(f, p.state, first, second);
    MatchingAppend(f, p.state, first, second);
    RejectedAppend(f, p.state, first, second);
  }

  lemma VisitedAll<S, T>(f: Filter<S, T>, p: Position<S, T>, q: Position<S, T>, visited: seq<Node<T>>)
    requires Visited(f, p, q, visited) && q.rest == []
    ensures visited == p.rest && q.kept + q.rest == p.kept + Rejected(f, p.state, p.rest)
  {
    assert visited + q.rest == visited;
  }

  lemma {:induction false} VisitedNext<S, T>(
    f: Filter<S, T>, p: Position<S, T>, q: Position<S, T>, visited: seq<Node<T>>, node: Node<T>, r: Position<S, T>)
    requires Visited(f, p, q, visited) && Matching(f, p.state, visited) == []
    requires [node] + r.rest == q.rest && r.state == f(q.state, node.value).0
    requires r.kept == if f(q.state, node.value).1 then q.kept else q.kept + [node]
    ensures Visited(f, p, r, visited + [node])
    ensures Matching(f, p.state, visited + [node]) == if f(q.state, node.value).1 then [node] else []
  {
    JudgedOne(f, q.state, node);
    assert Visited(f, q, r, [node]);
    VisitedTwice(f, p, q, r, visited, [node]);
  }

  class DrainFilter<S, T> {
    const list: LinkedList<T>
    const filter: Filter<S, T>
    var state: S
    var curr: Node?<T>
    ghost const region: set<Node<T>>  // the nodes the walk may unlink
    ghost var kept: seq<Node<T>>
    ghost var rest: seq<Node<T>>

    ghost function At(): Position<S, T>
      reads this
    {
      Position(state, kept, rest)
    }

    // The list is the nodes visited and kept, followed by the nodes not yet visited.
    ghost predicate Valid()
      reads this, list, list.nodes
    {
      && list.Valid()
      && list.nodes == kept + rest
      && Among(list.nodes, region)
      && curr == if rest == [] then null else rest[0]
    }

    constructor (list: LinkedList<T>, filter: Filter<S, T>, state: S)
      requires list.Valid()
      ensures Valid() && this.list == list && this.filter == filter && this.state == state
      ensures kept == [] && rest == list.nodes && region == Elements(list.nodes)
    {
      this.list := list;
      this.filter := filter;
      this.state := state;
      curr := list.head;
      kept := [];
      rest := list.nodes;
      region := Elements(list.nodes);
    }

    // The walk has moved past `node`, which is still linked.
    ghost predicate Holding(node: Node<T>)
      reads this, list, list.nodes
    {
      && list.Valid()
      && list.nodes == kept + [node] + rest
      && Among(list.nodes, region)
      && curr == if rest == [] then null else rest[0]
    }

    // Moves past the current node and asks the filter about it.
    method Judge() returns (node: Node<T>, hit: bool)
      requires Valid() && curr != null
      modifies this`curr, this`state, this`rest
      ensures Holding(node) && [node] + rest == old(rest)
      ensures (state, hit) == filter(old(state), node.value)
    {
      node := curr;
      assert list.nodes[|kept|] == node;
      curr := node.next;
      var judged := filter(state, node.value);
      state, hit := judged.0, judged.1;
      rest := rest[1..];
      assert list.nodes == kept + [node] + rest;
    }

    method Unlink(node: Node<T>) returns (drained: Node?<T>)
      requires Holding(node)
      modifies list, region
      ensures Valid() && drained == node && node.Clean()
    {
      WithoutAt(kept, node, rest);
      drained := list.Remove(node);
    }

    ghost method Keep(node: Node<T>)
      requires Holding(node)
      modifies this`kept
      ensures Valid() && kept == old(kept) + [node]
    {
      kept := kept + [node];
    }

    // Visits nodes until the filter accepts one, which is unlinked and returned.
    method Next() returns (drained: Node?<T>, ghost visited: seq<Node<T>>)
      requires Valid()
      modifies this, list, region
      ensures Valid()
      ensures Visited(filter, old(At()), At(), visited)
      ensures Matching(filter, old(state), visited) == if drained == null then [] else [drained]
      ensures drained == null ==> rest == []
      ensures drained != null ==> drained.Clean() && |rest| < |old(rest)|
    {
      drained, visited := Seek();
      if drained != null {
        drained := Unlink(drained);
      }
    }

    method Seek() returns (found: Node?<T>, ghost visited: seq<Node<T>>)
      requires Valid()
      modifies this
      ensures Visited(filter, old(At()), At(), visited)
      ensures Matching(filter, old(state), visited) == if found == null then [] else [found]
      ensures found == null ==> Valid() && rest == []
      ensures found != null ==> Holding(found) && |rest| < |old(rest)|
    {
      visited := [];
      ghost var start := At();
      while curr != null
        invariant Valid()
        invariant Visited(filter, start, At(), visited)
        invariant Matching(filter, start.state, visited) == []
        decreases |rest|
      {
        found, visited := Visit(start, visited);
        if found != null {
          return;
        }
      }
      found := null;
    }

    method Visit(ghost start: Position<S, T>, ghost before: seq<Node<T>>)
        returns (found: Node?<T>, ghost visited: seq<Node<T>>)
      requires Valid() && curr != null
      requires Visited(filter, start, At(), before) && Matching(filter, start.state, before) == []
      modifies this
      ensures Visited(filter, start, At(), visited) && |rest| < |old(rest)|
      ensures Matching(filter, start.state, visited) == if found == null then [] else [found]
      ensures if found == null then Valid() else Holding(found)
    {
      ghost var at := At();
      var node, hit := Judge();
      VisitedNext(filter, start, at, before, node, Position(state, if hit then kept else kept + [node], rest));
      visited := before + [node];
      if hit {
        found := node;
      } else {
        found := null;
        Keep(node);
      }
    }

    // Draining to the end unlinks exactly the accepted nodes, in order from head to tail, and
    // leaves exactly the rejected ones in order.
    method Collect() returns (drained: seq<Node<T>>)
      requires Valid()
      modifies this, list, region
      ensures Valid() && rest == []
      ensures drained == Matching(filter, old(state), old(rest))
      ensures list.nodes == old(kept) + Rejected(filter, old(state), old(rest))
      ensures state == StateAfter(filter, old(state), old(rest))
    {
      drained := [];
      ghost var start, visited: seq<Node<T>> := At(), [];
      var more := true;
      while more
        invariant Valid()
        invariant Visited(filter, start, At(), visited)
        invariant drained == Matching(filter, start.state, visited)
        invariant !more ==> rest == []
        decreases more, |rest|
      {
        ghost var before := At();
        var node, step := Next();
        VisitedTwice(filter, start, before, At(), visited, step);
        visited := visited + step;
        if node == null {
          more := false;
        } else {
          drained := drained + [node];
        }
      }
      VisitedAll(filter, start, At(), visited);
    }
  }
}
