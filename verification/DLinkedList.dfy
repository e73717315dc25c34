/**
 The intrusive doubly linked list of dlinked_list.c and its in-place merge sort.
 Mutexes are left out: the code is modelled in its non-thread-safe mode.
 */
module DLinkedLists {
  import opened StableSort

  class Node {
    var data: Data
    var prev: Node?
    var next: Node?

    // A calloc-ed node.
    constructor ()
      ensures data == 0 && prev == null && next == null
    {
      data, prev, next := 0, null, null;
    }
  }

  ghost predicate Distinct<A>(s: seq<A>) {
    forall i, j :: 0 <= i < j < |s| ==> s[i] != s[j]
  }

  function At(ns: seq<Node>, i: int): Node? {
    if 0 <= i < |ns| then ns[i] else null
  }

  // `next` runs through ns from position `from` and ends in null.
  ghost predicate Forward(ns: seq<Node>, from: nat)
    reads ns
  {
    forall i {:trigger ns[i].next} :: from <= i < |ns| ==> ns[i].next == At(ns, i + 1)
  }

  ghost predicate Backward(ns: seq<Node>)
    reads ns
  {
    forall i {:trigger ns[i].prev} :: 0 <= i < |ns| ==> ns[i].prev == At(ns, i - 1)
  }

  // The nodes of a list with what they carry.
  ghost function Items(ns: seq<Node>): (r: seq<Item<Node>>)
    reads ns
    ensures |r| == |ns|
    ensures forall i :: 0 <= i < |ns| ==> r[i] == Item(ns[i], ns[i].data)
  {
    seq(|ns|, i requires 0 <= i < |ns| reads ns => Item(ns[i], ns[i].data))
  }

  function DataOf<K>(s: seq<Item<K>>): (r: seq<Data>)
    ensures |r| == |s|
    ensures forall i :: 0 <= i < |s| ==> r[i] == s[i].data
  {
    seq(|s|, i requires 0 <= i < |s| => s[i].data)
  }

  /** The fast and slow pointers of DLinkedListMergeSortFunc: ns is cut after its first half. */
  method SplitInHalf(head: Node, ghost ns: seq<Node>) returns (right: Node)
    requires |ns| >= 2 && head == ns[0]
    requires Distinct(ns) && Forward(ns, 0)
    modifies ns`next
    ensures right == ns[|ns| / 2]
    ensures Forward(ns[..|ns| / 2], 0) && Forward(ns[|ns| / 2..], 0)
  {
    right := head;
    var temp: Node? := head;
    var last := head;
    ghost var k := 0;
    while temp != null && temp.next != null
      invariant 2 * k <= |ns| && k < |ns| && right == ns[k]
      invariant k > 0 ==> last == ns[k - 1]
      invariant temp == At(ns, 2 * k)
      decreases |ns| - k
    {
      assert temp == ns[2 * k] && ns[2 * k].next == At(ns, 2 * k + 1);
      assert ns[2 * k + 1].next == At(ns, 2 * k + 2);
      assert ns[k].next == At(ns, k + 1);
      last := right;
      right := right.next;
      temp := temp.next.next;
      k := k + 1;
    }
    assert 2 * k < |ns| ==> ns[2 * k].next == At(ns, 2 * k + 1);
    assert k == |ns| / 2;
    last.next := null;
  }

  // The merged nodes so far: linked both ways up to their last one, whose `next` is still open.
  ghost predicate Merged(out: seq<Node>)
    reads out
  {
    && Distinct(out) && Backward(out)
    && forall p {:trigger out[p].next} :: 0 <= p < |out| - 1 ==> out[p].next == out[p + 1]
  }

  ghost predicate Apart<A>(s: seq<A>, t: seq<A>) {
    forall i, j :: 0 <= i < |s| && 0 <= j < |t| ==> s[i] != t[j]
  }

  // Two null-terminated chains with no node in common.
  ghost predicate Chains(a: seq<Node>, b: seq<Node>)
    reads a, b
  {
    Distinct(a) && Distinct(b) && Apart(a, b) && Forward(a, 0) && Forward(b, 0)
  }

  /** The choice the merging loop makes: takes the first node of one of the two chains. */
  method TakeNext(head0: Node?, right0: Node?, gt: Greater, ascend: bool, ghost a0: seq<Node>, ghost b0: seq<Node>)
    returns (next: Node, head: Node?, right: Node?, ghost a: seq<Node>, ghost b: seq<Node>)
    requires Chains(a0, b0) && head0 == At(a0, 0) && right0 == At(b0, 0)
    requires head0 != null || right0 != null
    ensures (a0 == [next] + a && b == b0) || (b0 == [next] + b && a == a0)
    ensures Chains(a, b) && head == At(a, 0) && right == At(b, 0)
    ensures next.next == head || next.next == right
    ensures Merge(Items(a0), Items(b0), gt, ascend)
         == [Item(next, next.data)] + Merge(Items(a), Items(b), gt, ascend)
  {
    head, right, a, b := head0, right0, a0, b0;
    RestOfChain(a0, b0);
    RestOfChain(b0, a0);
    MergeTakes(Items(a0), Items(b0), gt, ascend);
    if right == null {
      next := head;
      head := head.next;
      a := a[1..];
    } else if head == null {
      next := right;
      right := right.next;
      b := b[1..];
    } else if if ascend then !gt(head.data, right.data) else gt(head.data, right.data) {
      next := head;
      head := head.next;
      a := a[1..];
    } else {
      next := right;
      right := right.next;
      b := b[1..];
    }
  }

  lemma MergeTakes<K>(l: seq<Item<K>>, r: seq<Item<K>>, gt: Greater, ascend: bool)
    requires l != [] || r != []
    ensures Merge(l, r, gt, ascend)
         == if r == [] || (l != [] && TakesLeft(l[0], r[0], gt, ascend)) then [l[0]] + Merge(l[1..], r, gt, ascend)
            else [r[0]] + Merge(l, r[1..], gt, ascend)
  {}

  // A chain without its first node, beside another chain.
  lemma RestOfChain(a: seq<Node>, b: seq<Node>)
    requires Chains(a, b) || Chains(b, a)
    ensures a != [] ==> Chains(a[1..], b) && Chains(b, a[1..]) && a[0].next == At(a[1..], 0) && a == [a[0]] + a[1..]
    ensures a != [] ==> Items(a) != [] && Items(a)[0] == Item(a[0], a[0].data) && Items(a)[1..] == Items(a[1..])
  {
    if a != [] {
      assert Items(a)[1..] == Items(a[1..]);
      assert a[0].next == At(a, 1) == At(a[1..], 0);
    }
  }

  /** The end of a turn of the merging loop: hangs `next` behind the nodes merged so far. */
  method Hang(tail: Node?, next: Node, ghost out: seq<Node>, ghost a: seq<Node>, ghost b: seq<Node>)
    requires Merged(out) && tail == At(out, |out| - 1) && next !in out
    requires Chains(a, b) && Apart(out + [next], a) && Apart(out + [next], b)
    modifies if tail == null then {} else {tail}`next, next`prev
    ensures Merged(out + [next]) && next.next == old(next.next)
    ensures Chains(a, b)
  {
    if tail != null {
      assert tail in out + [next];
      tail.next := next;
    }
    next.prev := tail;
  }

  lemma StillApart(out: seq<Node>, a: seq<Node>, b: seq<Node>)
    requires Apart(a, b) && forall n :: n in out <==> n in a
    ensures Apart(out, b) && Apart(b, out)
  {
    forall i, j | 0 <= i < |out| && 0 <= j < |b| ensures out[i] != b[j] {
      assert out[i] in a;
    }
  }

  lemma StillWithin(out: seq<Node>, a: seq<Node>, all: set<Node>)
    requires Within(a, all) && forall n :: n in out <==> n in a
    ensures Within(out, all)
  {
    forall i | 0 <= i < |out| ensures out[i] in all {
      assert out[i] in a;
    }
  }

  // Relinking leaves what the nodes carry alone.
  twostate lemma SameItems(ns: seq<Node>)
    requires forall n :: n in ns ==> n.data == old(n.data)
    ensures Items(ns) == old(Items(ns))
  {}

  ghost predicate Within<A>(s: seq<A>, all: set<A>) {
    forall i :: 0 <= i < |s| ==> s[i] in all
  }

  // Bookkeeping of one turn: which nodes are merged and which are still waiting.
  lemma Took(next: Node, out: seq<Node>, a0: seq<Node>, b: seq<Node>, a: seq<Node>, all: set<Node>)
    requires Distinct(a0) && Apart(a0, b) && Apart(out, a0) && Apart(out, b)
    requires a0 == [next] + a && Within(out, all) && Within(a0, all) && Within(b, all)
    ensures next !in out && Apart(out + [next], a) && Apart(out + [next], b)
    ensures Within(out + [next], all) && Within(a, all)
  {
    assert a0[0] == next;
    forall i, j | 0 <= i < |out| + 1 && 0 <= j < |a| ensures (out + [next])[i] != a[j] {
      assert a[j] == a0[j + 1];
    }
    forall i, j | 0 <= i < |out| + 1 && 0 <= j < |b| ensures (out + [next])[i] != b[j] {
      assert i == |out| ==> a0[0] != b[j];
    }
    forall j | 0 <= j < |a| ensures a[j] in all {
      assert a[j] == a0[j + 1];
    }
  }

  lemma Shift<A>(done: seq<A>, turn: A, was: seq<A>, rest: seq<A>)
    requires was == [turn] + rest
    ensures done + was == done + [turn] + rest
  {}

  lemma Appended(out: seq<Node>, next: Node)
    ensures Items(out + [next]) == Items(out) + [Item(next, next.data)]
  {}

  // The merging loop between two turns: `out` is merged, a and b are still waiting.
  ghost predicate Merging(head: Node?, right: Node?, result: Node?, tail: Node?,
                          out: seq<Node>, a: seq<Node>, b: seq<Node>, all: set<Node>)
    reads out, a, b
  {
    && Chains(a, b) && head == At(a, 0) && right == At(b, 0)
    && Merged(out) && result == At(out, 0) && tail == At(out, |out| - 1)
    && (tail != null ==> tail.next == head || tail.next == right)
    && Apart(out, a) && Apart(out, b)
    && Within(out, all) && Within(a, all) && Within(b, all)
  }

  // The items merged so far, followed by what the rest of the merge will give.
  ghost function Outcome(out: seq<Node>, a: seq<Node>, b: seq<Node>, gt: Greater, ascend: bool): seq<Item<Node>>
    reads out, a, b
  {
    Items(out) + Merge(Items(a), Items(b), gt, ascend)
  }

  /** One turn of the merging loop. */
  method MergeTurn(head0: Node?, right0: Node?, result0: Node?, tail0: Node?, gt: Greater, ascend: bool,
                   ghost out0: seq<Node>, ghost a0: seq<Node>, ghost b0: seq<Node>, ghost all: set<Node>)
    returns (head: Node?, right: Node?, result: Node?, tail: Node?,
             ghost out: seq<Node>, ghost a: seq<Node>, ghost b: seq<Node>)
    requires Merging(head0, right0, result0, tail0, out0, a0, b0, all)
    requires head0 != null || right0 != null
    modifies all`next, all`prev
    ensures Merging(head, right, result, tail, out, a, b, all)
    ensures Outcome(out, a, b, gt, ascend) == old(Outcome(out0, a0, b0, gt, ascend))
    ensures |a| + |b| < |a0| + |b0|
  {
    var next: Node;
    next, head, right, a, b := TakeNext(head0, right0, gt, ascend, a0, b0);
    if b == b0 {
      Took(next, out0, a0, b0, a, all);
    } else {
      assert Apart(b0, a0);
      Took(next, out0, b0, a0, b, all);
    }
    ghost var was, rest := Merge(Items(a0), Items(b0), gt, ascend), Merge(Items(a), Items(b), gt, ascend);
    Shift(Items(out0), Item(next, next.data), was, rest);
    result := if result0 == null then next else result0;
    assert (out0 + [next])[|out0|] in all && (tail0 == null || out0[|out0| - 1] in all);
    label taken:
    Hang(tail0, next, out0, a, b);
    SameItems@taken(a);
    SameItems@taken(b);
    SameItems@taken(out0);
    Appended(out0, next);
    tail, out := next, out0 + [next];
  }

  /** The merging loop of DLinkedListMergeSortFunc, which relinks the nodes of both halves and repairs `prev`. */
  method MergeHalves(head0: Node?, right0: Node?, gt: Greater, ascend: bool,
                     ghost a0: seq<Node>, ghost b0: seq<Node>, ghost all: set<Node>)
    returns (result: Node?, ghost out: seq<Node>)
    requires Chains(a0, b0) && head0 == At(a0, 0) && right0 == At(b0, 0)
    requires Within(a0, all) && Within(b0, all)
    modifies all`next, all`prev
    ensures Items(out) == Merge(old(Items(a0)), old(Items(b0)), gt, ascend)
    ensures result == At(out, 0) && Merged(out) && Forward(out, 0)
  {
    var head, right := head0, right0;
    var tail: Node? := null;
    result, out := null, [];
    ghost var a, b := a0, b0;
    while head != null || right != null
      invariant Merging(head, right, result, tail, out, a, b, all)
      invariant Outcome(out, a, b, gt, ascend) == Merge(old(Items(a0)), old(Items(b0)), gt, ascend)
      decreases |a| + |b|
    {
      head, right, result, tail, out, a, b := MergeTurn(head, right, result, tail, gt, ascend, out, a, b, all);
    }
    assert |out| > 0 ==> out[|out| - 1].next == null;
    assert forall p {:trigger out[p].next} :: 0 <= p < |out| ==> out[p].next == At(out, p + 1);
    assert Merge(Items(a), Items(b), gt, ascend) == [];
  }

  // Items carry their nodes: permuting the items permutes the nodes.
  lemma SameNodes(s: seq<Node>, t: seq<Node>)
    requires multiset(Items(s)) == multiset(Items(t))
    ensures |s| == |t| && forall n :: n in s <==> n in t
  {
    assert |multiset(Items(s))| == |multiset(Items(t))|;
    forall n | n in s ensures n in t { OneSided(s, t, n); }
    forall n | n in t ensures n in s { OneSided(t, s, n); }
  }

  lemma OneSided(s: seq<Node>, t: seq<Node>, n: Node)
    requires multiset(Items(s)) == multiset(Items(t)) && n in s
    ensures n in t
  {
    assert Item(n, n.data) in Items(s);
    assert Item(n, n.data) in multiset(Items(t));
  }

  lemma Halves(ns: seq<Node>, h: nat) returns (all: set<Node>)
    requires Distinct(ns) && h <= |ns|
    ensures Distinct(ns[..h]) && Distinct(ns[h..]) && Apart(ns[..h], ns[h..])
    ensures Items(ns)[..h] == Items(ns[..h]) && Items(ns)[h..] == Items(ns[h..])
    ensures Within(ns[..h], all) && Within(ns[h..], all) && forall n :: n in all ==> n in ns
  {
    all := set n | n in ns;
  }

  /** DLinkedListMergeSortFunc. A list of one node keeps its old `prev`, which the caller's merge repairs. */
  method MergeSortFunc(head: Node?, gt: Greater, ascend: bool, ghost ns: seq<Node>)
    returns (result: Node?, ghost out: seq<Node>)
    requires Distinct(ns) && Forward(ns, 0) && head == At(ns, 0)
    modifies ns`next, ns`prev
    ensures Items(out) == Sort(old(Items(ns)), gt, ascend)
    ensures |out| == |ns| && forall n :: n in out <==> n in ns
    ensures result == At(out, 0) && Distinct(out) && Forward(out, 0) && (|ns| >= 2 ==> Backward(out))
    decreases |ns|, 1
  {
    if head == null || head.next == null {
      return head, ns;
    }
    assert |ns| >= 2;
    ghost var l, r := ns[..|ns| / 2], ns[|ns| / 2..];
    ghost var items, il, ir := Items(ns), Items(l), Items(r);
    ghost var all := Halves(ns, |ns| / 2);
    var right := SplitInHalf(head, ns);
    SameItems(l);
    SameItems(r);
    var h1, h2, outL, outR := SortHalves(head, right, gt, ascend, l, r, all);
    result, out := MergeHalves(h1, h2, gt, ascend, outL, outR, all);
    assert Items(out) == Sort(items, gt, ascend);
    SameItems(ns);
    SortKeepsItems(items, gt, ascend);
    SameNodes(out, ns);
  }

  // The two recursive calls of DLinkedListMergeSortFunc.
  method SortHalves(left: Node, right: Node, gt: Greater, ascend: bool, ghost l: seq<Node>, ghost r: seq<Node>,
                    ghost all: set<Node>)
    returns (h1: Node?, h2: Node?, ghost outL: seq<Node>, ghost outR: seq<Node>)
    requires Chains(l, r) && left == At(l, 0) && right == At(r, 0) && Within(l, all) && Within(r, all)
    modifies l`next, l`prev, r`next, r`prev
    ensures Items(outL) == Sort(old(Items(l)), gt, ascend) && Items(outR) == Sort(old(Items(r)), gt, ascend)
    ensures Chains(outL, outR) && h1 == At(outL, 0) && h2 == At(outR, 0) && Within(outL, all) && Within(outR, all)
    decreases |l| + |r|, 0
  {
    assert l[0] == left && r[0] == right;
    h1, outL := MergeSortFunc(left, gt, ascend, l);
    SameItems(r);
    StillApart(outL, l, r);
    label sorted:
    h2, outR := MergeSortFunc(right, gt, ascend, r);
    SameItems@sorted(outL);
    StillApart(outR, r, outL);
    StillWithin(outL, l, all);
    StillWithin(outR, r, all);
  }

  const NULL: Data := 0

  class DLinkedList {
    var head: Node?
    var tail: Node?
    var size: nat
    ghost var nodes: seq<Node>  // from head to tail

    // Both chains run through the nodes and the ends agree with them.
    ghost predicate Linked()
      reads this, nodes
    {
      && Distinct(nodes) && Forward(nodes, 0) && Backward(nodes)
      && head == At(nodes, 0) && tail == At(nodes, |nodes| - 1)
    }

    ghost predicate Valid()
      reads this, nodes
    {
      Linked() && size == |nodes|
    }

    constructor Init()
      ensures Valid() && nodes == []
    {
      head, tail, size, nodes := null, null, 0, [];
    }

    // The pointer writes that end DLinkedListAdd and DLinkedListMoveToHead.
    method LinkHead(node: Node)
      requires Linked() && node !in nodes
      modifies this`head, this`tail, this`nodes, node`next, node`prev, nodes`prev
      ensures Linked() && nodes == [node] + old(nodes)
    {
      node.prev := null;
      node.next := head;
      if head != null {
        assert head == nodes[0];
        head.prev := node;
      }
      head := node;
      if tail == null {
        tail := node;
      }
      nodes := [node] + nodes;
    }

    // The pointer writes that end DLinkedListAddTail and DLinkedListMoveToTail.
    method LinkTail(node: Node)
      requires Linked() && node !in nodes
      modifies this`head, this`tail, this`nodes, node`next, node`prev, nodes`next
      ensures Linked() && nodes == old(nodes) + [node]
    {
      node.next := null;
      node.prev := tail;
      if tail != null {
        assert tail == nodes[|nodes| - 1];
        tail.next := node;
      }
      tail := node;
      if head == null {
        head := node;
      }
      nodes := nodes + [node];
    }

    // The pointer writes that DLinkedListDelete, PopHead and the two moves begin with.
    method Unlink(node: Node, ghost k: nat)
      requires Linked() && k < |nodes| && nodes[k] == node
      modifies this`head, this`tail, this`nodes, nodes`next, nodes`prev
      ensures Linked() && node !in nodes
      ensures nodes == old(nodes)[..k] + old(nodes)[k + 1..]
    {
      assert node.next == At(nodes, k + 1) && node.prev == At(nodes, k - 1);
      if node.next != null {
        node.next.prev := node.prev;
      }
      if node.prev != null {
        node.prev.next := node.next;
      }
      if node == head {
        head := node.next;
      }
      if node == tail {
        tail := node.prev;
      }
      nodes := nodes[..k] + nodes[k + 1..];
    }

    // The end of DLinkedListDelete and PopHead: the removed node becomes an orphan.
    method Orphan(node: Node)
      requires Linked() && node !in nodes
      modifies node`next, node`prev
      ensures Linked() && node.next == null && node.prev == null
    {
      node.next := null;
      node.prev := null;
    }

    /** DLinkedListAdd, DLinkedListAddHead and DLinkedListAddUnsafe. */
    method Add(node: Node, data: Data)
      requires Valid() && node !in nodes
      modifies this, node, nodes`prev
      ensures Valid() && nodes == [node] + old(nodes) && node.data == data
    {
      node.data := data;
      LinkHead(node);
      size := size + 1;
    }

    method AddTail(node: Node, data: Data)
      requires Valid() && node !in nodes
      modifies this, node, nodes`next
      ensures Valid() && nodes == old(nodes) + [node] && node.data == data
    {
      node.data := data;
      LinkTail(node);
      size := size + 1;
    }

    /** DLinkedListDelete: an orphan node, on no list, leaves the list as it is. */
    method Delete(node: Node) returns (ghost k: nat)
      requires Valid()
      requires node in nodes || (node.next == null && node.prev == null)
      modifies this, nodes`next, nodes`prev
      ensures Valid()
      ensures node !in old(nodes) ==> nodes == old(nodes)
      ensures node in old(nodes) ==>
                && k < |old(nodes)| && old(nodes)[k] == node
                && nodes == old(nodes)[..k] + old(nodes)[k + 1..]
      ensures node.next == null && node.prev == null
    {
      if head != node && node.next == null && node.prev == null {
        OrphanIsOutside(node);
        return 0;
      }
      OrphanIsOutside(node);
      k :| 0 <= k < |nodes| && nodes[k] == node;
      Unlink(node, k);
      size := size - 1;
      Orphan(node);
    }

    lemma OrphanIsOutside(node: Node)
      requires Valid()
      ensures node in nodes ==> node == head || node.prev != null
    {
      assert forall k :: 0 <= k < |nodes| ==> nodes[k].prev == At(nodes, k - 1);
    }

    method UnlinkFirst(node: Node)
      requires Linked() && node == head
      modifies this`head, this`tail, this`nodes, nodes`next, nodes`prev
      ensures Linked() && old(nodes) != [] && node == old(nodes)[0] && node !in nodes && nodes == old(nodes)[1..]
    {
      Unlink(node, 0);
    }

    method PopHead() returns (data: Data)
      requires Valid()
      modifies this, nodes`next, nodes`prev
      ensures Valid()
      ensures old(nodes) == [] ==> data == NULL && nodes == []
      ensures old(nodes) != [] ==> data == old(nodes)[0].data && nodes == old(nodes)[1..]
    {
      if head == null {
        return NULL;
      }
      var node: Node := head;
      UnlinkFirst(node);
      Orphan(node);
      size := size - 1;
      return node.data;
    }

    method PopTail() returns (data: Data)
      requires Valid()
      modifies this, nodes`next, nodes`prev
      ensures Valid()
      ensures old(nodes) == [] ==> data == NULL && nodes == []
      ensures old(nodes) != [] ==>
                data == old(nodes)[|old(nodes)| - 1].data && nodes == old(nodes)[..|old(nodes)| - 1]
    {
      if tail == null {
        return NULL;
      }
      var node: Node := tail;
      assert node == nodes[|nodes| - 1] && node.prev == At(nodes, |nodes| - 2);
      if node == head {
        head, tail := null, null;
      }
      if node.prev != null {
        node.prev.next := null;
      }
      tail := node.prev;
      node.next := null;
      node.prev := null;
      size := size - 1;
      nodes := nodes[..|nodes| - 1];
      return node.data;
    }

    method MoveToTail(node: Node) returns (ghost k: nat)
      requires Valid() && node in nodes
      modifies this, nodes`next, nodes`prev
      ensures Valid() && k < |old(nodes)| && old(nodes)[k] == node
      ensures nodes == old(nodes)[..k] + old(nodes)[k + 1..] + [node]
    {
      k :| 0 <= k < |nodes| && nodes[k] == node;
      if node == tail {
        return;
      }
      Unlink(node, k);
      LinkTail(node);
    }

    method MoveToHead(node: Node) returns (ghost k: nat)
      requires Valid() && node in nodes
      modifies this, nodes`next, nodes`prev
      ensures Valid() && k < |old(nodes)| && old(nodes)[k] == node
      ensures nodes == [node] + old(nodes)[..k] + old(nodes)[k + 1..]
    {
      k :| 0 <= k < |nodes| && nodes[k] == node;
      if node == head {
        return;
      }
      Unlink(node, k);
      LinkHead(node);
    }

    /** DLinkedListSortMerge: sorts in place by relinking the very same nodes. */
    method SortMerge(gt: Greater, ascend: bool)
      requires Valid()
      modifies this`head, this`tail, this`nodes, nodes`next, nodes`prev
      ensures Valid() && |nodes| == |old(nodes)|
      ensures Items(nodes) == Sort(old(Items(nodes)), gt, ascend)
      ensures forall n :: n in nodes <==> n in old(nodes)
    {
      if head == null {
        return;
      }
      if size > 1 {
        ghost var out;
        head, tail, out := SortChain(head, gt, ascend, nodes);
        nodes := out;
      }
    }

    /** DLinkedListDupUnsafe: copies at the head, so the copy comes out reversed. */
    method DupUnsafe(ret: DLinkedList)
      requires Valid() && ret.Valid() && ret != this && Apart(nodes, ret.nodes)
      modifies ret, ret.nodes`prev
      ensures ret.Valid()
      ensures |ret.nodes| == |nodes| + |old(ret.nodes)| && ret.nodes[|nodes|..] == old(ret.nodes)
      ensures forall i :: 0 <= i < |nodes| ==> fresh(ret.nodes[i])
      ensures forall n :: n in ret.nodes ==> fresh(n) || n in old(ret.nodes)
      ensures DataOf(Items(ret.nodes)) == Reverse(DataOf(Items(nodes))) + old(DataOf(Items(ret.nodes)))
    {
      var node := head;
      ghost var i := 0;
      while node != null
        invariant i <= |nodes| && node == At(nodes, i)
        invariant ret.Valid() && |ret.nodes| == i + |old(ret.nodes)|
        invariant ret.nodes[i..] == old(ret.nodes)
        invariant forall j :: 0 <= j < i ==> fresh(ret.nodes[j])
        invariant forall j :: 0 <= j < i ==> ret.nodes[j].data == nodes[i - 1 - j].data
        decreases |nodes| - i
      {
        node := DupNode(node, ret, i);
        i := i + 1;
      }
      SameItems(old(ret.nodes));
      Copied(nodes, ret.nodes, old(ret.nodes));
    }

    // One turn of the loop of DLinkedListDupUnsafe, at node number i.
    method DupNode(node: Node, ret: DLinkedList, ghost i: nat) returns (next: Node?)
      requires Linked() && ret.Valid() && ret != this && i < |nodes| && node == nodes[i]
      requires Apart(nodes, ret.nodes)
      modifies ret, ret.nodes`prev
      ensures ret.Valid() && next == At(nodes, i + 1)
      ensures |ret.nodes| == 1 + |old(ret.nodes)| && ret.nodes[1..] == old(ret.nodes)
      ensures fresh(ret.nodes[0]) && ret.nodes[0].data == node.data
    {
      var newNode := new Node();
      newNode.data := node.data;
      assert forall j :: 0 <= j < |ret.nodes| ==> ret.nodes[j] != newNode;
      ret.Add(newNode, newNode.data);
      next := node.next;
    }

    // DLinkedListSort on a list that is not empty.
    method SortNonempty(ret: DLinkedList, gt: Greater, ascend: bool) returns (ghost dup: seq<Item<Node>>)
      requires Valid() && ret.Valid() && ret != this && Apart(nodes, ret.nodes)
      modifies ret, ret.nodes`prev, ret.nodes`next
      ensures ret.Valid() && DataOf(dup) == Reverse(DataOf(Items(nodes))) + old(DataOf(Items(ret.nodes)))
      ensures Items(ret.nodes) == Sort(dup, gt, ascend)
    {
      DupUnsafe(ret);
      dup := Items(ret.nodes);
      label copied:
      ret.SortMerge(gt, ascend);
      SameItems@copied(nodes);
    }

    /** DLinkedListSort: a sorted copy of this list; `dup` is the copy before sorting. */
    method SortCopy(ret: DLinkedList, gt: Greater, ascend: bool) returns (ghost dup: seq<Item<Node>>)
      requires Valid() && ret.Valid() && ret != this && Apart(nodes, ret.nodes)
      modifies ret, ret.nodes`prev, ret.nodes`next
      ensures Valid() && ret.Valid()
      ensures nodes == old(nodes) && Items(nodes) == old(Items(nodes))
      ensures DataOf(dup) == Reverse(DataOf(Items(nodes))) + old(DataOf(Items(ret.nodes)))
      ensures Items(ret.nodes) == if nodes == [] then dup else Sort(dup, gt, ascend)
    {
      if head == null {
        return Items(ret.nodes);
      }
      dup := SortNonempty(ret, gt, ascend);
      StillLinked();
    }

    twostate lemma StillLinked()
      requires old(Valid()) && unchanged(this)
      requires forall n: Node :: n in nodes ==> n.next == old(n.next) && n.prev == old(n.prev)
      ensures Valid()
    {}
  }

  /** The sorting and the walk to the new tail, for a list of at least two nodes. */
  method SortChain(first: Node, gt: Greater, ascend: bool, ghost ns: seq<Node>)
    returns (head: Node, tail: Node, ghost out: seq<Node>)
    requires |ns| > 1 && first == ns[0] && Distinct(ns) && Forward(ns, 0)
    modifies ns`next, ns`prev
    ensures Items(out) == Sort(old(Items(ns)), gt, ascend)
    ensures |out| == |ns| && forall n :: n in out <==> n in ns
    ensures Distinct(out) && Forward(out, 0) && Backward(out) && head == out[0] && tail == out[|out| - 1]
  {
    var h: Node?;
    h, out := MergeSortFunc(first, gt, ascend, ns);
    head := h;
    tail := LastNode(head, out);
  }

  /** The walk to the last node that ends DLinkedListSortMerge. */
  method LastNode(head: Node?, ghost ns: seq<Node>) returns (node: Node)
    requires |ns| > 0 && head == ns[0] && Forward(ns, 0)
    ensures node == ns[|ns| - 1]
  {
    node := head;
    ghost var i := 0;
    while node.next != null
      invariant i < |ns| && node == ns[i]
      decreases |ns| - i
    {
      assert ns[i].next == At(ns, i + 1);
      node := node.next;
      i := i + 1;
    }
    assert ns[i].next == At(ns, i + 1);
  }

  // The copy in front of the nodes that were already there, by what it carries.
  lemma Copied(src: seq<Node>, ret: seq<Node>, was: seq<Node>)
    requires |ret| == |src| + |was| && ret[|src|..] == was
    requires forall i :: 0 <= i < |src| ==> ret[i].data == src[|src| - 1 - i].data
    ensures DataOf(Items(ret)) == Reverse(DataOf(Items(src))) + DataOf(Items(was))
  {
    forall i | |src| <= i < |ret| ensures ret[i].data == was[i - |src|].data {
      assert ret[i] == ret[|src|..][i - |src|];
    }
  }

  lemma {:induction false} TiesCarryData(s: seq<Item<Node>>, t: seq<Item<Node>>, d: Data, gt: Greater)
    requires DataOf(s) == DataOf(t)
    ensures DataOf(Ties(s, d, gt)) == DataOf(Ties(t, d, gt))
  {
    if s != [] {
      assert s[0].data == DataOf(s)[0] == DataOf(t)[0];
      assert DataOf(s[1..]) == DataOf(s)[1..] == DataOf(t[1..]);
      TiesCarryData(s[1..], t[1..], d, gt);
      var s', t' := Ties(s[1..], d, gt), Ties(t[1..], d, gt);
      assert DataOf([s[0]] + s') == [s[0].data] + DataOf(s');
      assert DataOf([t[0]] + t') == [t[0].data] + DataOf(t');
    }
  }

  // A DESCEND copy made by DLinkedListSort is the stable descending sort of the source;
  // an ASCEND copy has every group of ties reversed.
  lemma SortCopyTies(src: seq<Item<Node>>, dup: seq<Item<Node>>, d: Data, gt: Greater, ascend: bool)
    requires StrictWeakOrder(gt) && DataOf(dup) == Reverse(DataOf(src))
    ensures Ordered(Sort(dup, gt, ascend), gt, ascend)
    ensures DataOf(Ties(Sort(dup, gt, ascend), d, gt))
         == if ascend then Reverse(DataOf(Ties(src, d, gt))) else DataOf(Ties(src, d, gt))
  {
    SortOrdered(dup, gt, ascend);
    SortTies(dup, d, gt, ascend);
    TiesReverse(src, d, gt);
    DataOfReverse(src);
    TiesCarryData(dup, Reverse(src), d, gt);
    DataOfReverse(Ties(src, d, gt));
    DataOfReverse(Ties(dup, d, gt));
    ReverseTwice(DataOf(Ties(src, d, gt)));
  }

  lemma DataOfReverse<K>(s: seq<Item<K>>)
    ensures DataOf(Reverse(s)) == Reverse(DataOf(s))
  {}

  lemma ReverseTwice<A>(s: seq<A>)
    ensures Reverse(Reverse(s)) == s
  {}
}
