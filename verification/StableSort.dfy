/**
 The merge sort of dlinked_list.c as a function on sequences, and what it computes.
 An item pairs the identity of a list node with the data pointer it carries; the
 comparator sees the data only.
 */
module StableSort {

  // The value of a `void *data` pointer; the comparator gives it a meaning.
  type Data = int

  // cmp_func as the SORT_COMPARE_NUM comparators use it: nonzero when left is greater.
  type Greater = (Data, Data) -> bool

  datatype Item<K> = Item(key: K, data: Data)

  ghost predicate StrictWeakOrder(gt: Greater) {
    && (forall a, b :: gt(a, b) ==> !gt(b, a))
    && (forall a, b, c :: gt(a, c) ==> gt(a, b) || gt(b, c))
  }

  // The test of the merge loop when both halves are nonempty.
  predicate TakesLeft<K>(l: Item<K>, r: Item<K>, gt: Greater, ascend: bool) {
    if ascend then !gt(l.data, r.data) else gt(l.data, r.data)
  }

  function Merge<K>(l: seq<Item<K>>, r: seq<Item<K>>, gt: Greater, ascend: bool): seq<Item<K>>
    decreases |l| + |r|
  {
    if r == [] then l
    else if l == [] then r
    else if TakesLeft(l[0], r[0], gt, ascend) then [l[0]] + Merge(l[1..], r, gt, ascend)
    else [r[0]] + Merge(l, r[1..], gt, ascend)
  }

  function Sort<K>(s: seq<Item<K>>, gt: Greater, ascend: bool): seq<Item<K>> {
    if |s| < 2 then s
    else Merge(Sort(s[..|s| / 2], gt, ascend), Sort(s[|s| / 2..], gt, ascend), gt, ascend)
  }

  predicate Ordered<K>(s: seq<Item<K>>, gt: Greater, ascend: bool) {
    forall i, j :: 0 <= i < j < |s| ==>
      if ascend then !gt(s[i].data, s[j].data) else !gt(s[j].data, s[i].data)
  }

  predicate Tied(a: Data, b: Data, gt: Greater) { !gt(a, b) && !gt(b, a) }

  // The items of s that tie with d, in the order they have in s.
  function Ties<K>(s: seq<Item<K>>, d: Data, gt: Greater): seq<Item<K>> {
    if s == [] then []
    else (if Tied(s[0].data, d, gt) then [s[0]] else []) + Ties(s[1..], d, gt)
  }

  function Reverse<A>(s: seq<A>): (r: seq<A>)
    ensures |r| == |s|
    ensures forall i :: 0 <= i < |s| ==> r[i] == s[|s| - 1 - i]
  {
    seq(|s|, i requires 0 <= i < |s| => s[|s| - 1 - i])
  }

  lemma {:induction false} MergeKeepsItems<K>(l: seq<Item<K>>, r: seq<Item<K>>, gt: Greater, ascend: bool)
    ensures multiset(Merge(l, r, gt, ascend)) == multiset(l) + multiset(r)
    decreases |l| + |r|
  {
    if r != [] && l != [] {
      if TakesLeft(l[0], r[0], gt, ascend) {
        MergeKeepsItems(l[1..], r, gt, ascend);
        assert l == [l[0]] + l[1..];
      } else {
        MergeKeepsItems(l, r[1..], gt, ascend);
        assert r == [r[0]] + r[1..];
      }
    }
  }

  // The sort is a permutation, for any comparator at all.
  lemma {:induction false} SortKeepsItems<K>(s: seq<Item<K>>, gt: Greater, ascend: bool)
    ensures multiset(Sort(s, gt, ascend)) == multiset(s)
    ensures |Sort(s, gt, ascend)| == |s|
  {
    if |s| >= 2 {
      var h := |s| / 2;
      SortKeepsItems(s[..h], gt, ascend);
      SortKeepsItems(s[h..], gt, ascend);
      MergeKeepsItems(Sort(s[..h], gt, ascend), Sort(s[h..], gt, ascend), gt, ascend);
      assert s == s[..h] + s[h..];
    }
    assert |multiset(Sort(s, gt, ascend))| == |Sort(s, gt, ascend)|;
    assert |multiset(s)| == |s|;
  }

  lemma FirstBoundsMerge<K>(x: Item<K>, l: seq<Item<K>>, r: seq<Item<K>>, gt: Greater, ascend: bool)
    requires forall y :: y in l || y in r ==> !gt(x.data, y.data) || !ascend
    requires forall y :: y in l || y in r ==> !gt(y.data, x.data) || ascend
    requires Ordered(Merge(l, r, gt, ascend), gt, ascend)
    ensures Ordered([x] + Merge(l, r, gt, ascend), gt, ascend)
  {
    MergeKeepsItems(l, r, gt, ascend);
    var m := Merge(l, r, gt, ascend);
    forall i | 0 <= i < |m| ensures m[i] in l || m[i] in r {
      assert m[i] in multiset(m);
    }
  }

  lemma {:induction false} MergeOrdered<K>(l: seq<Item<K>>, r: seq<Item<K>>, gt: Greater, ascend: bool)
    requires StrictWeakOrder(gt) && Ordered(l, gt, ascend) && Ordered(r, gt, ascend)
    ensures Ordered(Merge(l, r, gt, ascend), gt, ascend)
    decreases |l| + |r|
  {
    if r != [] && l != [] {
      if TakesLeft(l[0], r[0], gt, ascend) {
        MergeOrdered(l[1..], r, gt, ascend);
        FirstBoundsMerge(l[0], l[1..], r, gt, ascend);
      } else {
        MergeOrdered(l, r[1..], gt, ascend);
        FirstBoundsMerge(r[0], l, r[1..], gt, ascend);
      }
    }
  }

  lemma {:induction false} SortOrdered<K>(s: seq<Item<K>>, gt: Greater, ascend: bool)
    requires StrictWeakOrder(gt)
    ensures Ordered(Sort(s, gt, ascend), gt, ascend)
  {
    if |s| >= 2 {
      var h := |s| / 2;
      SortOrdered(s[..h], gt, ascend);
      SortOrdered(s[h..], gt, ascend);
      MergeOrdered(Sort(s[..h], gt, ascend), Sort(s[h..], gt, ascend), gt, ascend);
    }
  }

  lemma Associates<A>(a: seq<A>, b: seq<A>, c: seq<A>)
    ensures a + b + c == a + (b + c)
  {}

  lemma Swaps<A>(a: seq<A>, b: seq<A>, c: seq<A>)
    requires a == [] || b == []
    ensures a + (b + c) == b + (a + c)
  {
    assert a == [] ==> a + (b + c) == b + c && a + c == c;
    assert b == [] ==> b + c == c && b + (a + c) == a + c;
  }

  lemma {:induction false} TiesConcat<K>(s: seq<Item<K>>, t: seq<Item<K>>, d: Data, gt: Greater)
    ensures Ties(s + t, d, gt) == Ties(s, d, gt) + Ties(t, d, gt)
  {
    if s == [] {
      assert s + t == t;
    } else {
      TiesConcat(s[1..], t, d, gt);
      assert (s + t)[1..] == s[1..] + t;
      Associates(if Tied(s[0].data, d, gt) then [s[0]] else [], Ties(s[1..], d, gt), Ties(t, d, gt));
    }
  }

  lemma {:induction false} NoTies<K>(s: seq<Item<K>>, d: Data, gt: Greater)
    requires forall i :: 0 <= i < |s| ==> !Tied(s[i].data, d, gt)
    ensures Ties(s, d, gt) == []
  {
    if s != [] { NoTies(s[1..], d, gt); }
  }

  lemma TiesCons<K>(x: Item<K>, s: seq<Item<K>>, d: Data, gt: Greater)
    ensures Ties([x] + s, d, gt) == (if Tied(x.data, d, gt) then [x] else []) + Ties(s, d, gt)
  {
    assert ([x] + s)[1..] == s;
  }

  // When the merge passes over the head of the other half, that half has no ties with what it takes.
  lemma PassedOverHasNoTies<K>(x: Item<K>, other: seq<Item<K>>, d: Data, gt: Greater, ascend: bool)
    requires StrictWeakOrder(gt) && Ordered(other, gt, ascend) && other != []
    requires if ascend then gt(other[0].data, x.data) else gt(x.data, other[0].data)
    requires Tied(x.data, d, gt)
    ensures Ties(other, d, gt) == []
  {
    forall i | 0 <= i < |other| ensures !Tied(other[i].data, d, gt) {
      assert i > 0 ==> if ascend then !gt(other[0].data, other[i].data) else !gt(other[i].data, other[0].data);
    }
    NoTies(other, d, gt);
  }

  // Merging keeps ties in left-then-right order when ascending, right-then-left when descending.
  lemma {:induction false} MergeTies<K>(l: seq<Item<K>>, r: seq<Item<K>>, d: Data, gt: Greater, ascend: bool)
    requires StrictWeakOrder(gt) && Ordered(l, gt, ascend) && Ordered(r, gt, ascend)
    ensures Ties(Merge(l, r, gt, ascend), d, gt)
         == if ascend then Ties(l, d, gt) + Ties(r, d, gt) else Ties(r, d, gt) + Ties(l, d, gt)
    decreases |l| + |r|
  {
    if r != [] && l != [] {
      if TakesLeft(l[0], r[0], gt, ascend) {
        MergeTies(l[1..], r, d, gt, ascend);
        if !ascend && Tied(l[0].data, d, gt) { PassedOverHasNoTies(l[0], r, d, gt, ascend); }
        TakenTies(l, r, Merge(l[1..], r, gt, ascend), d, gt, ascend);
      } else {
        MergeTies(l, r[1..], d, gt, ascend);
        if ascend && Tied(r[0].data, d, gt) { PassedOverHasNoTies(r[0], l, d, gt, ascend); }
        TakenTies(r, l, Merge(l, r[1..], gt, ascend), d, gt, !ascend);
      }
    }
  }

  // The ties when the merge takes the head of s: those of s come first, or those of the other half.
  lemma TakenTies<K>(s: seq<Item<K>>, other: seq<Item<K>>, rest: seq<Item<K>>, d: Data, gt: Greater, first: bool)
    requires s != []
    requires Ties(rest, d, gt)
          == if first then Ties(s[1..], d, gt) + Ties(other, d, gt) else Ties(other, d, gt) + Ties(s[1..], d, gt)
    requires !first && Tied(s[0].data, d, gt) ==> Ties(other, d, gt) == []
    ensures Ties([s[0]] + rest, d, gt)
         == if first then Ties(s, d, gt) + Ties(other, d, gt) else Ties(other, d, gt) + Ties(s, d, gt)
  {
    var h := if Tied(s[0].data, d, gt) then [s[0]] else [];
    TiesCons(s[0], rest, d, gt);
    Associates(h, Ties(s[1..], d, gt), Ties(other, d, gt));
    if !first { Swaps(h, Ties(other, d, gt), Ties(s[1..], d, gt)); }
  }

  lemma TiesReverse<K>(s: seq<Item<K>>, d: Data, gt: Greater)
    ensures Ties(Reverse(s), d, gt) == Reverse(Ties(s, d, gt))
  {
    if s == [] {
    } else {
      assert Reverse(s) == Reverse(s[1..]) + [s[0]];
      TiesReverse(s[1..], d, gt);
      TiesConcat(Reverse(s[1..]), [s[0]], d, gt);
    }
  }

  lemma ReverseConcat<A>(s: seq<A>, t: seq<A>)
    ensures Reverse(s + t) == Reverse(t) + Reverse(s)
  {}

  lemma TiesOfFew<K>(s: seq<Item<K>>, d: Data, gt: Greater)
    requires |s| < 2
    ensures Reverse(Ties(s, d, gt)) == Ties(s, d, gt)
  {
    assert |s| == 1 ==> Ties(s[1..], d, gt) == [];
  }

  // What sorting does to ties when both halves are done.
  lemma TiesOfHalves<K>(s: seq<Item<K>>, l: seq<Item<K>>, r: seq<Item<K>>, d: Data, gt: Greater, ascend: bool)
    requires StrictWeakOrder(gt) && s == l + r
    requires Ties(Sort(l, gt, ascend), d, gt) == if ascend then Ties(l, d, gt) else Reverse(Ties(l, d, gt))
    requires Ties(Sort(r, gt, ascend), d, gt) == if ascend then Ties(r, d, gt) else Reverse(Ties(r, d, gt))
    ensures Ties(Merge(Sort(l, gt, ascend), Sort(r, gt, ascend), gt, ascend), d, gt)
         == if ascend then Ties(s, d, gt) else Reverse(Ties(s, d, gt))
  {
    SortOrdered(l, gt, ascend);
    SortOrdered(r, gt, ascend);
    MergeTies(Sort(l, gt, ascend), Sort(r, gt, ascend), d, gt, ascend);
    TiesConcat(l, r, d, gt);
    ReverseConcat(Ties(l, d, gt), Ties(r, d, gt));
  }

  // ASCEND is stable; DESCEND reverses every group of ties.
  lemma {:induction false} SortTies<K>(s: seq<Item<K>>, d: Data, gt: Greater, ascend: bool)
    requires StrictWeakOrder(gt)
    ensures Ties(Sort(s, gt, ascend), d, gt) == if ascend then Ties(s, d, gt) else Reverse(Ties(s, d, gt))
  {
    if |s| < 2 {
      TiesOfFew(s, d, gt);
    } else {
      var l, r := s[..|s| / 2], s[|s| / 2..];
      SortTies(l, d, gt, ascend);
      SortTies(r, d, gt, ascend);
      TiesOfHalves(s, l, r, d, gt, ascend);
    }
  }

  lemma {:induction false} TiesAreMembers<K>(s: seq<Item<K>>, d: Data, gt: Greater)
    ensures forall i :: 0 <= i < |Ties(s, d, gt)| ==> Ties(s, d, gt)[i] in s && Tied(Ties(s, d, gt)[i].data, d, gt)
  {
    if s != [] { TiesAreMembers(s[1..], d, gt); }
  }

  lemma FirstOfTies<K>(s: seq<Item<K>>, gt: Greater)
    requires StrictWeakOrder(gt) && s != []
    ensures Ties(s, s[0].data, gt) != [] && Ties(s, s[0].data, gt)[0] == s[0]
  {}

  lemma FirstIsLeast<K>(s: seq<Item<K>>, x: Item<K>, gt: Greater)
    requires StrictWeakOrder(gt) && Ordered(s, gt, true) && x in s
    ensures !gt(s[0].data, x.data)
  {
    var i :| 0 <= i < |s| && s[i] == x;
  }

  lemma {:induction false} SameTies<K>(a: Data, b: Data, s: seq<Item<K>>, gt: Greater)
    requires StrictWeakOrder(gt) && Tied(a, b, gt)
    ensures Ties(s, a, gt) == Ties(s, b, gt)
  {
    if s != [] { SameTies(a, b, s[1..], gt); }
  }

  // An ordered sequence is determined by its groups of ties.
  lemma {:induction false} OrderedIsUnique<K>(s: seq<Item<K>>, t: seq<Item<K>>, gt: Greater)
    requires StrictWeakOrder(gt) && Ordered(s, gt, true) && Ordered(t, gt, true)
    requires forall d :: Ties(s, d, gt) == Ties(t, d, gt)
    ensures s == t
  {
    if s == [] {
      if t != [] {
        FirstOfTies(t, gt);
        assert false;
      }
    } else {
      FirstOfTies(s, gt);
      assert Ties(s, s[0].data, gt) == Ties(t, s[0].data, gt);
      TiesAreMembers(t, s[0].data, gt);
      FirstOfTies(t, gt);
      assert Ties(s, t[0].data, gt) == Ties(t, t[0].data, gt);
      TiesAreMembers(s, t[0].data, gt);
      FirstIsLeast(s, t[0], gt);
      FirstIsLeast(t, s[0], gt);
      SameTies(s[0].data, t[0].data, s, gt);
      assert s == [s[0]] + s[1..] && t == [t[0]] + t[1..] && s[0] == t[0];
      forall d ensures Ties(s[1..], d, gt) == Ties(t[1..], d, gt) {
        assert Ties(s, d, gt) == Ties(t, d, gt);
        TiesCons(s[0], s[1..], d, gt);
        TiesCons(t[0], t[1..], d, gt);
        var k := if Tied(s[0].data, d, gt) then 1 else 0;
        assert Ties(s[1..], d, gt) == Ties(s, d, gt)[k..];
      }
      OrderedIsUnique(s[1..], t[1..], gt);
    }
  }

  // DESCEND gives exactly the reverse of ASCEND on the same list.
  lemma DescendIsReversedAscend<K>(s: seq<Item<K>>, gt: Greater)
    requires StrictWeakOrder(gt)
    ensures Sort(s, gt, false) == Reverse(Sort(s, gt, true))
  {
    var up, down := Sort(s, gt, true), Sort(s, gt, false);
    SortOrdered(s, gt, true);
    SortOrdered(s, gt, false);
    forall d ensures Ties(up, d, gt) == Ties(Reverse(down), d, gt) {
      SortTies(s, d, gt, true);
      SortTies(s, d, gt, false);
      TiesReverse(down, d, gt);
      assert Reverse(Reverse(Ties(s, d, gt))) == Ties(s, d, gt);
    }
    OrderedIsUnique(up, Reverse(down), gt);
    assert down == Reverse(Reverse(down));
  }
}
