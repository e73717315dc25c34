/** Lists of slot numbers, as the memory slots and the resolver keep them. */
module SlotLists {

  // A list without one of its slots; DLinkedListDelete leaves the list alone when the slot is elsewhere.
  function Without(s: seq<nat>, id: nat): seq<nat> {
    if s == [] then [] else if s[0] == id then s[1..] else [s[0]] + Without(s[1..], id)
  }

  predicate Distinct(s: seq<nat>) { forall i, j :: 0 <= i < j < |s| ==> s[i] != s[j] }

  predicate Below(ids: seq<nat>, n: nat) { forall i :: 0 <= i < |ids| ==> ids[i] < n }

  lemma {:induction false} MembersWithout(s: seq<nat>, id: nat)
    requires Distinct(s)
    ensures forall x :: x in Without(s, id) <==> x in s && x != id
  {
    if s != [] {
      assert s == [s[0]] + s[1..];
      if s[0] != id { MembersWithout(s[1..], id); }
    }
  }

  lemma {:induction false} DistinctWithout(s: seq<nat>, id: nat)
    requires Distinct(s)
    ensures Distinct(Without(s, id))
  {
    if s != [] && s[0] != id {
      DistinctWithout(s[1..], id);
      MembersWithout(s[1..], id);
      FirstApart(s[0], Without(s[1..], id));
    }
  }

  lemma FirstApart(x: nat, s: seq<nat>)
    requires Distinct(s) && x !in s
    ensures Distinct([x] + s)
  {}

  lemma {:induction false} NotThere(s: seq<nat>, id: nat)
    requires id !in s
    ensures Without(s, id) == s
  {
    if s != [] { NotThere(s[1..], id); }
  }

  lemma WithoutFacts(s: seq<nat>, id: nat)
    requires Distinct(s)
    ensures Distinct(Without(s, id)) && forall x :: x in Without(s, id) <==> x in s && x != id
    ensures id !in s ==> Without(s, id) == s
  {
    MembersWithout(s, id);
    DistinctWithout(s, id);
    if id !in s { NotThere(s, id); }
  }

  lemma {:induction false} ShorterWithout(s: seq<nat>, id: nat)
    ensures id in s ==> |Without(s, id)| == |s| - 1
    ensures id !in s ==> Without(s, id) == s
  {
    if s != [] && s[0] != id { ShorterWithout(s[1..], id); }
  }

  lemma {:induction false} BelowWithout(s: seq<nat>, id: nat, n: nat)
    requires Below(s, n)
    ensures Below(Without(s, id), n)
  {
    if s != [] && s[0] != id { BelowWithout(s[1..], id, n); }
  }

  lemma WithoutFirst(s: seq<nat>)
    requires s != []
    ensures Without(s, s[0]) == s[1..]
  {}

  lemma FirstTaken(s: seq<nat>)
    requires s != [] && Distinct(s)
    ensures s[0] in s && Distinct(s[1..]) && forall x :: x in s[1..] <==> x in s && x != s[0]
  {
    assert s == [s[0]] + s[1..];
  }

  lemma LastTaken(s: seq<nat>)
    requires s != [] && Distinct(s)
    ensures var id, rest := s[|s| - 1], s[..|s| - 1];
            id in s && Distinct(rest) && forall x :: x in rest <==> x in s && x != id
  {
    var rest := s[..|s| - 1];
    assert s == rest + [s[|s| - 1]];
    assert forall i :: 0 <= i < |rest| ==> rest[i] == s[i];
  }

  lemma Appended(ids: seq<nat>, id: nat)
    requires Distinct(ids) && id !in ids
    ensures Distinct(ids + [id]) && forall x :: x in ids + [id] <==> x in ids || x == id
  {}

  lemma Prepended(ids: seq<nat>, id: nat)
    requires Distinct(ids) && id !in ids
    ensures Distinct([id] + ids) && forall x :: x in [id] + ids <==> x in ids || x == id
  {}
}
