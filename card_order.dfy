/** The user's card order: the id-to-position map the view sorts by, and the
    merge of a reordered subset into the full order (`updatePartialOrder`). */
module CardOrder {

  /** The sort key of an id missing from the card order. */
  const Unlisted: int := 99999

  /** `new Map(cardOrder.map((id, index) => [id, index]))`: every listed id
      maps to the index of its LAST occurrence. */
  function OrderMap(order: seq<string>): (m: map<string, int>)
    ensures forall id :: id in m <==> id in order
    ensures forall id :: id in m ==> 0 <= m[id] < |order| && order[m[id]] == id
    ensures forall id, j :: id in m && m[id] < j < |order| ==> order[j] != id
  {
    if order == [] then map[]
    else
      var n := |order| - 1;
      assert forall id :: id in order[..n] || id == order[n] <==> id in order by {
        assert order == order[..n] + [order[n]];
      }
      OrderMap(order[..n])[order[n] := n]
  }

  /** The position used as sort key: the map entry, or 99999 when unlisted. */
  function Rank(m: map<string, int>, id: string): (k: int)
    ensures id in m ==> k == m[id]
    ensures id !in m ==> k == Unlisted
  {
    if id in m then m[id] else Unlisted
  }

  /** `order.filter(id => !subset.includes(id))`: exactly the ids of the
      order that are not in the subset, never more than the order had. */
  function Without(order: seq<string>, subset: seq<string>): (r: seq<string>)
    ensures |r| <= |order|
    ensures forall x :: x in r <==> x in order && x !in subset
  {
    if order == [] then []
    else
      assert forall x :: x in order <==> x == order[0] || x in order[1..];
      (if order[0] in subset then [] else [order[0]]) + Without(order[1..], subset)
  }

  /** `a` is `b` with some elements removed and the rest in the same order. */
  predicate Subsequence(a: seq<string>, b: seq<string>)
    decreases |b|
  {
    if a == [] then true
    else if b == [] then false
    else if a[0] == b[0] then Subsequence(a[1..], b[1..])
    else Subsequence(a, b[1..])
  }

  /** The new full order of `updatePartialOrder(subset)`: the old order with
      the subset's ids removed, followed by the subset in its new order. */
  function PartialOrderMerge(order: seq<string>, subset: seq<string>): (r: seq<string>)
    ensures |subset| <= |r| <= |order| + |subset|
    ensures subset == [] ==> r == order
    ensures (forall x :: x in order ==> x in subset) ==> r == subset
  {
    assert subset == [] ==> Without(order, subset) == order by {
      if subset == [] {
        WithoutDisjoint(order, subset);
      }
    }
    assert (forall x :: x in order ==> x in subset) ==> Without(order, subset) == [] by {
      if forall x :: x in order ==> x in subset {
        WithoutCovered(order, subset);
      }
    }
    Without(order, subset) + subset
  }

  lemma {:induction false} WithoutMembers(order: seq<string>, subset: seq<string>, x: string)
    ensures x in Without(order, subset) <==> x in order && x !in subset
  {
    if order != [] {
      WithoutMembers(order[1..], subset, x);
      assert x in order <==> x == order[0] || x in order[1..];
    }
  }

  /** The filter keeps every occurrence of a kept id: each id not in the
      subset appears as often as in the old order, a subset id never. */
  lemma {:induction false} WithoutCounts(order: seq<string>, subset: seq<string>)
    ensures forall x :: multiset(Without(order, subset))[x] == (if x in subset then 0 else multiset(order)[x])
  {
    if order != [] {
      WithoutCounts(order[1..], subset);
      assert order == [order[0]] + order[1..];
    }
  }

  lemma {:induction false} WithoutIsSubsequence(order: seq<string>, subset: seq<string>)
    ensures Subsequence(Without(order, subset), order)
  {
    if order != [] {
      var rest := Without(order[1..], subset);
      WithoutIsSubsequence(order[1..], subset);
      if order[0] !in subset {
        assert Without(order, subset) == [order[0]] + rest;
      } else {
        assert Without(order, subset) == rest;
        if rest != [] {
          WithoutMembers(order[1..], subset, rest[0]);
          assert rest[0] != order[0];
        }
      }
    }
  }

  lemma {:induction false} WithoutAppend(a: seq<string>, b: seq<string>, subset: seq<string>)
    ensures Without(a + b, subset) == Without(a, subset) + Without(b, subset)
  {
    if a == [] {
      assert a + b == b;
    } else {
      assert (a + b)[0] == a[0];
      assert (a + b)[1..] == a[1..] + b;
      WithoutAppend(a[1..], b, subset);
    }
  }

  lemma {:induction false} WithoutCovered(a: seq<string>, subset: seq<string>)
    requires forall x :: x in a ==> x in subset
    ensures Without(a, subset) == []
  {
    if a != [] {
      WithoutCovered(a[1..], subset);
    }
  }

  lemma {:induction false} WithoutDisjoint(a: seq<string>, subset: seq<string>)
    requires forall x :: x in a ==> x !in subset
    ensures Without(a, subset) == a
  {
    if a != [] {
      WithoutDisjoint(a[1..], subset);
      assert a == [a[0]] + a[1..];
    }
  }

  /** The merged order holds exactly the old ids and the subset's ids; the
      ids kept from the old order keep their relative order. */
  lemma MergeContents(order: seq<string>, subset: seq<string>)
    ensures var r := PartialOrderMerge(order, subset);
      && r[|r| - |subset|..] == subset
      && Subsequence(r[..|r| - |subset|], order)
      && (forall x :: x in r[..|r| - |subset|] <==> x in order && x !in subset)
      && (forall x :: multiset(r[..|r| - |subset|])[x] == (if x in subset then 0 else multiset(order)[x]))
      && (forall x :: x in r <==> x in order || x in subset)
  {
    var others := Without(order, subset);
    var r := others + subset;
    assert r[..|r| - |subset|] == others;
    assert r[|r| - |subset|..] == subset;
    WithoutIsSubsequence(order, subset);
    WithoutCounts(order, subset);
    forall x ensures x in others <==> x in order && x !in subset {
      WithoutMembers(order, subset, x);
    }
  }

  /** Applying the same reordered subset twice changes nothing the second time. */
  lemma MergeIdempotent(order: seq<string>, subset: seq<string>)
    ensures PartialOrderMerge(PartialOrderMerge(order, subset), subset) == PartialOrderMerge(order, subset)
  {
    var others := Without(order, subset);
    var merged := PartialOrderMerge(order, subset);
    assert merged == others + subset;
    WithoutAppend(others, subset, subset);
    WithoutDisjoint(others, subset);
    WithoutCovered(subset, subset);
    assert Without(merged, subset) == others;
  }

  /** After the merge every subset id sorts after every other id, and the
      subset's ids sort in the subset's order (ids of the subset distinct). */
  lemma MergeRanks(order: seq<string>, subset: seq<string>)
    requires forall i, j :: 0 <= i < j < |subset| ==> subset[i] != subset[j]
    ensures var m := OrderMap(PartialOrderMerge(order, subset));
      && (forall i :: 0 <= i < |subset| ==> Rank(m, subset[i]) == |Without(order, subset)| + i)
      && (forall i, j :: 0 <= i < j < |subset| ==> Rank(m, subset[i]) < Rank(m, subset[j]))
      && (forall x, i :: x in order && x !in subset && 0 <= i < |subset| ==> Rank(m, x) < Rank(m, subset[i]))
  {
    var others := Without(order, subset);
    var r := others + subset;
    var m := OrderMap(r);
    forall i | 0 <= i < |subset| ensures Rank(m, subset[i]) == |others| + i {
      var id := subset[i];
      assert r[|others| + i] == id;
      assert id in m;
    }
    forall x, i | x in order && x !in subset && 0 <= i < |subset| ensures Rank(m, x) < Rank(m, subset[i]) {
      assert x in r;
    }
  }

  /** The worked example: [A,B,C,D,E] with the subset [D,B] gives [A,C,E,D,B]. */
  lemma MergeExample()
    ensures PartialOrderMerge(["A", "B", "C", "D", "E"], ["D", "B"]) == ["A", "C", "E", "D", "B"]
  {
    var s := ["D", "B"];
    var o := ["A", "B", "C", "D", "E"];
    WithoutExampleTail();
    assert o[1..] == ["B", "C", "D", "E"] && o[1..][1..] == ["C", "D", "E"];
    assert "A" !in s && "B" in s;
    assert Without(o[1..], s) == ["C", "E"];
    assert Without(o, s) == ["A", "C", "E"];
  }

  /** The filter step of the worked example on its last three ids. */
  lemma WithoutExampleTail()
    ensures Without(["C", "D", "E"], ["D", "B"]) == ["C", "E"]
  {
    var s := ["D", "B"];
    var o := ["C", "D", "E"];
    assert o[1..] == ["D", "E"] && o[2..] == ["E"] && o[3..] == [];
    assert "C" !in s && "D" in s && "E" !in s;
    assert Without(o[2..], s) == ["E"];
    assert Without(o[1..], s) == ["E"];
  }
}
