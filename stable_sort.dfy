/** A stable sort by an integer key, standing for `Array.prototype.sort` with the
    comparator `(a, b) => key(a) - key(b)` (stable since ECMAScript 2019).
    `SortedUnique` shows that sortedness and stability determine the result, so
    this insertion sort yields the same list as any other stable sort. */
module StableSort {

  ghost predicate SortedBy<T>(s: seq<T>, key: T -> int) {
    forall i, j :: 0 <= i < j < |s| ==> key(s[i]) <= key(s[j])
  }

  /** The elements of `s` whose key is `k`, in their order in `s`. */
  function WithKey<T>(s: seq<T>, key: T -> int, k: int): seq<T> {
    if s == [] then [] else (if key(s[0]) == k then [s[0]] else []) + WithKey(s[1..], key, k)
  }

  /** Inserts `x` before the first element whose key is not smaller. */
  function Insert<T>(x: T, s: seq<T>, key: T -> int): (r: seq<T>)
    ensures multiset(r) == multiset(s) + multiset{x}
  {
    if s == [] || key(x) <= key(s[0]) then [x] + s
    else
      assert s == [s[0]] + s[1..];
      [s[0]] + Insert(x, s[1..], key)
  }

  /** Inserting into a sorted list keeps it sorted. */
  lemma {:induction false} InsertSorted<T>(x: T, s: seq<T>, key: T -> int)
    requires SortedBy(s, key)
    ensures SortedBy(Insert(x, s, key), key)
  {
    SortedHead(s, key);
    if s == [] || key(x) <= key(s[0]) {
      SortedCons(x, s, key);
    } else {
      var rest := Insert(x, s[1..], key);
      InsertSorted(x, s[1..], key);
      forall y | y in rest ensures key(s[0]) <= key(y) {
        assert y in multiset(rest);
      }
      SortedCons(s[0], rest, key);
    }
  }

  /** In a sorted list every element keyed below `bound` comes before every
      element keyed at or above it. */
  lemma SortedSplit<T>(r: seq<T>, key: T -> int, bound: int)
    requires SortedBy(r, key)
    ensures forall i, j :: 0 <= i < |r| && 0 <= j < |r| && key(r[i]) < bound <= key(r[j]) ==> i < j
  {
  }

  /** In a sorted list an element with a smaller key comes first. */
  lemma SortedKeysOrder<T>(r: seq<T>, key: T -> int)
    requires SortedBy(r, key)
    ensures forall i, j :: 0 <= i < |r| && 0 <= j < |r| && key(r[i]) < key(r[j]) ==> i < j
  {
  }

  /** The head of a sorted list has the least key, and its tail is sorted. */
  lemma SortedHead<T>(s: seq<T>, key: T -> int)
    requires SortedBy(s, key)
    ensures s != [] ==> SortedBy(s[1..], key)
    ensures s != [] ==> forall y :: y in s[1..] ==> key(s[0]) <= key(y)
  {
    if s != [] {
      forall y | y in s[1..] ensures key(s[0]) <= key(y) {
        var j :| 0 <= j < |s[1..]| && s[1..][j] == y;
        assert s[j + 1] == y;
      }
    }
  }

  lemma SortedCons<T>(h: T, t: seq<T>, key: T -> int)
    requires SortedBy(t, key)
    requires forall y :: y in t ==> key(h) <= key(y)
    ensures SortedBy([h] + t, key)
  {
    var a := [h] + t;
    forall i, j | 0 <= i < j < |a| ensures key(a[i]) <= key(a[j]) {
      assert a[j] == t[j - 1];
      if i > 0 {
        assert a[i] == t[i - 1];
      } else {
        assert a[j] in t;
      }
    }
  }

  function Sort<T>(s: seq<T>, key: T -> int): (r: seq<T>)
    ensures multiset(r) == multiset(s)
    ensures |r| == |s|
    ensures SortedBy(r, key)
  {
    if s == [] then []
    else
      assert s == [s[0]] + s[1..];
      var t := Sort(s[1..], key);
      InsertSorted(s[0], t, key);
      Insert(s[0], t, key)
  }

  lemma {:induction false} WithKeyAppend<T>(a: seq<T>, b: seq<T>, key: T -> int, k: int)
    ensures WithKey(a + b, key, k) == WithKey(a, key, k) + WithKey(b, key, k)
  {
    if a == [] {
      assert a + b == b;
    } else {
      var ab := a + b;
      assert ab[0] == a[0] && ab[1..] == a[1..] + b;
      WithKeyAppend(a[1..], b, key, k);
      var h := if key(a[0]) == k then [a[0]] else [];
      var ta, tb := WithKey(a[1..], key, k), WithKey(b, key, k);
      assert WithKey(ab, key, k) == h + (ta + tb);
      assert WithKey(a, key, k) == h + ta;
      assert h + (ta + tb) == (h + ta) + tb;
    }
  }

  lemma {:induction false} WithKeyMembers<T>(s: seq<T>, key: T -> int, k: int, y: T)
    ensures y in WithKey(s, key, k) <==> y in s && key(y) == k
  {
    if s != [] {
      WithKeyMembers(s[1..], key, k, y);
      assert y in s <==> y == s[0] || y in s[1..];
    }
  }

  lemma {:induction false} InsertWithKey<T>(x: T, s: seq<T>, key: T -> int, k: int)
    ensures WithKey(Insert(x, s, key), key, k) == (if key(x) == k then [x] else []) + WithKey(s, key, k)
  {
    if s == [] || key(x) <= key(s[0]) {
      WithKeyAppend([x], s, key, k);
    } else {
      InsertWithKey(x, s[1..], key, k);
      WithKeyAppend([s[0]], Insert(x, s[1..], key), key, k);
    }
  }

  /** Stability: among elements with equal keys, `Sort` keeps the input order. */
  lemma {:induction false} SortIsStable<T>(s: seq<T>, key: T -> int, k: int)
    ensures WithKey(Sort(s, key), key, k) == WithKey(s, key, k)
  {
    if s != [] {
      SortIsStable(s[1..], key, k);
      InsertWithKey(s[0], Sort(s[1..], key), key, k);
    }
  }

  /** In a sorted list the first element with the smallest key comes first. */
  lemma HeadsEqual<T>(a: seq<T>, b: seq<T>, key: T -> int)
    requires a != [] && b != []
    requires SortedBy(a, key) && SortedBy(b, key)
    requires WithKey(a, key, key(a[0])) == WithKey(b, key, key(a[0]))
    requires WithKey(a, key, key(b[0])) == WithKey(b, key, key(b[0]))
    ensures a[0] == b[0]
  {
    var ka, kb := key(a[0]), key(b[0]);
    WithKeyMembers(a, key, kb, b[0]);
    WithKeyMembers(b, key, kb, b[0]);
    WithKeyMembers(b, key, ka, a[0]);
    WithKeyMembers(a, key, ka, a[0]);
    assert ka == kb;
    assert WithKey(a, key, ka)[0] == a[0];
    assert WithKey(b, key, kb)[0] == b[0];
  }

  lemma TailsAgree<T>(a: seq<T>, b: seq<T>, key: T -> int, k: int)
    requires a != [] && b != [] && a[0] == b[0]
    requires WithKey(a, key, k) == WithKey(b, key, k)
    ensures WithKey(a[1..], key, k) == WithKey(b[1..], key, k)
  {
    var h := if key(a[0]) == k then [a[0]] else [];
    assert (h + WithKey(a[1..], key, k))[|h|..] == WithKey(a[1..], key, k);
    assert (h + WithKey(b[1..], key, k))[|h|..] == WithKey(b[1..], key, k);
  }

  lemma NoKeysIsEmpty<T>(s: seq<T>, key: T -> int)
    requires forall k :: WithKey(s, key, k) == []
    ensures s == []
  {
    assert s != [] ==> WithKey(s, key, key(s[0])) != [];
  }

  /** Two lists sorted by `key` that agree on the order of each key's elements
      are equal: a stable sort has only one possible result. */
  lemma {:induction false} SortedUnique<T>(a: seq<T>, b: seq<T>, key: T -> int)
    requires SortedBy(a, key) && SortedBy(b, key)
    requires forall k :: WithKey(a, key, k) == WithKey(b, key, k)
    ensures a == b
  {
    if a == [] {
      NoKeysIsEmpty(b, key);
    } else if b == [] {
      NoKeysIsEmpty(a, key);
    } else {
      HeadsEqual(a, b, key);
      forall k ensures WithKey(a[1..], key, k) == WithKey(b[1..], key, k) {
        TailsAgree(a, b, key, k);
      }
      SortedUnique(a[1..], b[1..], key);
      assert a == [a[0]] + a[1..];
      assert b == [b[0]] + b[1..];
    }
  }
}
