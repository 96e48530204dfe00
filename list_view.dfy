/** The `bossListView` getter: derive a view per config, drop hidden ones and
    stable-sort the rest by card-order position. A pure function of
    (configs, kill states, event mode, now, card order). */
module ListView {
  import opened BossTypes
  import opened Countdown
  import opened CardOrder
  import opened StableSort

  /** `state.dbStates[config.id]`, absent when the boss has no state row. */
  function StateOf(states: map<string, BossState>, id: string): Option<BossState> {
    if id in states then Some(states[id]) else None
  }

  /** `configs.map(config => ...)` */
  function Derived(configs: seq<BossConfig>, states: map<string, BossState>, eventMode: bool, now: int): (vs: seq<BossView>)
    ensures |vs| == |configs|
    ensures forall i :: 0 <= i < |configs| ==>
      vs[i] == DeriveView(configs[i], StateOf(states, configs[i].id), eventMode, now)
  {
    if configs == [] then []
    else [DeriveView(configs[0], StateOf(states, configs[0].id), eventMode, now)]
         + Derived(configs[1..], states, eventMode, now)
  }

  /** `.filter(b => b.is_visible !== false)` on the views: exactly the
      visible ones, never more than there were. */
  function VisibleViews(vs: seq<BossView>): (r: seq<BossView>)
    ensures |r| <= |vs|
    ensures forall v :: v in r <==> v in vs && IsVisible(v.config)
  {
    if vs == [] then []
    else
      assert forall v :: v in vs <==> v == vs[0] || v in vs[1..];
      (if IsVisible(vs[0].config) then [vs[0]] else []) + VisibleViews(vs[1..])
  }

  /** The visible configs, in their order. */
  function VisibleConfigs(configs: seq<BossConfig>): seq<BossConfig> {
    if configs == [] then []
    else (if IsVisible(configs[0]) then [configs[0]] else []) + VisibleConfigs(configs[1..])
  }

  /** The sort key of a view: its id's card-order position, or 99999. */
  function ViewRank(m: map<string, int>): BossView -> int {
    (v: BossView) => Rank(m, v.config.id)
  }

  /** The `bossListView` getter: one view per visible config, in card-order
      position order, each derived from its config's kill state. */
  function BossListView(configs: seq<BossConfig>, states: map<string, BossState>, eventMode: bool,
                        now: int, cardOrder: seq<string>): (r: seq<BossView>)
    ensures |r| == |VisibleConfigs(configs)|
    ensures forall i, j :: 0 <= i < j < |r| ==>
      Rank(OrderMap(cardOrder), r[i].config.id) <= Rank(OrderMap(cardOrder), r[j].config.id)
    ensures forall v :: v in r ==>
      && v.config in configs && IsVisible(v.config)
      && v == DeriveView(v.config, StateOf(states, v.config.id), eventMode, now)
  {
    var r := Sort(VisibleViews(Derived(configs, states, eventMode, now)), ViewRank(OrderMap(cardOrder)));
    VisibleDerivedCommute(configs, states, eventMode, now);
    assert |r| == |multiset(r)|;
    PermutedViews(configs, states, eventMode, now, r);
    r
  }

  ghost predicate DistinctIds(vs: seq<BossView>) {
    forall i, j :: 0 <= i < j < |vs| ==> vs[i].config.id != vs[j].config.id
  }

  ghost predicate DistinctConfigIds(cs: seq<BossConfig>) {
    forall i, j :: 0 <= i < j < |cs| ==> cs[i].id != cs[j].id
  }

  /** Filtering views by visibility is deriving the views of the visible configs. */
  lemma {:induction false} VisibleDerivedCommute(configs: seq<BossConfig>, states: map<string, BossState>, eventMode: bool, now: int)
    ensures VisibleViews(Derived(configs, states, eventMode, now)) == Derived(VisibleConfigs(configs), states, eventMode, now)
  {
    if configs != [] {
      VisibleDerivedCommute(configs[1..], states, eventMode, now);
      var d := Derived(configs, states, eventMode, now);
      assert d[1..] == Derived(configs[1..], states, eventMode, now);
      if IsVisible(configs[0]) {
        assert Derived(VisibleConfigs(configs), states, eventMode, now)
            == [d[0]] + Derived(VisibleConfigs(configs[1..]), states, eventMode, now);
      }
    }
  }

  lemma {:induction false} VisibleConfigsMembers(configs: seq<BossConfig>, c: BossConfig)
    ensures c in VisibleConfigs(configs) <==> c in configs && IsVisible(c)
  {
    if configs != [] {
      VisibleConfigsMembers(configs[1..], c);
      assert c in configs <==> c == configs[0] || c in configs[1..];
    }
  }

  lemma {:induction false} VisibleConfigsDistinct(configs: seq<BossConfig>)
    requires DistinctConfigIds(configs)
    ensures DistinctConfigIds(VisibleConfigs(configs))
  {
    if configs != [] {
      VisibleConfigsDistinct(configs[1..]);
      var rest := VisibleConfigs(configs[1..]);
      forall c | c in rest ensures c.id != configs[0].id {
        VisibleConfigsMembers(configs[1..], c);
      }
      if IsVisible(configs[0]) {
        var v := VisibleConfigs(configs);
        assert v == [configs[0]] + rest;
        forall i, j | 0 <= i < j < |v| ensures v[i].id != v[j].id {
          if i == 0 {
            assert v[j] == rest[j - 1];
            assert v[j] in rest;
          } else {
            assert v[i] == rest[i - 1] && v[j] == rest[j - 1];
          }
        }
      }
    }
  }

  lemma DistinctRemove(b: seq<BossView>, p: int)
    requires DistinctIds(b) && 0 <= p < |b|
    ensures DistinctIds(b[..p] + b[p + 1..])
    ensures forall y :: y in b[..p] + b[p + 1..] ==> y.config.id != b[p].config.id
  {
    var b' := b[..p] + b[p + 1..];
    forall q | 0 <= q < |b'| ensures b'[q] == b[if q < p then q else q + 1] && b'[q].config.id != b[p].config.id {
    }
  }

  lemma DistinctCons(x: BossView, t: seq<BossView>)
    requires DistinctIds(t)
    requires forall y :: y in t ==> y.config.id != x.config.id
    ensures DistinctIds([x] + t)
  {
    var a := [x] + t;
    forall i, j | 0 <= i < j < |a| ensures a[i].config.id != a[j].config.id {
      assert a[j] == t[j - 1];
      if i > 0 {
        assert a[i] == t[i - 1];
      }
    }
  }

  lemma PermutationTail<T>(a: seq<T>, b: seq<T>, p: int)
    requires multiset(a) == multiset(b)
    requires a != [] && 0 <= p < |b| && b[p] == a[0]
    ensures multiset(a[1..]) == multiset(b[..p] + b[p + 1..])
  {
    assert b == b[..p] + [a[0]] + b[p + 1..];
    assert multiset(b) == multiset(b[..p]) + multiset{a[0]} + multiset(b[p + 1..]);
    assert a == [a[0]] + a[1..];
    assert multiset(a) == multiset{a[0]} + multiset(a[1..]);
    assert multiset(b[..p] + b[p + 1..]) == multiset(b[..p]) + multiset(b[p + 1..]);
    assert multiset(a[1..]) == multiset(a) - multiset{a[0]};
    assert multiset(b) - multiset{a[0]} == multiset(b[..p]) + multiset(b[p + 1..]);
  }

  /** A permutation of a list with distinct ids has distinct ids. */
  lemma {:induction false} PermutationKeepsDistinct(a: seq<BossView>, b: seq<BossView>)
    requires multiset(a) == multiset(b)
    requires DistinctIds(b)
    ensures DistinctIds(a)
    decreases |a|
  {
    if a != [] {
      var x := a[0];
      assert x in multiset(b);
      var p :| 0 <= p < |b| && b[p] == x;
      var b' := b[..p] + b[p + 1..];
      PermutationTail(a, b, p);
      DistinctRemove(b, p);
      PermutationKeepsDistinct(a[1..], b');
      forall y | y in a[1..] ensures y.config.id != x.config.id {
        assert y in multiset(b');
      }
      DistinctCons(x, a[1..]);
    }
  }

  /** What the view holds: exactly the views of the visible configs (as a
      multiset, so each once when ids are distinct), sorted non-decreasingly by
      card-order position, equal positions in config order; every view passes
      its config through and is derived from that config's kill state. */
  lemma ListViewContents(configs: seq<BossConfig>, states: map<string, BossState>, eventMode: bool,
                         now: int, cardOrder: seq<string>)
    ensures var r := BossListView(configs, states, eventMode, now, cardOrder);
      var m := OrderMap(cardOrder);
      var d := Derived(VisibleConfigs(configs), states, eventMode, now);
      && multiset(r) == multiset(d)
      && |r| == |VisibleConfigs(configs)|
      && (forall i, j :: 0 <= i < j < |r| ==> Rank(m, r[i].config.id) <= Rank(m, r[j].config.id))
      && (forall k :: WithKey(r, ViewRank(m), k) == WithKey(d, ViewRank(m), k))
      && (forall v :: v in r ==>
            && v.config in configs && IsVisible(v.config)
            && v == DeriveView(v.config, StateOf(states, v.config.id), eventMode, now))
  {
    var key := ViewRank(OrderMap(cardOrder));
    var d := Derived(VisibleConfigs(configs), states, eventMode, now);
    VisibleDerivedCommute(configs, states, eventMode, now);
    var r := Sort(d, key);
    assert r == BossListView(configs, states, eventMode, now, cardOrder);
    forall k ensures WithKey(r, key, k) == WithKey(d, key, k) {
      SortIsStable(d, key, k);
    }
    PermutedViews(configs, states, eventMode, now, r);
  }

  /** Every member of a permutation of the visible configs' views passes its
      config through and is derived from that config's kill state. */
  lemma PermutedViews(configs: seq<BossConfig>, states: map<string, BossState>, eventMode: bool,
                      now: int, r: seq<BossView>)
    requires multiset(r) == multiset(Derived(VisibleConfigs(configs), states, eventMode, now))
    ensures forall v :: v in r ==>
      && v.config in configs && IsVisible(v.config)
      && v == DeriveView(v.config, StateOf(states, v.config.id), eventMode, now)
  {
    var d := Derived(VisibleConfigs(configs), states, eventMode, now);
    forall v | v in r
      ensures v.config in configs && IsVisible(v.config)
      ensures v == DeriveView(v.config, StateOf(states, v.config.id), eventMode, now)
    {
      assert v in multiset(d);
      var i :| 0 <= i < |d| && d[i] == v;
      var c := VisibleConfigs(configs)[i];
      VisibleConfigsMembers(configs, c);
    }
  }

  /** The view is THE stable sort of the visible views by card-order position:
      any list sorted by position that keeps config order among equal
      positions is equal to it. */
  lemma ListViewIsStableSort(configs: seq<BossConfig>, states: map<string, BossState>, eventMode: bool,
                             now: int, cardOrder: seq<string>, s: seq<BossView>)
    requires SortedBy(s, ViewRank(OrderMap(cardOrder)))
    requires forall k :: WithKey(s, ViewRank(OrderMap(cardOrder)), k)
                      == WithKey(Derived(VisibleConfigs(configs), states, eventMode, now), ViewRank(OrderMap(cardOrder)), k)
    ensures s == BossListView(configs, states, eventMode, now, cardOrder)
  {
    var key := ViewRank(OrderMap(cardOrder));
    var r := BossListView(configs, states, eventMode, now, cardOrder);
    ListViewContents(configs, states, eventMode, now, cardOrder);
    SortedUnique(s, r, key);
  }

  /** With fewer than 99999 listed positions, every view whose id is in the
      card order comes before every view whose id is not. */
  lemma ListedBeforeUnlisted(configs: seq<BossConfig>, states: map<string, BossState>, eventMode: bool,
                             now: int, cardOrder: seq<string>)
    requires |cardOrder| <= Unlisted
    ensures var r := BossListView(configs, states, eventMode, now, cardOrder);
      forall i, j :: 0 <= i < |r| && 0 <= j < |r| && r[i].config.id in cardOrder && r[j].config.id !in cardOrder ==> i < j
  {
    var m := OrderMap(cardOrder);
    var key := ViewRank(m);
    var r := BossListView(configs, states, eventMode, now, cardOrder);
    SortedSplit(r, key, Unlisted);
    forall v: BossView
      ensures v.config.id in cardOrder ==> key(v) < Unlisted
      ensures v.config.id !in cardOrder ==> key(v) >= Unlisted
    {
    }
  }

  /** After `updatePartialOrder(subset)` (subset ids distinct), the view shows
      the subset's bosses in the subset's order, each after every boss listed
      only in the old order. */
  lemma ReorderedSubsetView(configs: seq<BossConfig>, states: map<string, BossState>, eventMode: bool,
                            now: int, order: seq<string>, subset: seq<string>)
    requires forall i, j :: 0 <= i < j < |subset| ==> subset[i] != subset[j]
    ensures var r := BossListView(configs, states, eventMode, now, PartialOrderMerge(order, subset));
      && (forall i, j, a, b :: (0 <= i < |r| && 0 <= j < |r| && 0 <= a < b < |subset|
                               && r[i].config.id == subset[a] && r[j].config.id == subset[b]) ==> i < j)
      && (forall i, j :: (0 <= i < |r| && 0 <= j < |r| && r[i].config.id in order && r[i].config.id !in subset
                          && r[j].config.id in subset) ==> i < j)
  {
    var r := BossListView(configs, states, eventMode, now, PartialOrderMerge(order, subset));
    SortedByMergedOrder(r, order, subset);
  }

  /** The same for any list sorted by the merged order's positions. */
  lemma SortedByMergedOrder(r: seq<BossView>, order: seq<string>, subset: seq<string>)
    requires forall i, j :: 0 <= i < j < |subset| ==> subset[i] != subset[j]
    requires SortedBy(r, ViewRank(OrderMap(PartialOrderMerge(order, subset))))
    ensures forall i, j, a, b :: (0 <= i < |r| && 0 <= j < |r| && 0 <= a < b < |subset|
                                  && r[i].config.id == subset[a] && r[j].config.id == subset[b]) ==> i < j
    ensures forall i, j :: (0 <= i < |r| && 0 <= j < |r| && r[i].config.id in order && r[i].config.id !in subset
                            && r[j].config.id in subset) ==> i < j
  {
    var m := OrderMap(PartialOrderMerge(order, subset));
    var key := ViewRank(m);
    MergeRanks(order, subset);
    SortedKeysOrder(r, key);
    forall i, j, a, b | 0 <= i < |r| && 0 <= j < |r| && 0 <= a < b < |subset|
                        && r[i].config.id == subset[a] && r[j].config.id == subset[b]
      ensures i < j
    {
      assert key(r[i]) == Rank(m, subset[a]) < Rank(m, subset[b]) == key(r[j]);
    }
    forall i, j | 0 <= i < |r| && 0 <= j < |r| && r[i].config.id in order && r[i].config.id !in subset
                  && r[j].config.id in subset
      ensures i < j
    {
      var b :| 0 <= b < |subset| && subset[b] == r[j].config.id;
      assert key(r[i]) == Rank(m, r[i].config.id) < Rank(m, subset[b]) == key(r[j]);
    }
  }

  /** Distinct config ids give a view with distinct ids. */
  lemma ListViewDistinct(configs: seq<BossConfig>, states: map<string, BossState>, eventMode: bool,
                         now: int, cardOrder: seq<string>)
    requires DistinctConfigIds(configs)
    ensures DistinctIds(BossListView(configs, states, eventMode, now, cardOrder))
  {
    var vc := VisibleConfigs(configs);
    var d := Derived(vc, states, eventMode, now);
    VisibleConfigsDistinct(configs);
    assert DistinctIds(d) by {
      forall i, j | 0 <= i < j < |d| ensures d[i].config.id != d[j].config.id {
        assert d[i].config == vc[i] && d[j].config == vc[j];
      }
    }
    ListViewContents(configs, states, eventMode, now, cardOrder);
    PermutationKeepsDistinct(BossListView(configs, states, eventMode, now, cardOrder), d);
  }
}
