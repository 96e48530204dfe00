/** The kill-state map (`dbStates`) and the three single-field mutations with
    optimistic update and rollback, stated on values; `Store.BossStore`
    performs them in place. Also the state map `fetchStates` builds. */
module KillState {
  import opened BossTypes

  /** The number of colour tags; `color_index` cycles through 0..5. */
  const ColorCount: int := 6

  /** The entry a mutation creates for a boss that has none. */
  function DefaultState(id: string): BossState {
    BossState(id, None, false, 0)
  }

  /** The entry a mutation edits: the existing one, or the default it creates. */
  function EntryFor(states: map<string, BossState>, id: string): BossState {
    if id in states then states[id] else DefaultState(id)
  }

  /** The map after the "create a default entry if missing" step alone. */
  function WithEntry(states: map<string, BossState>, id: string): map<string, BossState> {
    if id in states then states else states[id := DefaultState(id)]
  }

  /** Every entry is keyed by its own boss id. */
  ghost predicate Keyed(states: map<string, BossState>) {
    forall id :: id in states ==> states[id].bossId == id
  }

  /** Every colour tag is one of the six. */
  ghost predicate ColorsInRange(states: map<string, BossState>) {
    forall id :: id in states ==> 0 <= states[id].colorIndex < ColorCount
  }

  /** JavaScript's `%`: the remainder truncated toward zero, with the sign of the dividend. */
  function JsRem(a: int, b: int): (r: int)
    requires b > 0
    ensures a >= 0 ==> 0 <= r < b && r == a % b
    ensures a < 0 ==> -b < r <= 0
  {
    if a >= 0 then a % b else -((-a) % b)
  }

  /** `(current + 1) % 6`: a tag in 0..5 advances by one and 5 wraps to 0;
      the result is in 0..5 for every non-negative tag. */
  function NextColor(c: int): (r: int)
    ensures 0 <= c ==> 0 <= r < ColorCount
    ensures 0 <= c < ColorCount - 1 ==> r == c + 1
    ensures c == ColorCount - 1 ==> r == 0
    ensures c < -1 ==> -ColorCount < r <= 0
  {
    JsRem(c + 1, ColorCount)
  }

  /** Entries equal in every field but `is_pinned`, etc. */
  predicate SameButPin(a: BossState, b: BossState) {
    a.bossId == b.bossId && a.lastKilledAt == b.lastKilledAt && a.colorIndex == b.colorIndex
  }

  predicate SameButKill(a: BossState, b: BossState) {
    a.bossId == b.bossId && a.isPinned == b.isPinned && a.colorIndex == b.colorIndex
  }

  predicate SameButColor(a: BossState, b: BossState) {
    a.bossId == b.bossId && a.lastKilledAt == b.lastKilledAt && a.isPinned == b.isPinned
  }

  /** `togglePin`: after the upsert settles, saved or rolled back. */
  function AfterTogglePin(states: map<string, BossState>, id: string, saved: bool): (r: map<string, BossState>)
    ensures r.Keys == states.Keys + {id}
    ensures forall other :: other in states && other != id ==> r[other] == states[other]
    ensures SameButPin(r[id], EntryFor(states, id))
    ensures r[id].isPinned == (if saved then !EntryFor(states, id).isPinned else EntryFor(states, id).isPinned)
  {
    var e := EntryFor(states, id);
    states[id := if saved then e.(isPinned := !e.isPinned) else e]
  }

  /** `updateKillTime` with a valid time value `killedAt` (ms). */
  function AfterKillTime(states: map<string, BossState>, id: string, killedAt: int, saved: bool): (r: map<string, BossState>)
    ensures r.Keys == states.Keys + {id}
    ensures forall other :: other in states && other != id ==> r[other] == states[other]
    ensures SameButKill(r[id], EntryFor(states, id))
    ensures r[id].lastKilledAt == (if saved then Some(killedAt) else EntryFor(states, id).lastKilledAt)
  {
    var e := EntryFor(states, id);
    states[id := if saved then e.(lastKilledAt := Some(killedAt)) else e]
  }

  /** `cycleBossColor` */
  function AfterCycleColor(states: map<string, BossState>, id: string, saved: bool): (r: map<string, BossState>)
    ensures r.Keys == states.Keys + {id}
    ensures forall other :: other in states && other != id ==> r[other] == states[other]
    ensures SameButColor(r[id], EntryFor(states, id))
    ensures r[id].colorIndex == (if saved then NextColor(EntryFor(states, id).colorIndex) else EntryFor(states, id).colorIndex)
  {
    var e := EntryFor(states, id);
    states[id := if saved then e.(colorIndex := NextColor(e.colorIndex)) else e]
  }

  /** A failed upsert leaves only the created default entry behind, whichever
      mutation it was. */
  lemma FailureOnlyCreatesEntry(states: map<string, BossState>, id: string, killedAt: int)
    ensures AfterTogglePin(states, id, false) == WithEntry(states, id)
    ensures AfterKillTime(states, id, killedAt, false) == WithEntry(states, id)
    ensures AfterCycleColor(states, id, false) == WithEntry(states, id)
  {
  }

  /** Two saved toggles give back the pin flag (of the created entry, if any). */
  lemma TogglePinTwice(states: map<string, BossState>, id: string)
    ensures AfterTogglePin(AfterTogglePin(states, id, true), id, true) == WithEntry(states, id)
  {
    var once := AfterTogglePin(states, id, true);
    assert EntryFor(once, id) == once[id];
  }

  /** A colour in 0..5 moves to the next one, wrapping 5 to 0, and six saved
      cycles return to it. A negative colour moves toward zero. */
  lemma NextColorCycles(c: int)
    ensures 0 <= c < ColorCount ==> NextColor(c) == (if c == ColorCount - 1 then 0 else c + 1)
    ensures 0 <= c < ColorCount ==> NextColor(NextColor(NextColor(NextColor(NextColor(NextColor(c)))))) == c
    ensures -ColorCount <= c < 0 ==> NextColor(c) == c + 1
  {
  }

  /** Every mutation keeps the entries keyed by their boss id. */
  lemma MutationsKeepKeyed(states: map<string, BossState>, id: string, killedAt: int, saved: bool)
    requires Keyed(states)
    ensures Keyed(AfterTogglePin(states, id, saved))
    ensures Keyed(AfterKillTime(states, id, killedAt, saved))
    ensures Keyed(AfterCycleColor(states, id, saved))
  {
    assert EntryFor(states, id).bossId == id;
  }

  /** Every mutation keeps the colour tags within 0..5. */
  lemma MutationsKeepColors(states: map<string, BossState>, id: string, killedAt: int, saved: bool)
    requires ColorsInRange(states)
    ensures ColorsInRange(AfterTogglePin(states, id, saved))
    ensures ColorsInRange(AfterKillTime(states, id, killedAt, saved))
    ensures ColorsInRange(AfterCycleColor(states, id, saved))
  {
    var c := EntryFor(states, id).colorIndex;
    assert 0 <= c < ColorCount;
    assert 0 <= NextColor(c) < ColorCount;
  }

  /** `fetchStates`: the map built from the fetched rows, later rows with the
      same boss id overwriting earlier ones. */
  function StateMap(rows: seq<BossState>): (m: map<string, BossState>)
    ensures Keyed(m)
    ensures m.Keys == set r | r in rows :: r.bossId
    ensures forall i :: (0 <= i < |rows| && (forall j :: i < j < |rows| ==> rows[j].bossId != rows[i].bossId))
                        ==> m[rows[i].bossId] == rows[i]
  {
    if rows == [] then map[]
    else
      var n := |rows| - 1;
      var prev := StateMap(rows[..n]);
      StateMapStep(rows, rows[..n], prev);
      prev[rows[n].bossId := rows[n]]
  }

  /** The map of one more row is the map of the prefix with that row stored. */
  lemma StateMapAt(rows: seq<BossState>, i: int)
    requires 0 <= i < |rows|
    ensures StateMap(rows[..i + 1]) == StateMap(rows[..i])[rows[i].bossId := rows[i]]
  {
    assert rows[..i + 1][..i] == rows[..i];
  }

  lemma StateMapStep(rows: seq<BossState>, prefix: seq<BossState>, prev: map<string, BossState>)
    requires rows != [] && prefix == rows[..|rows| - 1]
    requires Keyed(prev)
    requires prev.Keys == set r | r in prefix :: r.bossId
    requires forall i :: (0 <= i < |prefix| && (forall j :: i < j < |prefix| ==> prefix[j].bossId != prefix[i].bossId))
                         ==> prev[prefix[i].bossId] == prefix[i]
    ensures var m := prev[rows[|rows| - 1].bossId := rows[|rows| - 1]];
      && Keyed(m)
      && m.Keys == (set r | r in rows :: r.bossId)
      && (forall i :: (0 <= i < |rows| && (forall j :: i < j < |rows| ==> rows[j].bossId != rows[i].bossId))
                      ==> m[rows[i].bossId] == rows[i])
  {
    var n := |rows| - 1;
    assert rows == rows[..n] + [rows[n]];
    forall i | 0 <= i < n ensures rows[..n][i] == rows[i] {
    }
  }

  /** A realtime change row: its `boss_id` and whichever columns it carries
      (`None` for a column the row does not carry). */
  datatype StatePatch = StatePatch(
    bossId: string,
    lastKilledAt: Option<Option<int>>,
    isPinned: Option<bool>,
    colorIndex: Option<int>)

  function Pick<T>(carried: Option<T>, kept: T): T {
    if carried.Some? then carried.value else kept
  }

  /** `dbStates[id] = {...dbStates[id], ...newRow}`: a carried column wins, any
      other keeps the existing entry's value. Without an entry, a column the
      row does not carry is undefined in the original, which every reader
      treats like the default entry's falsy value. */
  function AfterChange(states: map<string, BossState>, p: StatePatch): (r: map<string, BossState>)
    ensures r.Keys == states.Keys + {p.bossId}
    ensures forall other :: other in states && other != p.bossId ==> r[other] == states[other]
    ensures r[p.bossId].bossId == p.bossId
  {
    var e := EntryFor(states, p.bossId);
    states[p.bossId := BossState(p.bossId, Pick(p.lastKilledAt, e.lastKilledAt),
                                 Pick(p.isPinned, e.isPinned), Pick(p.colorIndex, e.colorIndex))]
  }

  /** A row carrying every column replaces the entry outright. */
  lemma FullRowReplaces(states: map<string, BossState>, row: BossState)
    ensures AfterChange(states, StatePatch(row.bossId, Some(row.lastKilledAt), Some(row.isPinned), Some(row.colorIndex)))
         == states[row.bossId := row]
  {
  }

  /** A column the row does not carry keeps its value, and a carried one takes
      the row's; delivering the same row twice is the same as once. */
  lemma ChangeKeepsUncarried(states: map<string, BossState>, p: StatePatch)
    requires p.bossId in states
    ensures var e := AfterChange(states, p)[p.bossId];
      && (p.lastKilledAt.None? ==> e.lastKilledAt == states[p.bossId].lastKilledAt)
      && (p.isPinned.None? ==> e.isPinned == states[p.bossId].isPinned)
      && (p.colorIndex.None? ==> e.colorIndex == states[p.bossId].colorIndex)
      && (p.lastKilledAt.Some? ==> e.lastKilledAt == p.lastKilledAt.value)
      && (p.isPinned.Some? ==> e.isPinned == p.isPinned.value)
      && (p.colorIndex.Some? ==> e.colorIndex == p.colorIndex.value)
    ensures AfterChange(AfterChange(states, p), p) == AfterChange(states, p)
  {
    var once := AfterChange(states, p);
    assert EntryFor(once, p.bossId) == once[p.bossId];
  }

  /** A realtime change keeps every entry keyed by its own id. */
  lemma ChangeKeepsKeyed(states: map<string, BossState>, p: StatePatch)
    requires Keyed(states)
    ensures Keyed(AfterChange(states, p))
  {
  }
}
