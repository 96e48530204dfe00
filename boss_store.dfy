/** The boss store itself: the state fields the actions update in place, and
    the actions with the backend's reply passed in as a parameter. */
module Store {
  import opened BossTypes
  import opened Countdown
  import opened CardOrder
  import opened ListView
  import opened Warnings
  import opened KillState
  import opened MapSettings

  /** The settled reply of an upsert. */
  datatype Upsert = Saved | Failed(message: string)

  /** The settled reply of a select: rows, an empty `data`, or an error. */
  datatype Fetch<T> = Rows(rows: T) | NoData | FetchFailed(message: string)

  /** Every field of the store at one moment. */
  datatype Snapshot = Snapshot(
    bossConfigs: seq<BossConfig>,
    dbStates: map<string, BossState>,
    now: int,
    error: Option<string>,
    mapSounds: map<string, string>,
    isEventMode: bool,
    warnedBosses: set<string>,
    cardOrder: seq<string>,
    storedOrder: seq<string>,
    alerts: seq<string>)

  /** `configs.find(c => c.id === id)`: the first config with that id. */
  function FindConfig(configs: seq<BossConfig>, id: string): (r: Option<BossConfig>)
    ensures r.None? <==> forall c :: c in configs ==> c.id != id
    ensures r.Some? ==> r.value in configs && r.value.id == id
    ensures r.Some? ==> exists i :: 0 <= i < |configs| && configs[i] == r.value
                                    && forall j :: 0 <= j < i ==> configs[j].id != id
  {
    if configs == [] then None
    else if configs[0].id == id then Some(configs[0])
    else
      var r := FindConfig(configs[1..], id);
      assert forall c :: c in configs ==> c == configs[0] || c in configs[1..];
      if r.Some? then
        var i :| 0 <= i < |configs[1..]| && configs[1..][i] == r.value
                 && forall j :: 0 <= j < i ==> configs[1..][j].id != id;
        assert configs[i + 1] == r.value;
        r
      else r
  }

  /** The `forEach` of `fetchStates`: store each row under its `boss_id`. */
  method BuildStateMap(rows: seq<BossState>) returns (stateMap: map<string, BossState>)
    ensures stateMap == StateMap(rows)
  {
    stateMap := map[];
    var i := 0;
    while i < |rows|
      invariant 0 <= i <= |rows|
      invariant stateMap == StateMap(rows[..i])
    {
      StateMapAt(rows, i);
      stateMap := stateMap[rows[i].bossId := rows[i]];
      i := i + 1;
    }
    assert rows[..i] == rows;
  }

  /** The `forEach` of `fetchMapSounds`, starting from the event-mode flag
      `prior`: the event-mode flag after the rows and the sound map. */
  method ScanSettings(rows: seq<SettingRow>, prior: bool) returns (soundMap: map<string, string>, eventMode: bool)
    ensures soundMap == SoundMap(rows)
    ensures eventMode == EventModeAfter(rows, prior)
  {
    soundMap := map[];
    eventMode := prior;
    var i := 0;
    while i < |rows|
      invariant 0 <= i <= |rows|
      invariant soundMap == SoundMap(rows[..i])
      invariant eventMode == EventModeAfter(rows[..i], prior)
    {
      SettingsAt(rows, i, prior);
      var row := rows[i];
      if row.mapId == EventModeKey {
        eventMode := row.soundId == "true";
      } else if row.mapId == LegacyMultiplierKey {
      } else {
        soundMap := soundMap[row.mapId := row.soundId];
      }
      i := i + 1;
    }
    assert rows[..i] == rows;
  }

  class BossStore {
    var bossConfigs: seq<BossConfig>
    var dbStates: map<string, BossState>
    var now: int
    var error: Option<string>
    var mapSounds: map<string, string>
    var isEventMode: bool
    var warnedBosses: set<string>
    var cardOrder: seq<string>
    /** The card order last written to local storage. */
    ghost var storedOrder: seq<string>
    /** The sounds passed to `playWarningSequence`, in call order. */
    var alerts: seq<string>

    ghost predicate Valid()
      reads this
    {
      Keyed(dbStates) && cardOrder == storedOrder
    }

    ghost function State(): Snapshot
      reads this
    {
      Snapshot(bossConfigs, dbStates, now, error, mapSounds, isEventMode,
               warnedBosses, cardOrder, storedOrder, alerts)
    }

    /** The `bossListView` getter on the current state. */
    function View(): seq<BossView>
      reads this
    {
      BossListView(bossConfigs, dbStates, isEventMode, now, cardOrder)
    }

    /** The initial state; `stored` is the saved card order, if any. */
    constructor (clock: int, stored: Option<seq<string>>)
      ensures Valid()
      ensures var order := if stored.Some? then stored.value else [];
        State() == Snapshot([], map[], clock, None, map[], false, {}, order, order, [])
    {
      bossConfigs := [];
      dbStates := map[];
      now := clock;
      error := None;
      mapSounds := map[];
      isEventMode := false;
      warnedBosses := {};
      cardOrder := if stored.Some? then stored.value else [];
      storedOrder := cardOrder;
      alerts := [];
    }

    /** `setCardOrder`: replace the order and persist it. */
    method SetCardOrder(newOrder: seq<string>)
      requires Valid()
      modifies this
      ensures Valid()
      ensures State() == old(State()).(cardOrder := newOrder, storedOrder := newOrder)
    {
      cardOrder := newOrder;
      storedOrder := newOrder;
    }

    /** `updatePartialOrder`: move the reordered subset behind every other id. */
    method UpdatePartialOrder(subset: seq<string>)
      requires Valid()
      modifies this
      ensures Valid()
      ensures State() == old(State()).(cardOrder := PartialOrderMerge(old(cardOrder), subset),
                                       storedOrder := PartialOrderMerge(old(cardOrder), subset))
    {
      var others := Without(cardOrder, subset);
      SetCardOrder(others + subset);
    }

    /** `checkWarnings`: one scan over the current view. */
    method CheckWarnings()
      requires Valid()
      modifies this
      ensures Valid()
      ensures var scan := CheckFold(old(View()), old(warnedBosses), mapSounds);
        State() == old(State()).(warnedBosses := scan.warned, alerts := old(alerts) + scan.fired)
    {
      var bosses := View();
      ScanViews(bosses);
    }

    /** The `forEach` of `checkWarnings` over the views `bosses`. */
    method ScanViews(bosses: seq<BossView>)
      requires Valid()
      modifies this
      ensures Valid()
      ensures var scan := CheckFold(bosses, old(warnedBosses), mapSounds);
        State() == old(State()).(warnedBosses := scan.warned, alerts := old(alerts) + scan.fired)
    {
      var i := 0;
      while i < |bosses|
        invariant 0 <= i <= |bosses|
        invariant warnedBosses == CheckFold(bosses[..i], old(warnedBosses), mapSounds).warned
        invariant alerts == old(alerts) + CheckFold(bosses[..i], old(warnedBosses), mapSounds).fired
        invariant State() == old(State()).(warnedBosses := warnedBosses, alerts := alerts)
      {
        ghost var prev := CheckFold(bosses[..i], old(warnedBosses), mapSounds);
        ghost var step := WarnStep(prev.warned, bosses[i], mapSounds);
        CheckFoldStep(bosses, i, old(warnedBosses), mapSounds);
        ScanOne(bosses[i]);
        assert alerts == old(alerts) + prev.fired + step.fired;
        i := i + 1;
      }
      assert bosses[..i] == bosses;
    }

    /** The `forEach` callback of `checkWarnings` for one view. */
    method ScanOne(boss: BossView)
      requires Valid()
      modifies this
      ensures Valid()
      ensures var step := WarnStep(old(warnedBosses), boss, mapSounds);
        State() == old(State()).(warnedBosses := step.warned, alerts := old(alerts) + step.fired)
    {
      if boss.status == Critical {
        if boss.config.id !in warnedBosses {
          warnedBosses := warnedBosses + {boss.config.id};
          var sound := SoundFor(mapSounds, boss.config.mapId);
          if sound != NoSound {
            alerts := alerts + [sound];
          }
        }
      } else {
        warnedBosses := warnedBosses - {boss.config.id};
      }
    }

    /** One timer tick: read the clock, then scan for warnings. */
    method Tick(clock: int)
      requires Valid()
      modifies this
      ensures Valid()
      ensures var scan := CheckFold(BossListView(bossConfigs, dbStates, isEventMode, clock, cardOrder),
                                    old(warnedBosses), mapSounds);
        State() == old(State()).(now := clock, warnedBosses := scan.warned, alerts := old(alerts) + scan.fired)
    {
      now := clock;
      CheckWarnings();
    }

    /** `cycleBossColor`: advance the colour tag, restoring it silently when
        the upsert fails. */
    method CycleBossColor(bossId: string, outcome: Upsert)
      requires Valid()
      modifies this
      ensures Valid()
      ensures State() == old(State()).(dbStates := AfterCycleColor(old(dbStates), bossId, outcome.Saved?))
    {
      ghost var entry := EntryFor(dbStates, bossId);
      if bossId !in dbStates {
        dbStates := dbStates[bossId := DefaultState(bossId)];
      }
      assert dbStates == WithEntry(old(dbStates), bossId) && dbStates[bossId] == entry;
      var current := dbStates[bossId].colorIndex;
      var next := NextColor(current);
      dbStates := dbStates[bossId := dbStates[bossId].(colorIndex := next)];
      assert dbStates == old(dbStates)[bossId := entry.(colorIndex := next)];
      if outcome.Failed? {
        dbStates := dbStates[bossId := dbStates[bossId].(colorIndex := current)];
        assert dbStates == old(dbStates)[bossId := entry];
      }
      assert dbStates == AfterCycleColor(old(dbStates), bossId, outcome.Saved?);
      MutationsKeepKeyed(old(dbStates), bossId, 0, outcome.Saved?);
    }

    /** `togglePin`: negate the pin flag, restoring it and reporting the error
        when the upsert fails. */
    method TogglePin(bossId: string, outcome: Upsert)
      requires Valid()
      modifies this
      ensures Valid()
      ensures State() == old(State()).(dbStates := AfterTogglePin(old(dbStates), bossId, outcome.Saved?),
                                       error := if outcome.Failed? then Some(outcome.message) else old(error))
    {
      ghost var entry := EntryFor(dbStates, bossId);
      if bossId !in dbStates {
        dbStates := dbStates[bossId := DefaultState(bossId)];
      }
      assert dbStates == WithEntry(old(dbStates), bossId) && dbStates[bossId] == entry;
      var oldPin := dbStates[bossId].isPinned;
      dbStates := dbStates[bossId := dbStates[bossId].(isPinned := !oldPin)];
      assert dbStates == old(dbStates)[bossId := entry.(isPinned := !oldPin)];
      if outcome.Failed? {
        error := Some(outcome.message);
        dbStates := dbStates[bossId := dbStates[bossId].(isPinned := oldPin)];
        assert dbStates == old(dbStates)[bossId := entry];
      }
      assert dbStates == AfterTogglePin(old(dbStates), bossId, outcome.Saved?);
      MutationsKeepKeyed(old(dbStates), bossId, 0, outcome.Saved?);
    }

    /** `updateKillTime`: record the kill time, restoring the old one and
        reporting the error when the upsert fails. A time value outside the
        Date range is rejected (the RangeError of `toISOString`) before
        anything changes. */
    method UpdateKillTime(bossId: string, timestamp: real, outcome: Upsert) returns (rejected: bool)
      requires Valid()
      modifies this
      ensures Valid()
      ensures rejected <==> TimeClip(timestamp).None?
      ensures rejected ==> State() == old(State())
      ensures !rejected ==>
        State() == old(State()).(dbStates := AfterKillTime(old(dbStates), bossId, TimeClip(timestamp).value, outcome.Saved?),
                                 error := if outcome.Failed? then Some(outcome.message) else old(error))
    {
      var time := TimeClip(timestamp);
      if time.None? {
        return true;
      }
      ghost var entry := EntryFor(dbStates, bossId);
      if bossId !in dbStates {
        dbStates := dbStates[bossId := DefaultState(bossId)];
      }
      assert dbStates == WithEntry(old(dbStates), bossId) && dbStates[bossId] == entry;
      var oldTime := dbStates[bossId].lastKilledAt;
      dbStates := dbStates[bossId := dbStates[bossId].(lastKilledAt := Some(time.value))];
      assert dbStates == old(dbStates)[bossId := entry.(lastKilledAt := Some(time.value))];
      if outcome.Failed? {
        error := Some(outcome.message);
        dbStates := dbStates[bossId := dbStates[bossId].(lastKilledAt := oldTime)];
        assert dbStates == old(dbStates)[bossId := entry];
      }
      assert dbStates == AfterKillTime(old(dbStates), bossId, time.value, outcome.Saved?);
      MutationsKeepKeyed(old(dbStates), bossId, time.value, outcome.Saved?);
      rejected := false;
    }

    /** `setRemainingSeconds`: record the kill time that leaves `seconds` on
        the countdown at `clock`; nothing happens for an unknown boss. When the
        upsert succeeds, the boss's countdown derived at `clock` shows
        `seconds` again. */
    method SetRemainingSeconds(bossId: string, seconds: int, clock: int, outcome: Upsert)
      returns (found: bool, rejected: bool)
      requires Valid()
      modifies this
      ensures Valid()
      ensures found <==> FindConfig(old(bossConfigs), bossId).Some?
      ensures !found ==> !rejected && State() == old(State())
      ensures found ==>
        var time := KillTimeFor(FindConfig(old(bossConfigs), bossId).value.interval, old(isEventMode), clock, seconds);
        && (rejected <==> TimeClip(time).None?)
        && (rejected ==> State() == old(State()))
        && (!rejected ==>
              State() == old(State()).(dbStates := AfterKillTime(old(dbStates), bossId, TimeClip(time).value, outcome.Saved?),
                                       error := if outcome.Failed? then Some(outcome.message) else old(error)))
      ensures found && !rejected && outcome.Saved?
              && 0.0 <= KillTimeFor(FindConfig(bossConfigs, bossId).value.interval, isEventMode, clock, seconds) ==>
        var v := DeriveView(FindConfig(bossConfigs, bossId).value, Some(dbStates[bossId]), isEventMode, clock);
        v.status == Classify(seconds).status && v.remainingSeconds == Classify(seconds).remaining
    {
      var config := FindConfig(bossConfigs, bossId);
      if config.None? {
        return false, false;
      }
      var newKillTime := KillTimeFor(config.value.interval, isEventMode, clock, seconds);
      found := true;
      rejected := UpdateKillTime(bossId, newKillTime, outcome);
      if !rejected && outcome.Saved? && 0.0 <= newKillTime {
        RemainingSecondsRoundTrip(config.value, dbStates[bossId], isEventMode, clock, seconds);
      }
    }

    /** The realtime handler for a change to `boss_states`: merge the new row
        into its entry; a payload without a row or without a `boss_id` is
        ignored. */
    method ApplyStateChange(change: Option<StatePatch>)
      requires Valid()
      modifies this
      ensures Valid()
      ensures State() == if change.Some? && change.value.bossId != ""
                         then old(State()).(dbStates := AfterChange(old(dbStates), change.value))
                         else old(State())
    {
      if change.Some? && change.value.bossId != "" {
        dbStates := AfterChange(dbStates, change.value);
      }
    }

    /** `fetchStates`: clear the error, then replace the states by the map
        built from the fetched rows, or record the failure. */
    method FetchStates(result: Fetch<seq<BossState>>)
      requires Valid()
      modifies this
      ensures Valid()
      ensures State() == old(State()).(dbStates := if result.Rows? then StateMap(result.rows) else old(dbStates),
                                       error := if result.FetchFailed? then Some(result.message) else None)
    {
      error := None;
      match result {
        case Rows(rows) =>
          dbStates := BuildStateMap(rows);
        case NoData =>
        case FetchFailed(message) =>
          error := Some(message);
      }
    }

    /** `fetchMapSounds`: read the event-mode flag and the per-map sounds from
        the settings rows; a failed fetch changes nothing. */
    method FetchMapSounds(result: Fetch<seq<SettingRow>>)
      requires Valid()
      modifies this
      ensures Valid()
      ensures State() == if result.Rows?
                         then old(State()).(mapSounds := SoundMap(result.rows),
                                            isEventMode := EventModeAfter(result.rows, old(isEventMode)))
                         else old(State())
    {
      if result.Rows? {
        var soundMap, eventMode := ScanSettings(result.rows, isEventMode);
        isEventMode := eventMode;
        mapSounds := soundMap;
      }
    }
  }
}
