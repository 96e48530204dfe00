/** The map-settings rows `fetchMapSounds` reads: one reserved key carries the
    event-mode flag, one is a retired key that is skipped, and every other row
    is a map's alarm sound. */
module MapSettings {

  datatype SettingRow = SettingRow(mapId: string, soundId: string)

  /** Reserved key whose `sound_id` is "true" or "false". */
  const EventModeKey: string := "EVENT_MODE"
  /** Reserved key kept for backward compatibility and ignored. */
  const LegacyMultiplierKey: string := "GLOBAL_MULTIPLIER"

  predicate IsSoundRow(r: SettingRow) {
    r.mapId != EventModeKey && r.mapId != LegacyMultiplierKey
  }

  /** The `soundMap` built from the rows: every sound row, later rows for the
      same map overwriting earlier ones. */
  function SoundMap(rows: seq<SettingRow>): (m: map<string, string>)
    ensures m.Keys == set r | r in rows && IsSoundRow(r) :: r.mapId
    ensures forall i :: (0 <= i < |rows| && IsSoundRow(rows[i])
                         && (forall j :: i < j < |rows| ==> rows[j].mapId != rows[i].mapId))
                        ==> m[rows[i].mapId] == rows[i].soundId
  {
    if rows == [] then map[]
    else
      var n := |rows| - 1;
      var prev := SoundMap(rows[..n]);
      SoundMapStep(rows, rows[..n], prev);
      if IsSoundRow(rows[n]) then prev[rows[n].mapId := rows[n].soundId] else prev
  }

  lemma SoundMapStep(rows: seq<SettingRow>, prefix: seq<SettingRow>, prev: map<string, string>)
    requires rows != [] && prefix == rows[..|rows| - 1]
    requires prev.Keys == set r | r in prefix && IsSoundRow(r) :: r.mapId
    requires forall i :: (0 <= i < |prefix| && IsSoundRow(prefix[i])
                          && (forall j :: i < j < |prefix| ==> prefix[j].mapId != prefix[i].mapId))
                         ==> prev[prefix[i].mapId] == prefix[i].soundId
    ensures var last := rows[|rows| - 1];
      var m := if IsSoundRow(last) then prev[last.mapId := last.soundId] else prev;
      && m.Keys == (set r | r in rows && IsSoundRow(r) :: r.mapId)
      && (forall i :: (0 <= i < |rows| && IsSoundRow(rows[i])
                       && (forall j :: i < j < |rows| ==> rows[j].mapId != rows[i].mapId))
                      ==> m[rows[i].mapId] == rows[i].soundId)
  {
    var n := |rows| - 1;
    assert rows == prefix + [rows[n]];
    forall i | 0 <= i < n ensures prefix[i] == rows[i] {
    }
  }

  /** `isEventMode` after the scan: the last EVENT_MODE row decides, by
      whether its value is the string "true"; without one it is unchanged. */
  function EventModeAfter(rows: seq<SettingRow>, prior: bool): (b: bool)
    ensures (forall i :: 0 <= i < |rows| ==> rows[i].mapId != EventModeKey) ==> b == prior
    ensures forall i :: (0 <= i < |rows| && rows[i].mapId == EventModeKey
                         && (forall j :: i < j < |rows| ==> rows[j].mapId != EventModeKey))
                        ==> b == (rows[i].soundId == "true")
  {
    if rows == [] then prior
    else
      var n := |rows| - 1;
      var prev := EventModeAfter(rows[..n], prior);
      assert forall i :: 0 <= i < n ==> rows[..n][i] == rows[i];
      if rows[n].mapId == EventModeKey then rows[n].soundId == "true" else prev
  }

  /** One more row extends both scans by that row alone. */
  lemma SettingsAt(rows: seq<SettingRow>, i: int, prior: bool)
    requires 0 <= i < |rows|
    ensures SoundMap(rows[..i + 1])
         == if IsSoundRow(rows[i]) then SoundMap(rows[..i])[rows[i].mapId := rows[i].soundId] else SoundMap(rows[..i])
    ensures EventModeAfter(rows[..i + 1], prior)
         == if rows[i].mapId == EventModeKey then rows[i].soundId == "true" else EventModeAfter(rows[..i], prior)
  {
    assert rows[..i + 1][..i] == rows[..i];
  }
}
