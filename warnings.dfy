/** The warning edge detector (`checkWarnings`): one scan over the views that
    arms and disarms `warnedBosses` and starts a warning sequence once per
    entry into `critical`. */
module Warnings {
  import opened BossTypes
  import opened ListView

  /** The sound id that means "no alarm". */
  const NoSound: string := "none"

  /** `mapSounds[map_id] || 'none'`: a missing or empty entry means no alarm. */
  function SoundFor(sounds: map<string, string>, mapId: string): (s: string)
    ensures s != ""
    ensures s == NoSound <==> mapId !in sounds || sounds[mapId] == "" || sounds[mapId] == NoSound
    ensures s != NoSound ==> mapId in sounds && s == sounds[mapId]
  {
    if mapId in sounds && sounds[mapId] != "" then sounds[mapId] else NoSound
  }

  /** The warned set after a scan and the sounds whose sequences were started, in order. */
  datatype Scan = Scan(warned: set<string>, fired: seq<string>)

  /** The `forEach` body for one view: a critical view is armed, any other
      disarmed. */
  function WarnStep(warned: set<string>, v: BossView, sounds: map<string, string>): (s: Scan)
    ensures v.config.id in s.warned <==> v.status == Critical
  {
    var id := v.config.id;
    if v.status == Critical then
      if id !in warned then
        var sound := SoundFor(sounds, v.config.mapId);
        Scan(warned + {id}, if sound != NoSound then [sound] else [])
      else Scan(warned, [])
    else Scan(warned - {id}, [])
  }

  /** One step leaves every other id as it was, and starts a sequence exactly
      when the view is critical, was not armed and its map has an alarm: the
      reference list of that one view. */
  lemma WarnStepAlerts(warned: set<string>, v: BossView, sounds: map<string, string>)
    ensures var s := WarnStep(warned, v, sounds);
      && (forall id :: id != v.config.id ==> (id in s.warned <==> id in warned))
      && s.fired == (if v.status == Critical && v.config.id !in warned && SoundFor(sounds, v.config.mapId) != NoSound
                     then [SoundFor(sounds, v.config.mapId)] else [])
      && s.fired == ExpectedAlerts([v], warned, sounds)
  {
    assert [v][..0] == [];
  }

  /** The scan of `views` from the first to the last, starting from `warned`:
      at most one sequence starts per view, and only real alarms are started. */
  function CheckFold(views: seq<BossView>, warned: set<string>, sounds: map<string, string>): (s: Scan)
    ensures |s.fired| <= |views|
    ensures forall x :: x in s.fired ==> x != NoSound
    decreases |views|
  {
    if views == [] then Scan(warned, [])
    else
      var prev := CheckFold(views[..|views| - 1], warned, sounds);
      var step := WarnStep(prev.warned, views[|views| - 1], sounds);
      Scan(step.warned, prev.fired + step.fired)
  }

  /** One more view extends the scan by one step. */
  lemma CheckFoldStep(views: seq<BossView>, i: int, warned: set<string>, sounds: map<string, string>)
    requires 0 <= i < |views|
    ensures var prev := CheckFold(views[..i], warned, sounds);
      var step := WarnStep(prev.warned, views[i], sounds);
      CheckFold(views[..i + 1], warned, sounds) == Scan(step.warned, prev.fired + step.fired)
  {
    assert views[..i + 1][..i] == views[..i];
  }

  function IdsOf(views: seq<BossView>): set<string> {
    set v | v in views :: v.config.id
  }

  function CriticalIdsOf(views: seq<BossView>): set<string> {
    set v | v in views && v.status == Critical :: v.config.id
  }

  /** Reference definition of the started sequences: in view order, the sound
      of every view that is critical, was not warned before the scan and whose
      map has an alarm. */
  function ExpectedAlerts(views: seq<BossView>, warned: set<string>, sounds: map<string, string>): seq<string>
    decreases |views|
  {
    if views == [] then []
    else
      var v := views[|views| - 1];
      var sound := SoundFor(sounds, v.config.mapId);
      ExpectedAlerts(views[..|views| - 1], warned, sounds)
        + (if v.status == Critical && v.config.id !in warned && sound != NoSound then [sound] else [])
  }

  lemma PrefixDistinct(views: seq<BossView>)
    requires views != [] && DistinctIds(views)
    ensures DistinctIds(views[..|views| - 1])
    ensures views[|views| - 1].config.id !in IdsOf(views[..|views| - 1])
  {
    var p := views[..|views| - 1];
    forall v | v in p ensures v.config.id != views[|views| - 1].config.id {
      var i :| 0 <= i < |p| && p[i] == v;
      assert views[i] == v;
    }
  }

  lemma IdsOfSnoc(views: seq<BossView>)
    requires views != []
    ensures var p := views[..|views| - 1]; var v := views[|views| - 1];
      && IdsOf(views) == IdsOf(p) + {v.config.id}
      && CriticalIdsOf(views) == CriticalIdsOf(p) + (if v.status == Critical then {v.config.id} else {})
  {
    assert views == views[..|views| - 1] + [views[|views| - 1]];
  }

  /** After a scan over views with distinct ids, exactly the critical ones are
      warned; ids not in the view keep their old membership. */
  lemma {:induction false} CheckWarned(views: seq<BossView>, warned: set<string>, sounds: map<string, string>)
    requires DistinctIds(views)
    ensures CheckFold(views, warned, sounds).warned == (warned - IdsOf(views)) + CriticalIdsOf(views)
    decreases |views|
  {
    if views != [] {
      var p := views[..|views| - 1];
      PrefixDistinct(views);
      CheckWarned(p, warned, sounds);
    }
  }

  /** After a scan, a viewed id is warned exactly when its view is critical,
      and an id outside the view (a hidden boss) is left as it was. */
  lemma CheckWarnedPerId(views: seq<BossView>, warned: set<string>, sounds: map<string, string>)
    requires DistinctIds(views)
    ensures forall i :: 0 <= i < |views| ==>
      (views[i].config.id in CheckFold(views, warned, sounds).warned <==> views[i].status == Critical)
    ensures forall id :: id !in IdsOf(views) ==>
      (id in CheckFold(views, warned, sounds).warned <==> id in warned)
  {
    CheckWarned(views, warned, sounds);
    forall i | 0 <= i < |views|
      ensures views[i].config.id in CriticalIdsOf(views) <==> views[i].status == Critical
    {
      if views[i].config.id in CriticalIdsOf(views) {
        var v :| v in views && v.status == Critical && v.config.id == views[i].config.id;
        var j :| 0 <= j < |views| && views[j] == v;
        assert i == j;
      }
    }
  }

  /** The started sequences are exactly the reference list: a view fires only
      on entry into `critical`, and only when its map has an alarm. */
  lemma {:induction false} CheckFired(views: seq<BossView>, warned: set<string>, sounds: map<string, string>)
    requires DistinctIds(views)
    ensures CheckFold(views, warned, sounds).fired == ExpectedAlerts(views, warned, sounds)
    decreases |views|
  {
    if views != [] {
      var p := views[..|views| - 1];
      var v := views[|views| - 1];
      PrefixDistinct(views);
      CheckFired(p, warned, sounds);
      CheckWarned(p, warned, sounds);
      assert v.config.id in CheckFold(p, warned, sounds).warned <==> v.config.id in warned;
    }
  }

  /** The scan `checkWarnings` makes over the store's view, for configs with
      distinct ids: each viewed boss ends up warned exactly when it is
      critical, every other id (a hidden boss) keeps its membership, and the
      started sequences are the reference list. */
  lemma ListViewScan(configs: seq<BossConfig>, states: map<string, BossState>, eventMode: bool, now: int,
                     cardOrder: seq<string>, warned: set<string>, sounds: map<string, string>)
    requires DistinctConfigIds(configs)
    ensures var vs := BossListView(configs, states, eventMode, now, cardOrder);
      var scan := CheckFold(vs, warned, sounds);
      && (forall i :: 0 <= i < |vs| ==> (vs[i].config.id in scan.warned <==> vs[i].status == Critical))
      && (forall id :: id !in IdsOf(vs) ==> (id in scan.warned <==> id in warned))
      && scan.fired == ExpectedAlerts(vs, warned, sounds)
  {
    var vs := BossListView(configs, states, eventMode, now, cardOrder);
    ListViewDistinct(configs, states, eventMode, now, cardOrder);
    CheckWarnedPerId(vs, warned, sounds);
    CheckFired(vs, warned, sounds);
  }

  /** A series of ticks, each scanning a one-boss view list. */
  function Ticks(vs: seq<BossView>, warned: set<string>, sounds: map<string, string>): Scan
    decreases |vs|
  {
    if vs == [] then Scan(warned, [])
    else
      var first := CheckFold([vs[0]], warned, sounds);
      var rest := Ticks(vs[1..], first.warned, sounds);
      Scan(rest.warned, first.fired + rest.fired)
  }

  /** The number of entries into `critical`; `armed` says the boss is not
      counted as critical before the first tick. */
  function CriticalEntries(vs: seq<BossView>, armed: bool): nat
    decreases |vs|
  {
    if vs == [] then 0
    else (if vs[0].status == Critical && armed then 1 else 0) + CriticalEntries(vs[1..], vs[0].status != Critical)
  }

  lemma SingleViewCheck(v: BossView, warned: set<string>, sounds: map<string, string>)
    ensures CheckFold([v], warned, sounds) == WarnStep(warned, v, sounds)
  {
    assert [v][..0] == [];
    var step := WarnStep(warned, v, sounds);
    assert CheckFold([v], warned, sounds) == Scan(step.warned, [] + step.fired);
    assert [] + step.fired == step.fired;
  }

  /** Over a series of ticks for one boss whose map has an alarm, the warning
      sequence starts exactly once per entry into `critical`, and not again
      while the boss stays critical. */
  lemma {:induction false} FiresOncePerEntry(vs: seq<BossView>, id: string, mapId: string,
                                             warned: set<string>, sounds: map<string, string>)
    requires forall i :: 0 <= i < |vs| ==> vs[i].config.id == id && vs[i].config.mapId == mapId
    requires SoundFor(sounds, mapId) != NoSound
    ensures |Ticks(vs, warned, sounds).fired| == CriticalEntries(vs, id !in warned)
    ensures forall s :: s in Ticks(vs, warned, sounds).fired ==> s == SoundFor(sounds, mapId)
    decreases |vs|
  {
    if vs != [] {
      var first := CheckFold([vs[0]], warned, sounds);
      SingleViewCheck(vs[0], warned, sounds);
      assert id in first.warned <==> vs[0].status == Critical;
      assert first.fired == if vs[0].status == Critical && id !in warned then [SoundFor(sounds, mapId)] else [];
      FiresOncePerEntry(vs[1..], id, mapId, first.warned, sounds);
      var rest := Ticks(vs[1..], first.warned, sounds);
      assert Ticks(vs, warned, sounds).fired == first.fired + rest.fired;
    }
  }

  /** wait, critical, ready, critical fires twice; wait, critical, critical once. */
  lemma FiresOncePerEntryExample(c: BossConfig, sounds: map<string, string>)
    requires SoundFor(sounds, c.mapId) != NoSound
    ensures var v := (s: Status) => BossView(c, None, false, 0, None, 0, 0.0, s);
      && |Ticks([v(Wait), v(Critical), v(Ready), v(Critical)], {}, sounds).fired| == 2
      && |Ticks([v(Wait), v(Critical), v(Critical)], {}, sounds).fired| == 1
  {
    var v := (s: Status) => BossView(c, None, false, 0, None, 0, 0.0, s);
    var a := [v(Wait), v(Critical), v(Ready), v(Critical)];
    var b := [v(Wait), v(Critical), v(Critical)];
    FiresOncePerEntry(a, c.id, c.mapId, {}, sounds);
    FiresOncePerEntry(b, c.id, c.mapId, {}, sounds);
    assert CriticalEntries(a[3..], true) == 1 by {
      assert a[3..][1..] == [];
    }
    assert a[2..][1..] == a[3..];
    assert CriticalEntries(a[2..], false) == 1;
    assert a[1..][1..] == a[2..];
    assert CriticalEntries(a[1..], true) == 2;
    assert CriticalEntries(a, true) == 2;
    assert CriticalEntries(b[2..], false) == 0 by {
      assert b[2..][1..] == [];
    }
    assert b[1..][1..] == b[2..];
    assert CriticalEntries(b[1..], true) == 1;
    assert CriticalEntries(b, true) == 1;
  }
}
