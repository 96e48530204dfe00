/** The records the store works on: boss definitions, per-boss kill state and
    the derived view record. Timestamps are integer milliseconds since the epoch. */
module BossTypes {

  datatype Option<T> = None | Some(value: T)

  /** A boss definition; `isVisible` is the optional `is_visible` flag
      (absent means visible). `interval` is the respawn interval in seconds. */
  datatype BossConfig = BossConfig(
    id: string,
    name: string,
    interval: int,
    mapId: string,
    levelName: string,
    isVisible: Option<bool>)

  /** The per-boss kill state row. `lastKilledAt == None` stands for every falsy
      `last_killed_at` (null, or an empty string). */
  datatype BossState = BossState(
    bossId: string,
    lastKilledAt: Option<int>,
    isPinned: bool,
    colorIndex: int)

  datatype Status = Ready | Critical | Soon | Wait | Missed

  /** The derived view record: the config passed through (`...config`) plus the
      kill state and the computed countdown. */
  datatype BossView = BossView(
    config: BossConfig,
    lastKilledAt: Option<int>,
    isPinned: bool,
    colorIndex: int,
    nextRefreshTime: Option<real>,
    remainingSeconds: int,
    effectiveInterval: real,
    status: Status)

  /** `is_visible !== false` */
  predicate IsVisible(c: BossConfig) {
    c.isVisible != Some(false)
  }

  /** The largest magnitude a JavaScript Date accepts (8.64e15 ms). */
  const MaxTimeMs: int := 8_640_000_000_000_000

  /** Truncation toward zero, as `new Date(x)` applies to a fractional time value. */
  function TruncMs(x: real): (r: int)
    ensures 0.0 <= x ==> r as real <= x < r as real + 1.0
    ensures x < 0.0 ==> r as real - 1.0 < x <= r as real
  {
    if 0.0 <= x then x.Floor else -((-x).Floor)
  }

  /** `new Date(x)`: the integer time value, or None for an invalid date, on
      which `toISOString` throws. */
  function TimeClip(x: real): (r: Option<int>)
    ensures r.Some? <==> -(MaxTimeMs as real) <= x <= MaxTimeMs as real
    ensures r.Some? ==> -MaxTimeMs <= r.value <= MaxTimeMs
    ensures r.Some? ==> r.value == TruncMs(x)
  {
    if -(MaxTimeMs as real) <= x <= MaxTimeMs as real then Some(TruncMs(x)) else None
  }
}
